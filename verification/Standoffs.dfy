/**
 How the transactions that may deadlock do: the runs that lead into a standoff, and with them the
 exact condition for freedom from deadlock.
 */
module Standoffs {
  import opened Deadlocks
  import opened Lists
  import opened LockPoints
  import opened RowLocks
  import opened Sets
  import opened Sorting

  ghost predicate Blocked(qs: seq<Proc>, i: nat)
    requires i < |qs|
  {
    qs[i].todo != [] && !Free(qs, i, qs[i].todo[0])
  }

  /** Somebody is unfinished, and whoever is waits for a row another one holds. */
  ghost predicate Stuck(qs: seq<Proc>) {
    && (exists i :: 0 <= i < |qs| && !Finished(qs[i]))
    && forall i | 0 <= i < |qs| :: Finished(qs[i]) || Blocked(qs, i)
  }

  lemma StuckCannotMove(qs: seq<Proc>)
    requires Stuck(qs)
    ensures !CanMove(qs)
  {
    forall s ensures !Enabled(qs, s) {
      if s.i < |qs| { assert Finished(qs[s.i]) || Blocked(qs, s.i); }
    }
  }

  // ---- Running alone -----------------------------------------------------------------------------------

  ghost predicate NobodyElseHolds(ps: seq<Proc>, m: nat) { forall i | 0 <= i < |ps| && i != m :: ps[i].held == {} }

  /** Its next step is enabled, and leaves the others as they are. */
  lemma StepsAlone(mid: seq<Proc>, m: nat) returns (s: Step)
    requires m < |mid| && NobodyElseHolds(mid, m) && !Finished(mid[m])
    ensures Enabled(mid, s) && NobodyElseHolds(Apply(mid, s), m)
    ensures Apply(mid, s)[m := Proc({}, [], [])] == mid[m := Proc({}, [], [])]
  {
    s := if mid[m].todo == [] then Commit(m) else Acquire(m);
  }

  /** While nobody else holds a row, a transaction can run to its end. */
  lemma {:induction false} RunsAlone(ps: seq<Proc>, run: seq<Step>, mid: seq<Proc>, m: nat)
    returns (more: seq<Step>, end: seq<Proc>)
    requires IsRun(ps, run, mid) && m < |mid| && NobodyElseHolds(mid, m)
    ensures IsRun(ps, more, end) && end == mid[m := Proc({}, [], [])]
    decreases Work(mid, WorkOf)
  {
    if Finished(mid[m]) {
      more, end := run, mid;
    } else {
      var s := StepsAlone(mid, m);
      StepWorks(mid, s);
      var part, next := Extended(ps, run, mid, s);
      more, end := RunsAlone(ps, part, next, m);
    }
  }

  /** Of the first n all but those to keep have finished; the rest has not begun. */
  ghost predicate OnlyKept(ps: seq<Proc>, end: seq<Proc>, n: nat, keep: set<nat>) {
    |end| == |ps| && forall m | 0 <= m < |ps| :: end[m] == if m < n && m !in keep then Proc({}, [], []) else ps[m]
  }

  lemma {:induction false} OthersFinish(ps: seq<Proc>, n: nat, keep: set<nat>) returns (run: seq<Step>, end: seq<Proc>)
    requires n <= |ps| && forall i | 0 <= i < |ps| :: ps[i].held == {}
    ensures IsRun(ps, run, end) && OnlyKept(ps, end, n, keep)
  {
    if n == 0 {
      run, end := [], ps;
    } else {
      run, end := OthersFinish(ps, n - 1, keep);
      if n - 1 !in keep { run, end := RunsAlone(ps, run, end, n - 1); }
    }
  }

  /** Everybody but those to keep can finish before these begin. */
  lemma {:induction false} AllButThese(ps: seq<Proc>, keep: set<nat>) returns (run: seq<Step>, left: seq<Proc>)
    requires forall i | 0 <= i < |ps| :: ps[i].held == {}
    ensures IsRun(ps, run, left) && |left| == |ps|
    ensures forall m | 0 <= m < |left| :: left[m].held == {} && if m in keep then left[m] == ps[m] else Finished(left[m])
  {
    run, left := OthersFinish(ps, |ps|, keep);
  }

  lemma LastUpdateCounts<T>(s: seq<T>, j: nat, x: T, y: T)
    requires j < |s|
    ensures s[j := x][j := y] == s[j := y]
  {
  }

  /** A transaction in its last phase takes the first n rows of it, if nobody holds them. */
  lemma {:induction false} TakesRows(ps: seq<Proc>, run: seq<Step>, mid: seq<Proc>, j: nat, up: seq<int>, n: nat)
    returns (more: seq<Step>, end: seq<Proc>)
    requires IsRun(ps, run, mid) && j < |mid| && mid[j] == Proc({}, up, []) && n <= |up|
    requires forall i | 0 <= i < n :: Free(mid, j, up[i])
    ensures IsRun(ps, more, end) && end == mid[j := Proc(Rows(up[..n]), up[n..], [])]
  {
    if n == 0 {
      assert Rows(up[..0]) == {} && up[0..] == up;
      more, end := run, mid;
    } else {
      var part, before := TakesRows(ps, run, mid, j, up, n - 1);
      RowsSnoc(up, n - 1);
      assert Free(mid, j, up[n - 1]);
      assert Free(before, j, up[n - 1]);
      more, end := Extended(ps, part, before, Acquire(j));
      LastUpdateCounts(mid, j, before[j], Proc(Rows(up[..n]), up[n..], []));
    }
  }

  // ---- Against a transaction that locks the whole event ----------------------------------------------------

  /** A transaction of one row and then others, alone: it locks the row and commits. */
  lemma {:induction false} CommitsItsRow(ps: seq<Proc>, run: seq<Step>, mid: seq<Proc>, j: nat, row: int, up: seq<int>)
    returns (more: seq<Step>, end: seq<Proc>)
    requires IsRun(ps, run, mid) && j < |mid| && NobodyElseHolds(mid, j) && mid[j] == Proc({}, [row], [up])
    ensures IsRun(ps, more, end) && end == mid[j := Proc({}, up, [])]
  {
    var part, locked := Extended(ps, run, mid, Acquire(j));
    assert locked[j] == Proc({} + {row}, [], [up]) by { assert [row][1..] == []; }
    more, end := Extended(ps, part, locked, Commit(j));
    assert end[j] == Proc({}, up, []) by { assert [up][1..] == []; }
  }

  /** The rows of its last phase, in the order it locks them. */
  ghost function LastPhase(t: Transaction, tb: Table): seq<int> {
    if t.UpdateTeam? then [t.team] + Ascending(tb.current - {t.team}) else Ascending(tb.current)
  }

  lemma FirstPhases(t: Transaction, tb: Table)
    ensures t.UpdateClassification? ==> Starting(Script(t, tb)) == Proc({}, LastPhase(t, tb), [])
    ensures t.AddCheckpoint? && t.team in tb.teams ==> Starting(Script(t, tb)) == Proc({}, [t.team], [LastPhase(t, tb)])
    ensures t.UpdateTeam? && t.team in tb.teams ==> Starting(Script(t, tb)) == Proc({}, LastPhase(t, tb), [])
  {
  }

  /** Everybody else has finished; one has not begun, and the other is about to lock the event. */
  lemma {:induction false} AboutToLock(ts: seq<Transaction>, tb: Table, k: nat, j: nat, team: int)
    returns (run: seq<Step>, two: seq<Proc>)
    requires k < |ts| && j < |ts| && k != j && TakesAll(ts[j], tb, team)
    ensures IsRun(Start(ts, tb), run, two) && |two| == |ts| && two[k] == Start(ts, tb)[k]
    ensures two[j] == Proc({}, LastPhase(ts[j], tb), []) && two[k].held == {}
    ensures forall m | 0 <= m < |two| && m != k && m != j :: Finished(two[m])
  {
    var ps := Start(ts, tb);
    FirstPhases(ts[j], tb);
    var begun, left := AllButThese(ps, {k, j});
    run, two := begun, left;
    if ts[j].AddCheckpoint? { run, two := CommitsItsRow(ps, begun, left, j, ts[j].team, LastPhase(ts[j], tb)); }
  }

  /** k takes the row nobody holds, and then wants one that j holds while j wants the one just taken. */
  lemma LastLock(three: seq<Proc>, k: nat, j: nat, team: int, rest: seq<int>, held: set<int>, todo: seq<int>)
    requires k < |three| && j < |three| && k != j
    requires forall m | 0 <= m < |three| && m != k && m != j :: Finished(three[m])
    requires three[k] == Proc({}, [team] + rest, []) && three[j] == Proc(held, todo, [])
    requires todo != [] && todo[0] == team && team !in held && rest != [] && rest[0] in held
    ensures Enabled(three, Acquire(k)) && Stuck(Apply(three, Acquire(k)))
  {
    var qs := Apply(three, Acquire(k));
    assert ([team] + rest)[0] == team && ([team] + rest)[1..] == rest;
    assert qs[k] == Proc({} + {team}, rest, []) && qs[j] == three[j];
    assert Blocked(qs, k) && Blocked(qs, j);
  }

  lemma IndexIn(up: seq<int>, x: int) returns (n: nat)
    requires x in up && StrictlyUp(up)
    ensures n < |up| && up[n] == x && x !in up[..n]
    ensures forall y | y in up && y < x :: y in up[..n]
  {
    n :| 0 <= n < |up| && up[n] == x;
    forall y | y in up && y < x ensures y in up[..n] {
      var i :| 0 <= i < |up| && up[i] == y;
      assert up[..n][i] == y;
    }
  }

  /** The least of the others is before the team. */
  lemma LeastOfOthers(tb: Table, team: int) returns (least: int)
    requires BehindAnother(tb, team)
    ensures var rest := Ascending(tb.current - {team}); rest != [] && rest[0] == least
    ensures least in tb.current && least < team
  {
    var rest := Ascending(tb.current - {team});
    var x :| x in tb.current && x < team;
    assert x in rest;
    var i :| 0 <= i < |rest| && rest[i] == x;
    least := rest[0];
    assert least in rest && least <= x;
  }

  lemma OwnThenOthers(own: int, asc: seq<int>, m: nat)
    requires m <= |asc|
    ensures ([own] + asc)[..m + 1] == [own] + asc[..m] && |[own] + asc| == |asc| + 1
    ensures m < |asc| ==> ([own] + asc)[m + 1] == asc[m]
  {
  }

  /** Where a later team stands in a phase that locks the event: behind the first of the others. */
  lemma StandsBehind(t: Transaction, tb: Table, team: int) returns (n: nat)
    requires TakesAll(t, tb, team) && team in tb.current && BehindAnother(tb, team)
    ensures var up := LastPhase(t, tb); n < |up| && up[n] == team && team !in up[..n]
    ensures var rest := Ascending(tb.current - {team}); rest != [] && rest[0] in LastPhase(t, tb)[..n]
  {
    var least := LeastOfOthers(tb, team);
    if t.UpdateTeam? {
      var asc := Ascending(tb.current - {t.team});
      var m := IndexIn(asc, team);
      OwnThenOthers(t.team, asc, m);
      n := m + 1;
      assert least == t.team || least in asc;
    } else {
      n := IndexIn(Ascending(tb.current), team);
    }
  }

  lemma {:induction false} StandoffWithAll(ts: seq<Transaction>, tb: Table, k: nat, j: nat)
    returns (run: seq<Step>, qs: seq<Proc>)
    requires k < |ts| && ts[k].UpdateTeam? && ts[k].team in tb.teams && ts[k].team in tb.current
    requires BehindAnother(tb, ts[k].team) && j < |ts| && j != k && TakesAll(ts[j], tb, ts[k].team)
    ensures IsRun(Start(ts, tb), run, qs) && Stuck(qs)
  {
    var team, up := ts[k].team, LastPhase(ts[j], tb);
    FirstPhases(ts[k], tb);
    var n := StandsBehind(ts[j], tb, team);
    var begun, two := AboutToLock(ts, tb, k, j, team);
    var climb, three := TakesRows(Start(ts, tb), begun, two, j, up, n);
    LastLock(three, k, j, team, Ascending(tb.current - {team}), Rows(up[..n]), up[n..]);
    run, qs := Extended(Start(ts, tb), climb, three, Acquire(k));
  }

  // ---- Against pairings that come from below ---------------------------------------------------------------

  /** Each pairing of the chain holds its smaller row and wants the greater. */
  ghost predicate Holding(ts: seq<Transaction>, tb: Table, qs: seq<Proc>, js: seq<nat>, x: int, z: int) {
    if js == [] then x == z
    else
      var front, last := js[..|js| - 1], js[|js| - 1];
      exists y :: Holding(ts, tb, qs, front, x, y) && last < |ts| && last < |qs|
                  && Links(ts[last], tb, y, z) && qs[last] == Proc({y}, [z], [])
  }

  /** A pairing of the chain, its two rows between the ends. */
  ghost predicate LinkBetween(ts: seq<Transaction>, tb: Table, j: nat, x: int, z: int) {
    j < |ts| && exists lo, hi :: x <= lo && hi <= z && Links(ts[j], tb, lo, hi)
  }

  lemma {:induction false} ChainMembers(ts: seq<Transaction>, tb: Table, js: seq<nat>, x: int, z: int)
    requires Chain(ts, tb, js, x, z)
    ensures x <= z && forall j | j in js :: LinkBetween(ts, tb, j, x, z)
  {
    if js != [] {
      var front, last := js[..|js| - 1], js[|js| - 1];
      var y :| Chain(ts, tb, front, x, y) && last < |ts| && Links(ts[last], tb, y, z);
      ChainMembers(ts, tb, front, x, y);
      forall j | j in js ensures LinkBetween(ts, tb, j, x, z) {
        if j != last {
          assert j in front;
          var lo, hi :| x <= lo && hi <= y && Links(ts[j], tb, lo, hi);
          assert hi <= z;
        }
      }
    }
  }

  lemma {:induction false} HoldingStays(ts: seq<Transaction>, tb: Table, qs: seq<Proc>, more: seq<Proc>,
                                        js: seq<nat>, x: int, z: int)
    requires Holding(ts, tb, qs, js, x, z) && |more| == |qs| && forall j | j in js && j < |qs| :: more[j] == qs[j]
    ensures Holding(ts, tb, more, js, x, z)
  {
    if js != [] {
      var front, last := js[..|js| - 1], js[|js| - 1];
      var y :| Holding(ts, tb, qs, front, x, y) && last < |ts| && last < |qs|
               && Links(ts[last], tb, y, z) && qs[last] == Proc({y}, [z], []);
      HoldingStays(ts, tb, qs, more, front, x, y);
      assert last in js;
    }
  }

  /** It wants the end of the chain, or a row another pairing of the chain holds. */
  ghost predicate WaitsInChain(qs: seq<Proc>, js: seq<nat>, j: nat, z: int) {
    && j < |qs| && |qs[j].todo| == 1
    && (qs[j].todo[0] == z || exists m :: m in js && m < |qs| && m != j && qs[j].todo[0] in qs[m].held)
  }

  lemma {:induction false} HoldingMembers(ts: seq<Transaction>, tb: Table, qs: seq<Proc>, js: seq<nat>, x: int, z: int)
    requires Holding(ts, tb, qs, js, x, z)
    ensures forall j | j in js :: WaitsInChain(qs, js, j, z)
    ensures js != [] ==> exists m :: m in js && m < |qs| && x in qs[m].held
  {
    if js != [] {
      var front, last := js[..|js| - 1], js[|js| - 1];
      var y :| Holding(ts, tb, qs, front, x, y) && last < |ts| && last < |qs|
               && Links(ts[last], tb, y, z) && qs[last] == Proc({y}, [z], []);
      HoldingMembers(ts, tb, qs, front, x, y);
      assert last in js && forall m | m in front :: m in js;
      forall j | j in js ensures WaitsInChain(qs, js, j, z) {
        if j != last {
          assert j in front && WaitsInChain(qs, front, j, y);
          if qs[j].todo[0] == y { assert y in qs[last].held; }
        }
      }
    }
  }

  /** Nobody holds a row outside of these bounds. */
  ghost predicate HeldWithin(qs: seq<Proc>, lo: int, hi: int) {
    forall i, r | 0 <= i < |qs| && r in qs[i].held :: lo <= r < hi
  }

  lemma PairStarts(t: Transaction, tb: Table, y: int, z: int)
    requires Links(t, tb, y, z)
    ensures Starting(Script(t, tb)) == Proc({}, [y, z], [])
  {
    var up := Ascending({t.a, t.b} * tb.teams);
    PairRows(t, tb);
    assert y in up && z in up;
    assert up == [y, z];
  }

  lemma TakesSmaller(mid: seq<Proc>, j: nat, y: int, z: int)
    requires j < |mid| && mid[j] == Proc({}, [y, z], []) && forall i | 0 <= i < |mid| :: y !in mid[i].held
    ensures Enabled(mid, Acquire(j)) && Apply(mid, Acquire(j)) == mid[j := Proc({y}, [z], [])]
  {
    assert [y, z][1..] == [z] && {} + {y} == {y};
  }

  lemma EndsTooHigh(ts: seq<Transaction>, tb: Table, x: int, y: int, j: nat, z: int)
    requires j < |ts| && Links(ts[j], tb, y, z)
    ensures !LinkBetween(ts, tb, j, x, y)
  {
    assert z in {ts[j].a, ts[j].b};
  }

  /** A link that ends above a chain is not one of it. */
  lemma {:induction false} NotInChain(ts: seq<Transaction>, tb: Table, js: seq<nat>, x: int, y: int, j: nat, z: int)
    requires Chain(ts, tb, js, x, y) && j < |ts| && Links(ts[j], tb, y, z)
    ensures j !in js && x <= y
  {
    ChainMembers(ts, tb, js, x, y);
    EndsTooHigh(ts, tb, x, y, j, z);
  }

  lemma {:induction false} OneMoreHolding(ts: seq<Transaction>, tb: Table, before: seq<Proc>, js: seq<nat>,
                                        x: int, y: int, z: int)
    requires js != [] && Holding(ts, tb, before, js[..|js| - 1], x, y) && |before| == |ts| && HeldWithin(before, x, y) && x <= y
    requires var last := js[|js| - 1]; last !in js[..|js| - 1] && last < |ts| && Links(ts[last], tb, y, z)
    ensures var end := before[js[|js| - 1] := Proc({y}, [z], [])];
            Holding(ts, tb, end, js, x, z) && HeldWithin(end, x, z)
  {
    var front, last := js[..|js| - 1], js[|js| - 1];
    var end := before[last := Proc({y}, [z], [])];
    HoldingStays(ts, tb, before, end, front, x, y);
  }

  /** The last pairing of a chain locks its smaller row, which the others leave free. */
  lemma {:induction false} LockLast(ts: seq<Transaction>, tb: Table, run: seq<Step>, before: seq<Proc>, js: seq<nat>,
                                    x: int, y: int, z: int) returns (more: seq<Step>, end: seq<Proc>)
    requires IsRun(Start(ts, tb), run, before) && |before| == |ts|
    requires js != [] && Holding(ts, tb, before, js[..|js| - 1], x, y) && HeldWithin(before, x, y) && x <= y
    requires var last := js[|js| - 1];
             last !in js[..|js| - 1] && last < |ts| && Links(ts[last], tb, y, z) && before[last] == Start(ts, tb)[last]
    ensures IsRun(Start(ts, tb), more, end) && end == before[js[|js| - 1] := Proc({y}, [z], [])]
    ensures Holding(ts, tb, end, js, x, z) && HeldWithin(end, x, z)
  {
    var last := js[|js| - 1];
    PairStarts(ts[last], tb, y, z);
    TakesSmaller(before, last, y, z);
    OneMoreHolding(ts, tb, before, js, x, y, z);
    more, end := Extended(Start(ts, tb), run, before, Acquire(last));
  }

  ghost predicate Idle(ts: seq<Transaction>, tb: Table, mid: seq<Proc>, js: seq<nat>) {
    && |mid| == |ts| && (forall i | 0 <= i < |mid| :: mid[i].held == {})
    && (forall j | j in js && j < |mid| :: mid[j] == Start(ts, tb)[j])
  }

  /** The last pairing of a chain starts where the others end, and is none of them. */
  lemma {:induction false} LastLink(ts: seq<Transaction>, tb: Table, mid: seq<Proc>, js: seq<nat>, x: int,
                                    z: int) returns (y: int)
    requires js != [] && Chain(ts, tb, js, x, z) && Idle(ts, tb, mid, js)
    ensures var front, last := js[..|js| - 1], js[|js| - 1];
            && Chain(ts, tb, front, x, y) && last < |ts| && Links(ts[last], tb, y, z)
            && last !in front && x <= y && Idle(ts, tb, mid, front) && mid[last] == Start(ts, tb)[last]
  {
    var front, last := js[..|js| - 1], js[|js| - 1];
    y :| Chain(ts, tb, front, x, y) && last < |ts| && Links(ts[last], tb, y, z);
    NotInChain(ts, tb, front, x, y, last, z);
    assert last in js && forall j | j in front :: j in js;
  }

  lemma InFrontOrLast(js: seq<nat>, i: nat)
    requires js != [] && i !in js
    ensures i !in js[..|js| - 1] && i != js[|js| - 1]
  {
  }

  /** The pairings of a chain lock their smaller rows, one after the other. */
  lemma {:induction false} HoldChain(ts: seq<Transaction>, tb: Table, run: seq<Step>, mid: seq<Proc>,
                                     js: seq<nat>, x: int, z: int)
    returns (more: seq<Step>, end: seq<Proc>)
    requires Chain(ts, tb, js, x, z) && IsRun(Start(ts, tb), run, mid) && Idle(ts, tb, mid, js)
    ensures IsRun(Start(ts, tb), more, end) && |end| == |ts| && Holding(ts, tb, end, js, x, z)
    ensures HeldWithin(end, x, z) && forall i | 0 <= i < |end| && i !in js :: end[i] == mid[i]
    decreases |js|
  {
    if js == [] {
      more, end := run, mid;
    } else {
      var y := LastLink(ts, tb, mid, js, x, z);
      var part, before := HoldChain(ts, tb, run, mid, js[..|js| - 1], x, y);
      more, end := LockLast(ts, tb, part, before, js, x, y, z);
      forall i | 0 <= i < |end| && i !in js ensures end[i] == mid[i] { InFrontOrLast(js, i); }
    }
  }

  /** What is wanted from below is the end of a chain of pairings from a row of the current event. */
  lemma {:induction false} ChainTo(ts: seq<Transaction>, tb: Table, team: int) returns (js: seq<nat>, x: int)
    requires WantedFromBelow(ts, tb, team)
    ensures js != [] && x in tb.current && x < team && Chain(ts, tb, js, x, team)
    ensures forall j | j in js :: j < |ts| && ts[j].CreateVersusPair?
  {
    var j: nat, y :| j < |ts| && Fed(ts, tb, y) && Links(ts[j], tb, y, team);
    var front, from :| from in tb.current && Chain(ts, tb, front, from, y);
    js, x := front + [j], from;
    assert js[..|js| - 1] == front;
    ChainMembers(ts, tb, front, x, y);
    ChainMembers(ts, tb, js, x, team);
    forall i | i in js ensures i < |ts| && ts[i].CreateVersusPair? { assert LinkBetween(ts, tb, i, x, team); }
  }

  lemma {:induction false} ChainWaits(ts: seq<Transaction>, tb: Table, k: nat,
                                      js: seq<nat>) returns (run: seq<Step>, left: seq<Proc>)
    requires k < |ts|
    ensures IsRun(Start(ts, tb), run, left) && Idle(ts, tb, left, js) && left[k] == Start(ts, tb)[k]
    ensures forall i | 0 <= i < |left| && i != k && i !in js :: Finished(left[i])
  {
    var keep: set<nat> := {k} + set j | j in js;
    run, left := AllButThese(Start(ts, tb), keep);
    assert forall j | j in js :: j in keep;
  }

  /** Everybody but the update and the chain has finished, and the chain holds its smaller rows. */
  lemma {:induction false} ChainAlone(ts: seq<Transaction>, tb: Table, k: nat, js: seq<nat>, x: int, team: int)
    returns (run: seq<Step>, held: seq<Proc>)
    requires k < |ts| && k !in js && Chain(ts, tb, js, x, team)
    ensures IsRun(Start(ts, tb), run, held) && |held| == |ts| && held[k] == Start(ts, tb)[k] && held[k].held == {}
    ensures Holding(ts, tb, held, js, x, team) && HeldWithin(held, x, team)
    ensures forall i | 0 <= i < |held| && i != k && i !in js :: Finished(held[i])
  {
    var begun, left := ChainWaits(ts, tb, k, js);
    run, held := HoldChain(ts, tb, begun, left, js, x, team);
  }

  /** Up to the row the chain begins with, nobody holds what the update wants. */
  lemma FreeUpTo(tb: Table, held: seq<Proc>, k: nat, team: int, x: int) returns (n: nat)
    requires k < |held| && x in tb.current && x < team && HeldWithin(held, x, team)
    ensures var up := [team] + Ascending(tb.current - {team});
            0 < n < |up| && up[n] == x && forall i | 0 <= i < n :: Free(held, k, up[i])
  {
    var asc := Ascending(tb.current - {team});
    var m := IndexIn(asc, x);
    OwnThenOthers(team, asc, m);
    var up := [team] + asc;
    n := m + 1;
    forall i | 0 <= i < n ensures Free(held, k, up[i]) {
      if i > 0 { assert up[i] == asc[i - 1] < asc[m]; }
    }
  }

  /** The update holds its row and wants the first of the chain; the chain wants the row of the update. */
  lemma {:induction false} RingIsStuck(ts: seq<Transaction>, tb: Table, held: seq<Proc>, k: nat, js: seq<nat>,
                                       x: int, team: int, p: Proc)
    requires k < |held| && |held| == |ts| && k !in js && js != [] && Holding(ts, tb, held, js, x, team)
    requires forall i | 0 <= i < |held| && i != k && i !in js :: Finished(held[i])
    requires team in p.held && p.todo != [] && p.todo[0] == x
    ensures Stuck(held[k := p])
  {
    var qs := held[k := p];
    HoldingStays(ts, tb, held, qs, js, x, team);
    HoldingMembers(ts, tb, qs, js, x, team);
    var m :| m in js && m < |qs| && x in qs[m].held;
    assert Blocked(qs, k);
    forall i | 0 <= i < |qs| ensures Finished(qs[i]) || Blocked(qs, i) {
      if i in js {
        assert WaitsInChain(qs, js, i, team);
        if qs[i].todo[0] == team { assert team in qs[k].held; }
      }
    }
  }

  lemma {:induction false} StandoffFromBelow(ts: seq<Transaction>, tb: Table, k: nat) returns (run: seq<Step>, qs: seq<Proc>)
    requires k < |ts| && ts[k].UpdateTeam? && ts[k].team in tb.teams && WantedFromBelow(ts, tb, ts[k].team)
    ensures IsRun(Start(ts, tb), run, qs) && Stuck(qs)
  {
    var team, up := ts[k].team, LastPhase(ts[k], tb);
    FirstPhases(ts[k], tb);
    var js, x := ChainTo(ts, tb, team);
    var part, held := ChainAlone(ts, tb, k, js, x, team);
    var n := FreeUpTo(tb, held, k, team, x);
    run, qs := TakesRows(Start(ts, tb), part, held, k, up, n);
    assert up[..n][0] == team && up[n..][0] == x;
    RingIsStuck(ts, tb, held, k, js, x, team, Proc(Rows(up[..n]), up[n..], []));
  }

  // ---- Exactly when there is no deadlock -----------------------------------------------------------------

  lemma MayMeansDoes(ts: seq<Transaction>, tb: Table, k: nat) returns (run: seq<Step>, qs: seq<Proc>)
    requires k < |ts| && MayDeadlock(ts, tb, k)
    ensures IsRun(Start(ts, tb), run, qs) && Stuck(qs)
  {
    if WantedFromBelow(ts, tb, ts[k].team) {
      run, qs := StandoffFromBelow(ts, tb, k);
    } else {
      var j: nat :| j < |ts| && j != k && TakesAll(ts[j], tb, ts[k].team);
      run, qs := StandoffWithAll(ts, tb, k, j);
    }
  }

  /** Any transactions on any table: no interleaving of them gets stuck iff none of them may deadlock. */
  lemma DeadlockFreeIff(ts: seq<Transaction>, tb: Table)
    ensures DeadlockFree(ts, tb) <==> NoneMayDeadlock(ts, tb)
  {
    if NoneMayDeadlock(ts, tb) {
      NoneIsFree(ts, tb);
    } else {
      var k: nat :| k < |ts| && MayDeadlock(ts, tb, k);
      var run, qs := MayMeansDoes(ts, tb, k);
      StuckCannotMove(qs);
    }
  }

  /** Two of them of which one updates a team that is not the first, and the other wants it too. */
  ghost predicate Clash(ts: seq<Transaction>, tb: Table, k: nat, j: nat) {
    && k < |ts| && j < |ts| && j != k
    && ts[k].UpdateTeam? && ts[k].team in tb.teams && BehindAnother(tb, ts[k].team)
    && (TakesAll(ts[j], tb, ts[k].team) || exists y :: Links(ts[j], tb, y, ts[k].team))
  }

  lemma MayInOneEvent(ts: seq<Transaction>, tb: Table, k: nat)
    requires tb.current == tb.teams && k < |ts|
    ensures MayDeadlock(ts, tb, k) <==> exists j: nat :: Clash(ts, tb, k, j)
  {
    if MayDeadlock(ts, tb, k) {
      if WantedFromBelow(ts, tb, ts[k].team) {
        var j: nat, y :| j < |ts| && Fed(ts, tb, y) && Links(ts[j], tb, y, ts[k].team);
        assert Clash(ts, tb, k, j);
      } else {
        var j: nat :| j < |ts| && j != k && TakesAll(ts[j], tb, ts[k].team);
        assert Clash(ts, tb, k, j);
      }
    }
    if j: nat :| Clash(ts, tb, k, j) {
      if y :| Links(ts[j], tb, y, ts[k].team) { FedCurrent(ts, tb, y); }
    }
  }

  /**
   When all teams are of the current event: iff no two of them clash, one updating a team that is
   not the first and the other being a check-in, a reclassification, the update of another team, or
   a pairing of that team with a smaller one.
   */
  lemma DeadlockFreeInOneEvent(ts: seq<Transaction>, tb: Table)
    requires tb.current == tb.teams
    ensures DeadlockFree(ts, tb) <==> !exists k: nat, j: nat :: Clash(ts, tb, k, j)
  {
    DeadlockFreeIff(ts, tb);
    if k: nat, j: nat :| Clash(ts, tb, k, j) { MayInOneEvent(ts, tb, k); }
    if k: nat :| k < |ts| && MayDeadlock(ts, tb, k) { MayInOneEvent(ts, tb, k); }
  }
}
