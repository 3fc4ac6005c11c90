/**
 How far a transaction on team rows can have come, and what it then holds and wants.
 */
module LockPoints {
  import opened RowLocks
  import opened Sets
  import opened Sorting

  /** A pairing of these two existing teams: it locks the smaller and then wants the greater. */
  predicate Links(t: Transaction, tb: Table, y: int, z: int) {
    t.CreateVersusPair? && y < z && {t.a, t.b} == {y, z} && y in tb.teams && z in tb.teams
  }

  function Rows(s: seq<int>): set<int> { set x | x in s }

  lemma RowsSnoc(up: seq<int>, n: nat)
    requires n < |up|
    ensures Rows(up[..n + 1]) == Rows(up[..n]) + {up[n]}
    ensures up[n..][0] == up[n] && up[n..][1..] == up[n + 1..]
  {
    assert up[..n + 1] == up[..n] + [up[n]];
  }

  /** So many rows of a phase are locked and the rest are still to lock; later phases are untouched. */
  ghost predicate PointIn(script: seq<seq<int>>, p: Proc, k: nat, n: nat) {
    k < |script| && n <= |script[k]| && p == Proc(Rows(script[k][..n]), script[k][n..], script[k + 1..])
  }

  ghost predicate OnScript(script: seq<seq<int>>, p: Proc) {
    Finished(p) || exists k: nat, n: nat :: PointIn(script, p, k, n)
  }

  ghost predicate AllOnScript(ts: seq<Transaction>, tb: Table, ps: seq<Proc>) {
    |ps| == |ts| && forall i | 0 <= i < |ps| :: OnScript(Script(ts[i], tb), ps[i])
  }

  lemma StartsOnScript(script: seq<seq<int>>)
    ensures OnScript(script, Starting(script))
  {
    if script != [] {
      assert Rows(script[0][..0]) == {} && script[0][0..] == script[0];
      assert PointIn(script, Starting(script), 0, 0);
    }
  }

  lemma AcquiresOnScript(script: seq<seq<int>>, p: Proc)
    requires OnScript(script, p) && p.todo != []
    ensures OnScript(script, Proc(p.held + {p.todo[0]}, p.todo[1..], p.later))
  {
    var k: nat, n: nat :| PointIn(script, p, k, n);
    RowsSnoc(script[k], n);
    assert PointIn(script, Proc(p.held + {p.todo[0]}, p.todo[1..], p.later), k, n + 1);
  }

  lemma CommitsOnScript(script: seq<seq<int>>, p: Proc)
    requires OnScript(script, p) && !Finished(p)
    ensures OnScript(script, if p.later == [] then Proc({}, [], []) else Proc({}, p.later[0], p.later[1..]))
  {
    var k: nat, n: nat :| PointIn(script, p, k, n);
    if p.later != [] {
      assert Rows(script[k + 1][..0]) == {} && script[k + 1][0..] == script[k + 1];
      assert PointIn(script, Proc({}, p.later[0], p.later[1..]), k + 1, 0);
    }
  }

  lemma StepOnScript(ts: seq<Transaction>, tb: Table, ps: seq<Proc>, s: Step)
    requires AllOnScript(ts, tb, ps) && Exclusive(ps) && Enabled(ps, s)
    ensures AllOnScript(ts, tb, Apply(ps, s)) && Exclusive(Apply(ps, s))
  {
    match s
    case Acquire(i) => AcquiresOnScript(Script(ts[i], tb), ps[i]);
    case Commit(i) => CommitsOnScript(Script(ts[i], tb), ps[i]);
  }

  lemma {:induction false} RunOnScript(ts: seq<Transaction>, tb: Table, run: seq<Step>, qs: seq<Proc>)
    requires IsRun(Start(ts, tb), run, qs)
    ensures AllOnScript(ts, tb, qs) && Exclusive(qs)
    decreases |run|
  {
    if run == [] {
      forall i | 0 <= i < |qs| ensures OnScript(Script(ts[i], tb), qs[i]) { StartsOnScript(Script(ts[i], tb)); }
    } else {
      var mid :| IsRun(Start(ts, tb), run[..|run| - 1], mid) && Goes(mid, run[|run| - 1], qs);
      RunOnScript(ts, tb, run[..|run| - 1], mid);
      StepOnScript(ts, tb, mid, run[|run| - 1]);
    }
  }

  // ---- What it then holds and wants --------------------------------------------------------------------

  /** The next row of an ascending phase is above all that are locked. */
  lemma NextAbove(up: seq<int>, n: nat)
    requires StrictlyUp(up) && n < |up|
    ensures forall h | h in Rows(up[..n]) :: h < up[n]
  {
    forall h | h in Rows(up[..n]) ensures h < up[n] {
      var i :| 0 <= i < |up[..n]| && up[..n][i] == h;
    }
  }

  lemma PointOfOnly(up: seq<int>, p: Proc) returns (n: nat)
    requires OnScript([up], p) && p.held != {}
    ensures 0 < n <= |up| && p == Proc(Rows(up[..n]), up[n..], [])
  {
    var k: nat, m: nat :| PointIn([up], p, k, m);
    n := m;
  }

  lemma PairRows(t: Transaction, tb: Table)
    requires t.CreateVersusPair?
    ensures var up := Ascending({t.a, t.b} * tb.teams); |up| <= 2 && (|up| == 2 ==> Links(t, tb, up[0], up[1]))
  {
    var up := Ascending({t.a, t.b} * tb.teams);
    AtMostTwo(up, t.a, t.b);
    if |up| == 2 { assert up[0] in up && up[1] in up; }
  }

  /** A pairing under way holds the smaller team and wants the greater. */
  lemma PairPoint(t: Transaction, tb: Table, p: Proc) returns (y: int, z: int)
    requires t.CreateVersusPair? && OnScript(Script(t, tb), p) && p.held != {} && p.todo != []
    ensures p.held == {y} && p.todo == [z] && Links(t, tb, y, z)
  {
    var up := Ascending({t.a, t.b} * tb.teams);
    var n := PointOfOnly(up, p);
    PairRows(t, tb);
    y, z := up[0], up[1];
    assert up[..1] == [y] && up[1..] == [z];
  }

  lemma AtMostTwo(up: seq<int>, a: int, b: int)
    requires StrictlyUp(up) && forall x | x in up :: x == a || x == b
    ensures |up| <= 2
  {
    DistinctListSize(up);
    SubsetCardinality(Rows(up), {a, b});
  }

  /** A team update under way holds its own row, and of the current event a part below the row it wants. */
  lemma UpdatePoint(t: Transaction, tb: Table, p: Proc)
    requires t.UpdateTeam? && OnScript(Script(t, tb), p) && p.held != {}
    ensures t.team in p.held && t.team in tb.teams
    ensures p.todo != [] ==>
              && p.todo[0] in tb.current && p.todo[0] != t.team
              && forall h | h in p.held && h != t.team :: h in tb.current && h < p.todo[0]
  {
    var rest := Ascending(tb.current - {t.team});
    var n := PointOfOnly([t.team] + rest, p);
    OwnRowFirst(t.team, rest, n);
    if p.todo != [] {
      assert rest[n - 1] in rest;
      NextAbove(rest, n - 1);
      forall h | h in p.held && h != t.team ensures h in tb.current && h < p.todo[0] {
        assert h in Rows(rest[..n - 1]);
        var i :| 0 <= i < |rest[..n - 1]| && rest[..n - 1][i] == h;
        assert rest[i] in rest;
      }
    }
  }

  lemma OwnRowFirst(team: int, rest: seq<int>, n: nat)
    requires 0 < n <= |rest| + 1
    ensures Rows(([team] + rest)[..n]) == {team} + Rows(rest[..n - 1]) && ([team] + rest)[n..] == rest[n - 1..]
  {
    assert ([team] + rest)[..n] == [team] + rest[..n - 1];
  }

  /** A check-in or a reclassification that holds something and wants more is locking the current event. */
  lemma ReclassifyPoint(t: Transaction, tb: Table, p: Proc)
    requires (t.AddCheckpoint? || t.UpdateClassification?) && OnScript(Script(t, tb), p) && p.held != {} && p.todo != []
    ensures p.todo[0] in tb.current && forall h | h in p.held :: h in tb.current && h < p.todo[0]
  {
    var up := Ascending(tb.current);
    var k: nat, n: nat :| PointIn(Script(t, tb), p, k, n);
    assert Script(t, tb)[k] == up;
    NextAbove(up, n);
    assert up[n] in up;
    forall h | h in p.held ensures h in tb.current {
      var i :| 0 <= i < |up[..n]| && up[..n][i] == h;
      assert up[i] in up;
    }
  }
}
