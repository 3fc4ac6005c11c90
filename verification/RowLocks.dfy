/**
 Transactions that lock team rows. A transaction is a list of phases; each phase locks its rows one
 by one and ends in a commit that releases them all. Any number of them run interleaved.
 */
module RowLocks {
  import opened Lists
  import opened Sets
  import opened Sorting

  datatype Transaction =
    | AddCheckpoint(team: int)
    | UpdateClassification
    | CreateVersusPair(a: int, b: int)
    | UpdateTeam(team: int)

  /** All teams, and those of the current event or of none: only these are reclassified. */
  datatype Table = Table(teams: set<int>, current: set<int>)

  /** The phases of a transaction, on this table of teams; one that is refused before locking has none. */
  ghost function Script(t: Transaction, tb: Table): seq<seq<int>> {
    match t
    case AddCheckpoint(team) => if team in tb.teams then [[team], Ascending(tb.current)] else []
    case UpdateClassification => [Ascending(tb.current)]
    case CreateVersusPair(a, b) => if a == b then [] else [Ascending({a, b} * tb.teams)]
    case UpdateTeam(team) => if team in tb.teams then [[team] + Ascending(tb.current - {team})] else []
  }

  datatype Proc = Proc(held: set<int>, todo: seq<int>, later: seq<seq<int>>)

  datatype Step = Acquire(i: nat) | Commit(i: nat)

  predicate Finished(p: Proc) { p == Proc({}, [], []) }

  predicate Free(ps: seq<Proc>, i: nat, row: int) {
    forall j | 0 <= j < |ps| && j != i :: row !in ps[j].held
  }

  predicate Enabled(ps: seq<Proc>, s: Step) {
    && s.i < |ps|
    && match s
       case Acquire(i) => ps[i].todo != [] && Free(ps, i, ps[i].todo[0])
       case Commit(i) => ps[i].todo == [] && !Finished(ps[i])
  }

  function Apply(ps: seq<Proc>, s: Step): (after: seq<Proc>)
    requires Enabled(ps, s)
    ensures |after| == |ps|
  {
    var p := ps[s.i];
    match s
    case Acquire(i) => ps[i := Proc(p.held + {p.todo[0]}, p.todo[1..], p.later)]
    case Commit(i) => ps[i := if p.later == [] then Proc({}, [], []) else Proc({}, p.later[0], p.later[1..])]
  }

  function Starting(script: seq<seq<int>>): Proc {
    if script == [] then Proc({}, [], []) else Proc({}, script[0], script[1..])
  }

  ghost function Start(ts: seq<Transaction>, tb: Table): (ps: seq<Proc>)
    ensures |ps| == |ts| && forall i | 0 <= i < |ts| :: ps[i] == Starting(Script(ts[i], tb))
  {
    seq(|ts|, i requires 0 <= i < |ts| => Starting(Script(ts[i], tb)))
  }

  ghost predicate Goes(ps: seq<Proc>, s: Step, qs: seq<Proc>) { Enabled(ps, s) && Apply(ps, s) == qs }

  ghost predicate IsRun(ps: seq<Proc>, run: seq<Step>, qs: seq<Proc>) {
    if run == [] then ps == qs
    else
      var front, last := run[..|run| - 1], run[|run| - 1];
      exists mid :: IsRun(ps, front, mid) && Goes(mid, last, qs)
  }

  // ---- Locking upwards -----------------------------------------------------------------------

  /** The rows still to lock in this phase ascend, from above the ones held; so do later phases. */
  ghost predicate Climbs(p: Proc) {
    && StrictlyUp(p.todo)
    && (forall x, h | x in p.todo && h in p.held :: h < x)
    && (forall k | 0 <= k < |p.later| :: StrictlyUp(p.later[k]))
  }

  ghost predicate AllClimb(ps: seq<Proc>) { forall i | 0 <= i < |ps| :: Climbs(ps[i]) }

  ghost predicate Exclusive(ps: seq<Proc>) {
    forall i, j | 0 <= i < j < |ps| :: ps[i].held !! ps[j].held
  }

  lemma ClimbOn(p: Proc)
    requires Climbs(p) && p.todo != []
    ensures Climbs(Proc(p.held + {p.todo[0]}, p.todo[1..], p.later))
  {
    var rest := p.todo[1..];
    forall x, h | x in rest && h in p.held + {p.todo[0]} ensures h < x {
      var k :| 0 <= k < |rest| && rest[k] == x;
      assert p.todo[k + 1] in p.todo;
    }
  }

  lemma StepKeeps(ps: seq<Proc>, s: Step)
    requires AllClimb(ps) && Exclusive(ps) && Enabled(ps, s)
    ensures AllClimb(Apply(ps, s)) && Exclusive(Apply(ps, s))
  {
    assert Climbs(ps[s.i]);
    if s.Acquire? { ClimbOn(ps[s.i]); }
  }

  lemma {:induction false} RunKeeps(ps: seq<Proc>, run: seq<Step>, qs: seq<Proc>)
    requires AllClimb(ps) && Exclusive(ps) && IsRun(ps, run, qs)
    ensures AllClimb(qs) && Exclusive(qs) && |qs| == |ps|
    decreases |run|
  {
    if run != [] {
      var mid :| IsRun(ps, run[..|run| - 1], mid) && Goes(mid, run[|run| - 1], qs);
      RunKeeps(ps, run[..|run| - 1], mid);
      StepKeeps(mid, run[|run| - 1]);
    }
  }

  function HeldRows(ps: seq<Proc>): set<int> {
    if ps == [] then {} else HeldRows(ps[..|ps| - 1]) + ps[|ps| - 1].held
  }

  lemma {:induction false} HeldRowsMeaning(ps: seq<Proc>, row: int)
    ensures row in HeldRows(ps) <==> exists i :: 0 <= i < |ps| && row in ps[i].held
  {
    if ps != [] {
      var n := |ps| - 1;
      HeldRowsMeaning(ps[..n], row);
      if row in HeldRows(ps[..n]) {
        var i :| 0 <= i < |ps[..n]| && row in ps[..n][i].held;
        assert row in ps[i].held;
      }
      if i :| 0 <= i < |ps| && row in ps[i].held {
        if i < n { assert row in ps[..n][i].held; }
      }
    }
  }

  /**
   Whoever holds something waits upwards, or for one of these rows; and whoever holds one of these
   rows waits upwards for another one of them.
   */
  ghost predicate WaitsUp(p: Proc, rows: iset<int>) {
    p.held != {} && p.todo != [] ==>
      && (forall h | h in p.held && (h in rows || p.todo[0] !in rows) :: h < p.todo[0])
      && (forall h | h in p.held && h in rows :: p.todo[0] in rows)
  }

  /** The rows of these that are held. */
  function HeldOf(ps: seq<Proc>, rows: iset<int>): set<int> { set r | r in HeldRows(ps) && r in rows }

  /** Who holds the row, when somebody does. */
  lemma Holder(ps: seq<Proc>, row: int) returns (who: nat)
    requires row in HeldRows(ps)
    ensures who < |ps| && row in ps[who].held
  {
    HeldRowsMeaning(ps, row);
    who :| 0 <= who < |ps| && row in ps[who].held;
  }

  /** A transaction that wants nothing, or a row nobody holds, can go on. */
  lemma CanGoOn(ps: seq<Proc>, who: nat) returns (s: Step)
    requires who < |ps| && !Finished(ps[who]) && (ps[who].todo != [] ==> ps[who].todo[0] !in HeldRows(ps))
    ensures Enabled(ps, s)
  {
    if ps[who].todo == [] {
      s := Commit(who);
    } else {
      s := Acquire(who);
      HeldRowsMeaning(ps, ps[who].todo[0]);
    }
  }

  /**
   Somebody can move: the holder of the greatest locked one of these rows; or, if none is locked,
   whoever waits for one of them; or, if nobody does, the holder of the greatest locked row.
   */
  lemma NobodyStuck(ps: seq<Proc>, rows: iset<int>, i: nat) returns (s: Step)
    requires i < |ps| && !Finished(ps[i]) && forall j | 0 <= j < |ps| :: WaitsUp(ps[j], rows)
    ensures Enabled(ps, s)
  {
    var who: nat := i;
    if HeldOf(ps, rows) != {} {
      var top := GreatestIn(HeldOf(ps, rows));
      who := Holder(ps, top);
      assert WaitsUp(ps[who], rows);
    } else if j: nat :| j < |ps| && ps[j].todo != [] && ps[j].todo[0] in rows {
      who := j;
    } else if HeldRows(ps) != {} {
      var top := GreatestIn(HeldRows(ps));
      who := Holder(ps, top);
      assert WaitsUp(ps[who], rows);
    }
    if ps[who].todo != [] {
      var row := ps[who].todo[0];
      assert row in HeldRows(ps) && row in rows ==> row in HeldOf(ps, rows);
    }
    s := CanGoOn(ps, who);
  }

  /** Locking upwards is waiting upwards, with no exception. */
  lemma NoDeadlock(ps: seq<Proc>, i: nat) returns (s: Step)
    requires AllClimb(ps) && i < |ps| && !Finished(ps[i])
    ensures Enabled(ps, s)
  {
    forall j | 0 <= j < |ps| ensures WaitsUp(ps[j], iset{}) {
      assert Climbs(ps[j]);
      assert ps[j].todo != [] ==> ps[j].todo[0] in ps[j].todo;
    }
    s := NobodyStuck(ps, iset{}, i);
  }

  // ---- Running to the end ------------------------------------------------------------------------

  function Locks(phases: seq<seq<int>>): nat {
    if phases == [] then 0 else Locks(phases[1..]) + |phases[0]| + 1
  }

  function WorkOf(p: Proc): nat {
    if Finished(p) then 0 else |p.todo| + Locks(p.later) + 1
  }

  lemma {:induction false} StepWorks(ps: seq<Proc>, s: Step)
    requires Enabled(ps, s)
    ensures Work(Apply(ps, s), WorkOf) < Work(ps, WorkOf)
  {
    WorkUpdate(ps, s.i, Apply(ps, s)[s.i], WorkOf);
  }

  lemma {:induction false} Extend(ps: seq<Proc>, run: seq<Step>, mid: seq<Proc>, s: Step)
    requires IsRun(ps, run, mid) && Enabled(mid, s)
    ensures IsRun(ps, run + [s], Apply(mid, s))
  {
    assert (run + [s])[..|run|] == run;
    assert Goes(mid, s, Apply(mid, s));
  }

  /** The run with one more step, and where it ends. */
  lemma {:induction false} Extended(ps: seq<Proc>, run: seq<Step>, mid: seq<Proc>, s: Step)
    returns (more: seq<Step>, end: seq<Proc>)
    requires IsRun(ps, run, mid) && Enabled(mid, s)
    ensures IsRun(ps, more, end) && end == Apply(mid, s)
  {
    Extend(ps, run, mid, s);
    more, end := run + [s], Apply(mid, s);
  }

  /** However far a run has come, it can be carried on until every transaction has finished. */
  lemma {:induction false} CanFinish(ps: seq<Proc>, run: seq<Step>, qs: seq<Proc>)
    returns (more: seq<Step>, end: seq<Proc>)
    requires AllClimb(ps) && Exclusive(ps) && IsRun(ps, run, qs)
    ensures IsRun(ps, more, end) && run <= more && forall i | 0 <= i < |end| :: Finished(end[i])
    decreases Work(qs, WorkOf)
  {
    RunKeeps(ps, run, qs);
    if i :| 0 <= i < |qs| && !Finished(qs[i]) {
      var s := NoDeadlock(qs, i);
      StepWorks(qs, s);
      Extend(ps, run, qs, s);
      more, end := CanFinish(ps, run + [s], Apply(qs, s));
    } else {
      more, end := run, qs;
    }
  }

  /** And it stops by itself: a run is never longer than the work it starts with. */
  lemma {:induction false} RunIsBounded(ps: seq<Proc>, run: seq<Step>, qs: seq<Proc>)
    requires IsRun(ps, run, qs)
    ensures |run| + Work(qs, WorkOf) <= Work(ps, WorkOf)
    decreases |run|
  {
    if run != [] {
      var mid :| IsRun(ps, run[..|run| - 1], mid) && Goes(mid, run[|run| - 1], qs);
      RunIsBounded(ps, run[..|run| - 1], mid);
      StepWorks(mid, run[|run| - 1]);
    }
  }

  // ---- The repository's transactions -----------------------------------------------------------------

  /** A team update locks its row first and then those of the current event: in order only before all of them. */
  lemma UpdateTeamClimbsIff(team: int, tb: Table)
    requires team in tb.teams
    ensures Climbs(Starting(Script(UpdateTeam(team), tb))) <==> forall x | x in tb.current :: team <= x
  {
    var rest := Ascending(tb.current - {team});
    var todo := [team] + rest;
    if forall x | x in tb.current :: team <= x {
      forall i, j | 0 <= i < j < |todo| ensures todo[i] < todo[j] {
        if i == 0 {
          assert rest[j - 1] in rest;
        } else {
          assert todo[i] == rest[i - 1] && todo[j] == rest[j - 1];
        }
      }
    }
    if StrictlyUp(todo) {
      forall x | x in tb.current ensures team <= x {
        if x != team {
          assert x in rest;
          var k :| 0 <= k < |rest| && rest[k] == x;
          assert todo[0] < todo[k + 1];
        }
      }
    }
  }

  /** All but the update of a team that stands behind one of the current event. */
  ghost predicate InIdOrder(t: Transaction, tb: Table) {
    t.UpdateTeam? && t.team in tb.teams ==> forall x | x in tb.current :: t.team <= x
  }

  lemma ScriptsClimb(ts: seq<Transaction>, tb: Table)
    requires forall i | 0 <= i < |ts| :: InIdOrder(ts[i], tb)
    ensures AllClimb(Start(ts, tb)) && Exclusive(Start(ts, tb))
  {
    forall i | 0 <= i < |ts| ensures Climbs(Start(ts, tb)[i]) {
      assert InIdOrder(ts[i], tb);
      if ts[i].UpdateTeam? && ts[i].team in tb.teams { UpdateTeamClimbsIff(ts[i].team, tb); }
    }
  }

  /**
   Any number of check-ins, reclassifications, pairings and updates of the first team at once: at
   every point of every interleaving somebody can move while somebody is unfinished.
   */
  lemma NeverStuck(ts: seq<Transaction>, tb: Table, run: seq<Step>, qs: seq<Proc>, i: nat) returns (s: Step)
    requires forall k | 0 <= k < |ts| :: InIdOrder(ts[k], tb)
    requires IsRun(Start(ts, tb), run, qs) && i < |qs| && !Finished(qs[i])
    ensures Enabled(qs, s)
  {
    ScriptsClimb(ts, tb);
    RunKeeps(Start(ts, tb), run, qs);
    s := NoDeadlock(qs, i);
  }

  /** A transaction that is refused before it locks: a pair of one team with itself, or a team that does not exist. */
  predicate RefusedAtOnce(t: Transaction, tb: Table) {
    || (t.CreateVersusPair? && t.a == t.b)
    || ((t.AddCheckpoint? || t.UpdateTeam?) && t.team !in tb.teams)
  }

  ghost predicate InScript(script: seq<seq<int>>, row: int) { exists k :: 0 <= k < |script| && row in script[k] }

  lemma CheckInLocks(team: int, tb: Table, row: int)
    ensures InScript(Script(AddCheckpoint(team), tb), row) <==> team in tb.teams && (row == team || row in tb.current)
  {
    var script := Script(AddCheckpoint(team), tb);
    if team in tb.teams { assert (row in script[0] <==> row == team) && (row in script[1] <==> row in tb.current); }
  }

  lemma ReclassificationLocks(tb: Table, row: int)
    ensures InScript(Script(UpdateClassification, tb), row) <==> row in tb.current
  {
    assert row in Script(UpdateClassification, tb)[0] <==> row in tb.current;
  }

  lemma PairingLocks(a: int, b: int, tb: Table, row: int)
    ensures InScript(Script(CreateVersusPair(a, b), tb), row) <==> a != b && (row == a || row == b) && row in tb.teams
  {
    if a != b { assert row in Script(CreateVersusPair(a, b), tb)[0] <==> row in {a, b} * tb.teams; }
  }

  lemma UpdateLocks(team: int, tb: Table, row: int)
    ensures InScript(Script(UpdateTeam(team), tb), row) <==> team in tb.teams && (row == team || row in tb.current)
  {
    if team in tb.teams {
      assert row in Script(UpdateTeam(team), tb)[0] <==> row == team || row in Ascending(tb.current - {team});
    }
  }

  /** The rows it locks on the way: its own teams as far as they exist, and unless it pairs, those of the current event. */
  lemma LocksRow(t: Transaction, tb: Table, row: int)
    ensures InScript(Script(t, tb), row) <==>
            && !RefusedAtOnce(t, tb)
            && if t.CreateVersusPair? then (row == t.a || row == t.b) && row in tb.teams
               else row in tb.current || (!t.UpdateClassification? && row == t.team)
  {
    match t
    case AddCheckpoint(team) => CheckInLocks(team, tb, row);
    case UpdateClassification => ReclassificationLocks(tb, row);
    case CreateVersusPair(a, b) => PairingLocks(a, b, tb, row);
    case UpdateTeam(team) => UpdateLocks(team, tb, row);
  }
}
