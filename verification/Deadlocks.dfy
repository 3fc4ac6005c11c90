/**
 Exactly when transactions on team rows can block each other for good. All of them lock upwards by
 id, except the update of a team that stands behind one of the current event: it takes its own row
 first, and then wants smaller ones.
 */
module Deadlocks {
  import opened Lists
  import opened LockPoints
  import opened RowLocks
  import opened Sets
  import opened Sorting

  // ---- The condition -------------------------------------------------------------------------------

  /** Pairings that lead upwards from one row to another, each from the row the one before it wants. */
  ghost predicate Chain(ts: seq<Transaction>, tb: Table, js: seq<nat>, x: int, z: int) {
    if js == [] then x == z
    else
      var front, last := js[..|js| - 1], js[|js| - 1];
      exists y :: Chain(ts, tb, front, x, y) && last < |ts| && Links(ts[last], tb, y, z)
  }

  /** A row of the current event, or one that pairings lead to from such a row. */
  ghost predicate Fed(ts: seq<Transaction>, tb: Table, row: int) {
    exists js, x :: x in tb.current && Chain(ts, tb, js, x, row)
  }

  /** A pairing that may hold a fed row wants this one. */
  ghost predicate WantedFromBelow(ts: seq<Transaction>, tb: Table, team: int) {
    exists j: nat, y :: j < |ts| && Fed(ts, tb, y) && Links(ts[j], tb, y, team)
  }

  /** Locks all teams of the current event, at once, after a check-in or after a row that is not this one. */
  predicate TakesAll(t: Transaction, tb: Table, team: int) {
    || t.UpdateClassification?
    || (t.AddCheckpoint? && t.team in tb.teams)
    || (t.UpdateTeam? && t.team in tb.teams && t.team != team)
  }

  ghost predicate BehindAnother(tb: Table, team: int) { exists x :: x in tb.current && x < team }

  /**
   The k-th transaction can be part of a deadlock: it updates a team behind another one of the
   current event that somebody else wants too, either locking all of them or coming from below.
   */
  ghost predicate MayDeadlock(ts: seq<Transaction>, tb: Table, k: nat)
    requires k < |ts|
  {
    && ts[k].UpdateTeam? && ts[k].team in tb.teams
    && (|| (ts[k].team in tb.current && BehindAnother(tb, ts[k].team)
            && exists j: nat :: j < |ts| && j != k && TakesAll(ts[j], tb, ts[k].team))
        || WantedFromBelow(ts, tb, ts[k].team))
  }

  /** Somebody can move whenever somebody is unfinished, at every point of every run. */
  ghost predicate DeadlockFree(ts: seq<Transaction>, tb: Table) {
    forall run, qs | IsRun(Start(ts, tb), run, qs) :: CanMove(qs)
  }

  ghost predicate CanMove(qs: seq<Proc>) {
    (exists i :: 0 <= i < |qs| && !Finished(qs[i])) ==> exists s :: Enabled(qs, s)
  }

  lemma FedCurrent(ts: seq<Transaction>, tb: Table, x: int)
    requires x in tb.current
    ensures Fed(ts, tb, x)
  {
    assert Chain(ts, tb, [], x, x);
  }

  lemma {:induction false} FedNext(ts: seq<Transaction>, tb: Table, j: nat, y: int, z: int)
    requires Fed(ts, tb, y) && j < |ts| && Links(ts[j], tb, y, z)
    ensures Fed(ts, tb, z) && WantedFromBelow(ts, tb, z)
  {
    var js, x :| x in tb.current && Chain(ts, tb, js, x, y);
    assert (js + [j])[..|js|] == js;
    assert Chain(ts, tb, js + [j], x, z);
  }

  /** A fed row is one of the current event or is wanted from below. */
  lemma {:induction false} FedHow(ts: seq<Transaction>, tb: Table, z: int)
    requires Fed(ts, tb, z)
    ensures z in tb.current || WantedFromBelow(ts, tb, z)
  {
    var js, x :| x in tb.current && Chain(ts, tb, js, x, z);
    if js != [] {
      var front, last := js[..|js| - 1], js[|js| - 1];
      var y :| Chain(ts, tb, front, x, y) && last < |ts| && Links(ts[last], tb, y, z);
      assert Fed(ts, tb, y);
    }
  }

  // ---- Without such a transaction nobody is stuck ------------------------------------------------------

  ghost predicate NoneMayDeadlock(ts: seq<Transaction>, tb: Table) { forall k | 0 <= k < |ts| :: !MayDeadlock(ts, tb, k) }

  ghost function FedRows(ts: seq<Transaction>, tb: Table): iset<int> { iset r | Fed(ts, tb, r) }

  /** An update under way that took a later row of the current event and now wants smaller ones. */
  ghost predicate Descends(ts: seq<Transaction>, tb: Table, qs: seq<Proc>, w: nat)
    requires |qs| == |ts| && w < |ts|
  {
    ts[w].UpdateTeam? && qs[w].held != {} && ts[w].team in tb.current && BehindAnother(tb, ts[w].team)
  }

  lemma OneWaitsUp(ts: seq<Transaction>, tb: Table, qs: seq<Proc>, i: nat)
    requires NoneMayDeadlock(ts, tb) && AllOnScript(ts, tb, qs) && i < |qs| && !Descends(ts, tb, qs, i)
    ensures WaitsUp(qs[i], FedRows(ts, tb))
  {
    var t, p := ts[i], qs[i];
    assert OnScript(Script(t, tb), p);
    if p.held != {} && p.todo != [] {
      match t
      case CreateVersusPair(_, _) =>
        var y, z := PairPoint(t, tb, p);
        if Fed(ts, tb, y) { FedNext(ts, tb, i, y, z); }
      case UpdateTeam(team) =>
        UpdatePoint(t, tb, p);
        FedCurrent(ts, tb, p.todo[0]);
        if Fed(ts, tb, team) {
          FedHow(ts, tb, team);
          assert !MayDeadlock(ts, tb, i);
        }
      case _ =>
        ReclassifyPoint(t, tb, p);
        FedCurrent(ts, tb, p.todo[0]);
    }
  }

  /** Beside an update that descends only pairings hold rows. */
  lemma OnlyPairsBeside(ts: seq<Transaction>, tb: Table, qs: seq<Proc>, w: nat, j: nat)
    requires NoneMayDeadlock(ts, tb) && AllOnScript(ts, tb, qs) && Exclusive(qs)
    requires w < |qs| && Descends(ts, tb, qs, w) && j < |qs| && j != w && qs[j].held != {}
    ensures ts[j].CreateVersusPair?
  {
    assert OnScript(Script(ts[w], tb), qs[w]) && OnScript(Script(ts[j], tb), qs[j]);
    UpdatePoint(ts[w], tb, qs[w]);
    assert !MayDeadlock(ts, tb, w);
    assert !TakesAll(ts[j], tb, ts[w].team);
    HoldsNothingOf(qs, j, w);
    if ts[j].UpdateTeam? { UpdatePoint(ts[j], tb, qs[j]); }
  }

  /** Those of these rows that are held, but for the ones the update holds itself. */
  function HeldBeside(qs: seq<Proc>, own: set<int>, rows: iset<int>): set<int> { HeldOf(qs, rows) - own }

  lemma HoldsNothingOf(qs: seq<Proc>, j: nat, w: nat)
    requires Exclusive(qs) && j < |qs| && w < |qs| && j != w
    ensures qs[j].held !! qs[w].held
  {
    if j < w {} else {}
  }

  /** The pairing that holds the greatest fed row is not waiting for anybody, if the update waits for a pairing. */
  lemma TopPairMoves(ts: seq<Transaction>, tb: Table, qs: seq<Proc>, w: nat) returns (s: Step)
    requires NoneMayDeadlock(ts, tb) && AllOnScript(ts, tb, qs) && Exclusive(qs) && w < |qs| && Descends(ts, tb, qs, w)
    requires qs[w].todo != [] && qs[w].todo[0] in HeldBeside(qs, qs[w].held, FedRows(ts, tb))
    ensures Enabled(qs, s)
  {
    var rows := FedRows(ts, tb);
    var top := GreatestIn(HeldBeside(qs, qs[w].held, rows));
    var j := Holder(qs, top);
    OnlyPairsBeside(ts, tb, qs, w, j);
    assert OnScript(Script(ts[w], tb), qs[w]) && OnScript(Script(ts[j], tb), qs[j]);
    if qs[j].todo != [] {
      var y, z := PairPoint(ts[j], tb, qs[j]);
      FedNext(ts, tb, j, y, z);
      UpdatePoint(ts[w], tb, qs[w]);
      assert !MayDeadlock(ts, tb, w);
      assert z !in qs[w].held;
      assert z !in HeldBeside(qs, qs[w].held, rows);
    }
    s := CanGoOn(qs, j);
  }

  lemma DescendingMoves(ts: seq<Transaction>, tb: Table, qs: seq<Proc>, w: nat) returns (s: Step)
    requires NoneMayDeadlock(ts, tb) && AllOnScript(ts, tb, qs) && Exclusive(qs) && w < |qs| && Descends(ts, tb, qs, w)
    ensures Enabled(qs, s)
  {
    assert OnScript(Script(ts[w], tb), qs[w]);
    UpdatePoint(ts[w], tb, qs[w]);
    if qs[w].todo == [] || qs[w].todo[0] !in HeldRows(qs) {
      s := CanGoOn(qs, w);
    } else {
      var row := qs[w].todo[0];
      FedCurrent(ts, tb, row);
      assert row !in qs[w].held;
      s := TopPairMoves(ts, tb, qs, w);
    }
  }

  lemma NoneIsFree(ts: seq<Transaction>, tb: Table)
    requires NoneMayDeadlock(ts, tb)
    ensures DeadlockFree(ts, tb)
  {
    forall run, qs | IsRun(Start(ts, tb), run, qs) ensures CanMove(qs) {
      RunOnScript(ts, tb, run, qs);
      if i: nat :| i < |qs| && !Finished(qs[i]) {
        if w: nat :| w < |qs| && Descends(ts, tb, qs, w) {
          var s := DescendingMoves(ts, tb, qs, w);
        } else {
          forall j | 0 <= j < |qs| ensures WaitsUp(qs[j], FedRows(ts, tb)) { OneWaitsUp(ts, tb, qs, j); }
          var s := NobodyStuck(qs, FedRows(ts, tb), i);
        }
      }
    }
  }
}
