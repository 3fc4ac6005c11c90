/**
 Racing calls of get_or_create: when each call is left with a row of its own event, and what they
 do to one another when not.
 */
module SettingsRaces {
  import opened SettingsBootstrap
  import opened Wrappers

  /** No call failed, and each that returned got the row that belongs to its event. */
  ghost predicate Proper(s: State) {
    && Sized(s)
    && forall i | 0 <= i < |s.phases| ::
         && !s.phases[i].Failed?
         && (s.phases[i].Got? ==> s.phases[i].row < |s.rows| && s.rows[s.phases[i].row] == Some(s.events[i]))
  }

  /** No legacy row to adopt, or no two events whose calls would. */
  ghost predicate NothingToContest(s: State) {
    || NoLegacy(s.rows)
    || forall i, j | 0 <= i < |s.events| && 0 <= j < |s.events| && !Has(s.rows, s.events[i]) && !Has(s.rows, s.events[j]) ::
         s.events[i] == s.events[j]
  }

  lemma {:induction false} RunKeepsInv(s: State, e: int, run: seq<Step>, t: State)
    requires Initial(s) && OnlyLacking(s, e) && IsRun(s, run, t)
    ensures Inv(t, e) && t.events == s.events
    decreases |run|
  {
    if run == [] {
      forall i | 0 <= i < |s.phases| ensures CallSound(s, e, i) {}
    } else {
      var mid :| IsRun(s, run[..|run| - 1], mid) && Goes(mid, run[|run| - 1], t);
      RunKeepsInv(s, e, run[..|run| - 1], mid);
      match run[|run| - 1]
      case Commit(i) => CommitKeeps(mid, e, i);
      case _ => OtherKeeps(mid, e, run[|run| - 1]);
    }
  }

  lemma {:induction false} RunKeepsFresh(s: State, run: seq<Step>, t: State)
    requires Initial(s) && NoLegacy(s.rows) && IsRun(s, run, t)
    ensures InvFresh(t) && t.events == s.events
    decreases |run|
  {
    if run != [] {
      var mid :| IsRun(s, run[..|run| - 1], mid) && Goes(mid, run[|run| - 1], t);
      RunKeepsFresh(s, run[..|run| - 1], mid);
      match run[|run| - 1]
      case Commit(i) => FreshCommitKeeps(mid, i);
      case _ => FreshOtherKeeps(mid, run[|run| - 1]);
    }
  }

  /** The one event whose calls find no row, if there is one. */
  lemma LackingEvent(s: State) returns (e: int)
    requires Sized(s) && NothingToContest(s) && !NoLegacy(s.rows)
    ensures OnlyLacking(s, e)
  {
    e := 0;
    if i :| 0 <= i < |s.events| && !Has(s.rows, s.events[i]) { e := s.events[i]; }
  }

  /**
   With nothing to contest, however the calls interleave, crash included, and whether they adopt,
   create or read: no call fails, and all that return for an event got the one row it has.
   */
  lemma {:induction false} CallersConverge(s: State, run: seq<Step>, t: State)
    requires Initial(s) && NothingToContest(s) && IsRun(s, run, t)
    ensures OneRowPerEvent(t.rows) && Proper(t) && t.events == s.events
    ensures forall i, j | 0 <= i < |t.phases| && 0 <= j < |t.phases| && t.phases[i].Got? && t.phases[j].Got?
                          && t.events[i] == t.events[j] :: t.phases[i].row == t.phases[j].row
  {
    if NoLegacy(s.rows) {
      RunKeepsFresh(s, run, t);
      assert forall i | 0 <= i < |t.phases| :: Fresh(t.rows, t.events[i], t.phases[i]);
    } else {
      var e := LackingEvent(s);
      RunKeepsInv(s, e, run, t);
      forall i | 0 <= i < |t.phases|
        ensures !t.phases[i].Failed?
        ensures t.phases[i].Got? ==> t.phases[i].row < |t.rows| && t.rows[t.phases[i].row] == Some(t.events[i])
      {
        assert CallSound(t, e, i);
      }
    }
  }

  /** While only one event lacks its row, no row changes the event it has, and at most one is added. */
  lemma {:induction false} RowsStay(s: State, e: int, run: seq<Step>, t: State)
    requires Initial(s) && OnlyLacking(s, e) && IsRun(s, run, t)
    ensures |s.rows| <= |t.rows| <= |s.rows| + 1
    ensures |t.rows| == |s.rows| + 1 ==> t.rows[|s.rows|] == Some(e)
    ensures forall k | 0 <= k < |s.rows| && s.rows[k].Some? :: t.rows[k] == s.rows[k]
    decreases |run|
  {
    if run != [] {
      var mid :| IsRun(s, run[..|run| - 1], mid) && Goes(mid, run[|run| - 1], t);
      RowsStay(s, e, run[..|run| - 1], mid);
      RunKeepsInv(s, e, run[..|run| - 1], mid);
      var a := run[|run| - 1];
      if a.Commit? {
        CommitHas(mid, e, a.i);
        assert CallSound(mid, e, a.i);
      }
    }
  }

  // ---- A legacy row two events want --------------------------------------------------------------------

  lemma {:induction false} Extend(s: State, run: seq<Step>, mid: State, a: Step)
    requires IsRun(s, run, mid) && Sized(mid) && Enabled(mid, a)
    ensures IsRun(s, run + [a], Apply(mid, a))
  {
    assert (run + [a])[..|run|] == run;
    assert Goes(mid, a, Apply(mid, a));
  }

  lemma PicksLegacy(s: State, run: seq<Step>, mid: State, i: nat, k: nat) returns (after: seq<Step>, t: State)
    requires IsRun(s, run, mid) && Sized(mid) && i < |mid.phases| && mid.phases[i].Waiting?
    requires !Has(mid.rows, mid.events[i]) && k < |mid.rows| && mid.rows[k] == None
    ensures IsRun(s, after, t) && t == mid.(phases := mid.phases[i := Adopting(k)])
  {
    Extend(s, run, mid, Look(i, None));
    var none := Apply(mid, Look(i, None));
    Extend(s, run + [Look(i, None)], none, LookLegacy(i, Some(k)));
    after, t := run + [Look(i, None)] + [LookLegacy(i, Some(k))], Apply(none, LookLegacy(i, Some(k)));
  }

  lemma Holds(s: State, run: seq<Step>, mid: State, i: nat, k: nat) returns (after: seq<Step>, t: State)
    requires IsRun(s, run, mid) && Sized(mid) && i < |mid.phases| && mid.phases[i] == Adopting(k) && k < |mid.rows|
    requires !Has(mid.rows, mid.events[i]) && forall j | 0 <= j < |mid.phases| :: !Pending(mid.phases[j])
    ensures IsRun(s, after, t) && t == mid.(phases := mid.phases[i := Updated(k)])
  {
    assert !Blocked(mid, i) && !Clashes(mid.rows, mid.events[i], Some(k));
    Extend(s, run, mid, Write(i));
    after, t := run + [Write(i)], Apply(mid, Write(i));
  }

  lemma Adopts(s: State, run: seq<Step>, mid: State, i: nat, k: nat) returns (after: seq<Step>, t: State)
    requires IsRun(s, run, mid) && Sized(mid) && i < |mid.phases| && mid.phases[i] == Adopting(k) && k < |mid.rows|
    requires !Has(mid.rows, mid.events[i]) && forall j | 0 <= j < |mid.phases| :: !Pending(mid.phases[j])
    ensures IsRun(s, after, t) && Sized(t)
    ensures t == mid.(rows := mid.rows[k := Some(mid.events[i])], phases := mid.phases[i := Got(k)])
  {
    var writing, held := Holds(s, run, mid, i, k);
    Extend(s, writing, held, Commit(i));
    after, t := writing + [Commit(i)], Apply(held, Commit(i));
  }

  /**
   Calls of two events without a row, and a legacy row: both can adopt it, one after the other, and
   the first is left holding a row that now belongs to the other event.
   */
  lemma LegacyRowTaken(s: State, i: nat, j: nat, k: nat) returns (run: seq<Step>, t: State)
    requires Initial(s) && i < |s.events| && j < |s.events| && s.events[i] != s.events[j]
    requires !Has(s.rows, s.events[i]) && !Has(s.rows, s.events[j]) && k < |s.rows| && s.rows[k] == None
    ensures IsRun(s, run, t) && t.events == s.events && i < |t.phases| && t.phases[i] == Got(k)
    ensures |t.rows| == |s.rows| && t.rows[k] == Some(s.events[j])
  {
    assert IsRun(s, [], s);
    var one, a := PicksLegacy(s, [], s, i, k);
    var two, b := PicksLegacy(s, one, a, j, k);
    var three, c := Adopts(s, two, b, i, k);
    run, t := Adopts(s, three, c, j, k);
  }

  ghost predicate AlwaysProper(s: State) {
    forall run, t :: IsRun(s, run, t) ==> Proper(t)
  }

  /** Racing calls leave each other their rows, whatever the interleaving, exactly if there is nothing to contest. */
  lemma OwnRowIff(s: State)
    requires Initial(s)
    ensures AlwaysProper(s) <==> NothingToContest(s)
  {
    if NothingToContest(s) {
      forall run, t | IsRun(s, run, t) ensures Proper(t) { CallersConverge(s, run, t); }
    } else {
      var k :| 0 <= k < |s.rows| && s.rows[k] == None;
      var i, j :| 0 <= i < |s.events| && 0 <= j < |s.events| && !Has(s.rows, s.events[i]) && !Has(s.rows, s.events[j])
                  && s.events[i] != s.events[j];
      var run, t := LegacyRowTaken(s, i, j, k);
      assert !Proper(t);
    }
  }
}
