/**
 Racing calls of ensure_current: when they agree on one current event, and when they do not.
 */
module EventRaces {
  import opened EventBootstrap
  import opened EventRows
  import opened Wrappers

  lemma {:induction false} RunKeepsOneRow(s: State, run: seq<Step>, t: State)
    requires OneRow(s) && IsRun(s, run, t)
    ensures OneRow(t)
    decreases |run|
  {
    if run != [] {
      var mid :| IsRun(s, run[..|run| - 1], mid) && Goes(mid, run[|run| - 1], t);
      RunKeepsOneRow(s, run[..|run| - 1], mid);
      var a := run[|run| - 1];
      match a
      case Commit(i) => SoundCommit(mid, i);
      case Promote(i) => SoundPromote(mid, i);
      case _ => SoundRead(mid, a);
    }
  }

  /**
   Racing on an empty table, or on one with a single event: no second event is ever inserted, no
   call fails, and every call that returns names that one event, which is current.
   */
  lemma {:induction false} RacersAgree(s: State, run: seq<Step>, t: State, i: nat)
    requires Initial(s) && |s.events| <= 1 && IsRun(s, run, t) && i < |t.phases|
    ensures |t.events| <= 1 && !t.phases[i].Failed?
    ensures t.phases[i].Returned? ==> |t.events| == 1 && t.phases[i].event == 0 && t.events[0].current
  {
    assert OneRow(s);
    RunKeepsOneRow(s, run, t);
    assert Sound(t, t.phases[i]);
  }

  // ---- A current event already there ------------------------------------------------------------------

  ghost predicate Quiet(s: State, start: State) {
    && s.events == start.events
    && forall i | 0 <= i < |s.phases| ::
         s.phases[i].Waiting? || s.phases[i].Crashed?
         || (s.phases[i].Returned? && s.phases[i].event < |s.events| && s.events[s.phases[i].event].current)
  }

  /** With a current event on the table every call returns a current event and nothing is written. */
  lemma {:induction false} CurrentIsLeftAlone(s: State, run: seq<Step>, t: State)
    requires Initial(s) && SomeCurrent(s.events) && IsRun(s, run, t)
    ensures Quiet(t, s)
    decreases |run|
  {
    if run != [] {
      var mid :| IsRun(s, run[..|run| - 1], mid) && Goes(mid, run[|run| - 1], t);
      CurrentIsLeftAlone(s, run[..|run| - 1], mid);
    }
  }

  // ---- Several events, none of them current ---------------------------------------------------------------

  lemma {:induction false} Extend(s: State, run: seq<Step>, mid: State, a: Step)
    requires IsRun(s, run, mid) && Enabled(mid, a)
    ensures IsRun(s, run + [a], Apply(mid, a))
  {
    assert (run + [a])[..|run|] == run;
    assert Goes(mid, a, Apply(mid, a));
  }

  /** A call reads that nothing is current, and then picks event k to adopt. */
  lemma PicksEvent(s: State, run: seq<Step>, mid: State, i: nat, k: nat) returns (after: seq<Step>, t: State)
    requires IsRun(s, run, mid) && i < |mid.phases| && mid.phases[i].Waiting?
    requires !SomeCurrent(mid.events) && k < |mid.events|
    ensures IsRun(s, after, t) && t == mid.(phases := mid.phases[i := Adopting(k)])
  {
    Extend(s, run, mid, ReadCurrent(i, None));
    var none := Apply(mid, ReadCurrent(i, None));
    Extend(s, run + [ReadCurrent(i, None)], none, ReadAny(i, Some(k)));
    after, t := run + [ReadCurrent(i, None)] + [ReadAny(i, Some(k))], Apply(none, ReadAny(i, Some(k)));
  }

  /** Two racers may adopt different events, and then two events are current. */
  lemma TwoCurrents(s: State) returns (run: seq<Step>, t: State)
    requires Initial(s) && |s.phases| >= 2 && |s.events| >= 2 && !SomeCurrent(s.events)
    ensures IsRun(s, run, t) && !NoTwoCurrent(t.events)
  {
    assert IsRun(s, [], s);
    var one, a := PicksEvent(s, [], s, 0, 0);
    var two, b := PicksEvent(s, one, a, 1, 1);
    Extend(s, two, b, Promote(0));
    var c := Apply(b, Promote(0));
    Extend(s, two + [Promote(0)], c, Promote(1));
    run, t := two + [Promote(0)] + [Promote(1)], Apply(c, Promote(1));
    assert t.events[0].current && t.events[1].current;
  }

  ghost predicate KeepsOneCurrent(s: State) {
    forall run, t :: IsRun(s, run, t) ==> NoTwoCurrent(t.events)
  }

  /** When bootstrapping keeps the single-current promise: exactly if there is nothing to choose between. */
  lemma SingleCurrentIff(s: State)
    requires Initial(s) && |s.phases| >= 2 && NoTwoCurrent(s.events)
    ensures KeepsOneCurrent(s) <==> |s.events| <= 1 || SomeCurrent(s.events)
  {
    if |s.events| <= 1 || SomeCurrent(s.events) {
      forall run, t | IsRun(s, run, t) ensures NoTwoCurrent(t.events) {
        if |s.events| <= 1 {
          assert OneRow(s);
          RunKeepsOneRow(s, run, t);
        } else {
          CurrentIsLeftAlone(s, run, t);
        }
      }
    } else {
      var run, t := TwoCurrents(s);
    }
  }

  // ---- Progress -----------------------------------------------------------------------------------------

  /** A call that has to wait waits for one that can commit. */
  lemma SomeoneMoves(s: State, i: nat) returns (a: Step)
    requires OneRow(s) && i < |s.phases| && !Done(s.phases[i])
    ensures Enabled(s, a) && !a.Crash?
  {
    var found: Option<nat> := if s.events != [] && s.events[0].current then Some(0) else None;
    assert FirstCurrent(s.events, found);
    assert Sound(s, s.phases[i]);
    match s.phases[i]
    case Waiting => a := ReadCurrent(i, found);
    case NoCurrent => a := ReadAny(i, if s.events == [] then None else Some(0));
    case Adopting(_) => a := Promote(i);
    case Inserted => a := Commit(i);
    case Lost => a := Reread(i, found);
    case NoEvent =>
      if InsertPending(s, i) {
        var j :| 0 <= j < |s.phases| && j != i && s.phases[j].Inserted?;
        a := Commit(j);
      } else {
        a := Insert(i);
      }
  }

  // ---- What a call returns -------------------------------------------------------------------------------

  /** Calls return current events; stored events change in nothing but the flag, and what is added is the default. */
  ghost predicate Kept(s: State, t: State) {
    && |s.events| <= |t.events|
    && (forall k | 0 <= k < |s.events| ::
          && (t.events[k].slug, t.events[k].active, t.events[k].about) == (s.events[k].slug, s.events[k].active, s.events[k].about)
          && (s.events[k].current ==> t.events[k].current))
    && (forall k | |s.events| <= k < |t.events| :: t.events[k] == DEFAULT_EVENT)
    && (forall i | 0 <= i < |t.phases| && t.phases[i].Returned? ::
          t.phases[i].event < |t.events| && t.events[t.phases[i].event].current)
    && (forall i | 0 <= i < |t.phases| && t.phases[i].Adopting? :: t.phases[i].id < |t.events|)
  }

  lemma StepKeeps(s: State, mid: State, a: Step)
    requires Kept(s, mid) && Enabled(mid, a)
    ensures Kept(s, Apply(mid, a))
  {
  }

  /** Over every run from any table: each call that returns names a stored event, and it is current. */
  lemma {:induction false} ReturnedAreCurrent(s: State, run: seq<Step>, t: State)
    requires Initial(s) && IsRun(s, run, t)
    ensures Kept(s, t)
    decreases |run|
  {
    if run != [] {
      var mid :| IsRun(s, run[..|run| - 1], mid) && Goes(mid, run[|run| - 1], t);
      ReturnedAreCurrent(s, run[..|run| - 1], mid);
      StepKeeps(s, mid, run[|run| - 1]);
    }
  }
}
