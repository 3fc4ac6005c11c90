/**
 The first calls of ensure_current, as steps. A call reads the current event, then any event, then
 inserts a default one under a fixed slug; the slug's unique key makes a second insert wait for the
 first one's outcome. Steps of any number of calls interleave freely.
 */
module EventBootstrap {
  import opened EventRows
  import opened Wrappers

  datatype Phase =
    | Waiting
    | NoCurrent
    | Adopting(id: nat)
    | NoEvent
    | Inserted
    | Lost
    | Returned(event: nat)
    | Failed
    | Crashed

  /** An event's id is its index in the table. */
  datatype State = State(events: seq<Event>, phases: seq<Phase>)

  datatype Step =
    | ReadCurrent(i: nat, found: Option<nat>)
    | ReadAny(i: nat, found: Option<nat>)
    | Promote(i: nat)
    | Insert(i: nat)
    | Commit(i: nat)
    | Reread(i: nat, found: Option<nat>)
    | Crash(i: nat)

  /** first() of the current events, in no particular order. */
  predicate FirstCurrent(events: seq<Event>, found: Option<nat>) {
    match found
    case None => forall k | 0 <= k < |events| :: !events[k].current
    case Some(k) => k < |events| && events[k].current
  }

  /** LIMIT 1 without an order: any row. */
  predicate AnyEvent(events: seq<Event>, found: Option<nat>) {
    match found
    case None => events == []
    case Some(k) => k < |events|
  }

  predicate SlugTaken(events: seq<Event>) { exists k :: 0 <= k < |events| && events[k].slug == Some(DEFAULT_SLUG) }

  predicate InsertPending(s: State, i: nat) { exists j :: 0 <= j < |s.phases| && j != i && s.phases[j].Inserted? }

  predicate Done(p: Phase) { p.Returned? || p.Failed? || p.Crashed? }

  predicate Enabled(s: State, a: Step) {
    && a.i < |s.phases|
    && match a
       case ReadCurrent(i, found) => s.phases[i].Waiting? && FirstCurrent(s.events, found)
       case ReadAny(i, found) => s.phases[i].NoCurrent? && AnyEvent(s.events, found)
       case Promote(i) => s.phases[i].Adopting? && s.phases[i].id < |s.events|
       case Insert(i) => s.phases[i].NoEvent? && !InsertPending(s, i)
       case Commit(i) => s.phases[i].Inserted?
       case Reread(i, found) => s.phases[i].Lost? && FirstCurrent(s.events, found)
       case Crash(i) => !Done(s.phases[i])
  }

  function Apply(s: State, a: Step): (after: State)
    requires Enabled(s, a)
    ensures |after.phases| == |s.phases| && |after.events| >= |s.events|
  {
    match a
    case ReadCurrent(i, found) =>
      s.(phases := s.phases[i := if found.Some? then Returned(found.value) else NoCurrent])
    case ReadAny(i, found) =>
      s.(phases := s.phases[i := if found.Some? then Adopting(found.value) else NoEvent])
    case Promote(i) =>
      var id := s.phases[i].id;
      State(s.events[id := s.events[id].(current := true)], s.phases[i := Returned(id)])
    case Insert(i) => s.(phases := s.phases[i := if SlugTaken(s.events) then Lost else Inserted])
    case Commit(i) => State(s.events + [DEFAULT_EVENT], s.phases[i := Returned(|s.events|)])
    case Reread(i, found) => s.(phases := s.phases[i := if found.Some? then Returned(found.value) else Failed])
    case Crash(i) => s.(phases := s.phases[i := Crashed])
  }

  ghost predicate Goes(s: State, a: Step, t: State) { Enabled(s, a) && Apply(s, a) == t }

  ghost predicate IsRun(s: State, run: seq<Step>, t: State) {
    if run == [] then s == t
    else
      var front, last := run[..|run| - 1], run[|run| - 1];
      exists mid :: IsRun(s, front, mid) && Goes(mid, last, t)
  }

  ghost predicate Initial(s: State) { forall i | 0 <= i < |s.phases| :: s.phases[i].Waiting? }

  predicate SomeCurrent(events: seq<Event>) { exists k :: 0 <= k < |events| && events[k].current }

  predicate NoTwoCurrent(events: seq<Event>) {
    forall j, k | 0 <= j < k < |events| :: !(events[j].current && events[k].current)
  }

  // ---- At most one row to begin with ------------------------------------------------------------

  /** What one call can be doing when the table never holds more than one row. */
  ghost predicate Sound(s: State, p: Phase) {
    match p
    case Waiting => true
    case NoCurrent => true
    case Crashed => true
    case Failed => false
    case NoEvent => s.events == [] || (s.events[0].slug == Some(DEFAULT_SLUG) && s.events[0].current)
    case Inserted => s.events == []
    case Lost => s.events != [] && s.events[0].current
    case Adopting(id) => s.events != [] && id == 0
    case Returned(id) => s.events != [] && id == 0 && s.events[0].current
  }

  ghost predicate OneRow(s: State) {
    && |s.events| <= 1
    && (forall i | 0 <= i < |s.phases| :: Sound(s, s.phases[i]))
    && (forall i, j | 0 <= i < j < |s.phases| :: !(s.phases[i].Inserted? && s.phases[j].Inserted?))
  }

  lemma SoundCommit(s: State, i: nat)
    requires OneRow(s) && Enabled(s, Commit(i))
    ensures OneRow(Apply(s, Commit(i)))
  {
    var t := Apply(s, Commit(i));
    assert Sound(s, s.phases[i]);
    forall j | 0 <= j < |t.phases| ensures Sound(t, t.phases[j]) {
      if j != i {
        assert Sound(s, s.phases[j]);
        assert !s.phases[j].Inserted? by { if j < i {} else {} }
      }
    }
  }

  lemma SoundPromote(s: State, i: nat)
    requires OneRow(s) && Enabled(s, Promote(i))
    ensures OneRow(Apply(s, Promote(i)))
  {
    var t := Apply(s, Promote(i));
    assert Sound(s, s.phases[i]);
    forall j | 0 <= j < |t.phases| ensures Sound(t, t.phases[j]) {
      if j != i { assert Sound(s, s.phases[j]); }
    }
  }

  /** A step that leaves the table as it is. */
  lemma SoundRead(s: State, a: Step)
    requires OneRow(s) && Enabled(s, a) && !a.Commit? && !a.Promote?
    ensures OneRow(Apply(s, a))
  {
    var t := Apply(s, a);
    assert Sound(s, s.phases[a.i]);
    assert Sound(t, t.phases[a.i]);
    forall j | 0 <= j < |t.phases| ensures Sound(t, t.phases[j]) {
      if j != a.i { assert Sound(s, s.phases[j]) && t.phases[j] == s.phases[j]; }
    }
    OnePending(s, a);
  }

  lemma OnePending(s: State, a: Step)
    requires OneRow(s) && Enabled(s, a) && !a.Commit? && !a.Promote?
    ensures var t := Apply(s, a);
            forall i, j | 0 <= i < j < |t.phases| :: !(t.phases[i].Inserted? && t.phases[j].Inserted?)
  {
  }
}
