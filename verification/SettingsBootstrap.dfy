/**
 The first calls of get_or_create for an event's settings row, racing. A call looks for the event's
 row, then for a legacy row without an event to adopt, then inserts one. The event column is unique,
 and an update locks its row; either makes another call wait for the outcome.
 */
module SettingsBootstrap {
  import opened Wrappers

  /** Rows by index: the event each belongs to, None for a legacy row. */
  type Table = seq<Option<int>>

  datatype Phase =
    | Waiting
    | Missing
    | Adopting(row: nat)
    | Creating
    | Updated(row: nat)
    | Inserted
    | Clashed
    | Got(row: nat)
    | Failed
    | Crashed

  /** events[i] is the event call i resolved before it looked for settings. */
  datatype State = State(rows: Table, events: seq<int>, phases: seq<Phase>)

  datatype Step =
    | Look(i: nat, found: Option<nat>)
    | LookLegacy(i: nat, found: Option<nat>)
    | Write(i: nat)
    | Commit(i: nat)
    | Reload(i: nat, found: Option<nat>)
    | Crash(i: nat)

  predicate RowFor(rows: Table, key: Option<int>, found: Option<nat>) {
    match found
    case None => forall k | 0 <= k < |rows| :: rows[k] != key
    case Some(k) => k < |rows| && rows[k] == key
  }

  predicate Pending(p: Phase) { p.Updated? || p.Inserted? }

  /** Another call has an uncommitted row for the same event, or has the row to adopt locked. */
  predicate Blocked(s: State, i: nat)
    requires i < |s.phases| == |s.events|
  {
    exists j :: 0 <= j < |s.phases| && j != i && Pending(s.phases[j])
      && (s.events[j] == s.events[i] || (s.phases[i].Adopting? && s.phases[j].Updated? && s.phases[j].row == s.phases[i].row))
  }

  /** A committed row other than the one to adopt already belongs to the event. */
  predicate Clashes(rows: Table, e: int, own: Option<nat>) {
    exists k :: 0 <= k < |rows| && rows[k] == Some(e) && own != Some(k)
  }

  predicate Done(p: Phase) { p.Got? || p.Failed? || p.Crashed? }

  predicate Sized(s: State) { |s.phases| == |s.events| }

  predicate Enabled(s: State, a: Step)
    requires Sized(s)
  {
    && a.i < |s.phases|
    && match a
       case Look(i, found) => s.phases[i].Waiting? && RowFor(s.rows, Some(s.events[i]), found)
       case LookLegacy(i, found) => s.phases[i].Missing? && RowFor(s.rows, None, found)
       case Write(i) => (s.phases[i].Adopting? || s.phases[i].Creating?) && !Blocked(s, i)
       case Commit(i) => s.phases[i].Inserted? || (s.phases[i].Updated? && s.phases[i].row < |s.rows|)
       case Reload(i, found) => s.phases[i].Clashed? && RowFor(s.rows, Some(s.events[i]), found)
       case Crash(i) => !Done(s.phases[i])
  }

  function Apply(s: State, a: Step): (after: State)
    requires Sized(s) && Enabled(s, a)
    ensures Sized(after) && after.events == s.events
  {
    match a
    case Look(i, found) => s.(phases := s.phases[i := if found.Some? then Got(found.value) else Missing])
    case LookLegacy(i, found) => s.(phases := s.phases[i := if found.Some? then Adopting(found.value) else Creating])
    case Write(i) =>
      var own := if s.phases[i].Adopting? then Some(s.phases[i].row) else None;
      s.(phases := s.phases[i := if Clashes(s.rows, s.events[i], own) then Clashed
                                 else if own.Some? then Updated(own.value) else Inserted])
    case Commit(i) =>
      if s.phases[i].Inserted?
      then s.(rows := s.rows + [Some(s.events[i])], phases := s.phases[i := Got(|s.rows|)])
      else s.(rows := s.rows[s.phases[i].row := Some(s.events[i])], phases := s.phases[i := Got(s.phases[i].row)])
    case Reload(i, found) => s.(phases := s.phases[i := if found.Some? then Got(found.value) else Failed])
    case Crash(i) => s.(phases := s.phases[i := Crashed])
  }

  ghost predicate Goes(s: State, a: Step, t: State) { Sized(s) && Enabled(s, a) && Apply(s, a) == t }

  ghost predicate IsRun(s: State, run: seq<Step>, t: State) {
    if run == [] then s == t
    else
      var front, last := run[..|run| - 1], run[|run| - 1];
      exists mid :: IsRun(s, front, mid) && Goes(mid, last, t)
  }

  ghost predicate OneRowPerEvent(rows: Table) {
    forall j, k | 0 <= j < k < |rows| && rows[j].Some? :: rows[j] != rows[k]
  }

  ghost predicate Initial(s: State) {
    Sized(s) && OneRowPerEvent(s.rows) && forall i | 0 <= i < |s.phases| :: s.phases[i].Waiting?
  }

  ghost predicate Has(rows: Table, e: int) { exists k :: 0 <= k < |rows| && rows[k] == Some(e) }

  // ---- Only one event without a row ----------------------------------------------------------------

  /** Each call is for e, or for an event that has its row. */
  ghost predicate OnlyLacking(s: State, e: int) {
    forall i | 0 <= i < |s.events| :: s.events[i] == e || Has(s.rows, s.events[i])
  }

  ghost predicate Sound(rows: Table, e: int, p: Phase) {
    match p
    case Waiting => true
    case Missing => true
    case Creating => true
    case Crashed => true
    case Failed => false
    case Adopting(r) => r < |rows| && (rows[r] == None || rows[r] == Some(e))
    case Updated(r) => r < |rows| && (rows[r] == None || rows[r] == Some(e)) && !Clashes(rows, e, Some(r))
    case Inserted => !Has(rows, e)
    case Clashed => Has(rows, e)
    case Got(r) => r < |rows| && rows[r] == Some(e)
  }

  /** A call for an event with a row finds it at once. */
  ghost predicate Served(rows: Table, f: int, p: Phase) {
    Has(rows, f) && (p.Waiting? || p.Crashed? || (p.Got? && p.row < |rows| && rows[p.row] == Some(f)))
  }

  ghost predicate CallSound(s: State, e: int, i: nat)
    requires i < |s.phases| == |s.events|
  {
    if s.events[i] == e then Sound(s.rows, e, s.phases[i]) else Served(s.rows, s.events[i], s.phases[i])
  }

  ghost predicate Inv(s: State, e: int) {
    && Sized(s) && OneRowPerEvent(s.rows)
    && (forall i | 0 <= i < |s.phases| :: CallSound(s, e, i))
    && (forall i, j | 0 <= i < j < |s.phases| :: !(Pending(s.phases[i]) && Pending(s.phases[j])))
  }

  lemma CommitHas(s: State, e: int, i: nat)
    requires Inv(s, e) && Enabled(s, Commit(i))
    ensures s.events[i] == e && Has(Apply(s, Commit(i)).rows, e)
    ensures forall k | 0 <= k < |s.rows| && s.rows[k].Some? :: Apply(s, Commit(i)).rows[k] == s.rows[k]
  {
    var t, p := Apply(s, Commit(i)), s.phases[i];
    assert CallSound(s, e, i);
    if p.Inserted? { assert t.rows[|s.rows|] == Some(e); } else { assert t.rows[p.row] == Some(e); }
  }

  lemma HasStays(rows: Table, after: Table, f: int)
    requires |rows| <= |after| && Has(rows, f)
    requires forall k | 0 <= k < |rows| && rows[k].Some? :: after[k] == rows[k]
    ensures Has(after, f)
  {
    var k :| 0 <= k < |rows| && rows[k] == Some(f);
    assert after[k] == Some(f);
  }

  lemma CommitKeeps(s: State, e: int, i: nat)
    requires Inv(s, e) && Enabled(s, Commit(i))
    ensures Inv(Apply(s, Commit(i)), e)
  {
    var t := Apply(s, Commit(i));
    CommitHas(s, e, i);
    OneRowKept(s, e, i);
    forall j | 0 <= j < |t.phases| ensures CallSound(t, e, j) {
      assert CallSound(s, e, j);
      if j != i {
        assert !Pending(s.phases[j]) by { if j < i {} else {} }
        if s.events[j] != e { HasStays(s.rows, t.rows, s.events[j]); }
      }
    }
  }

  lemma OneRowKept(s: State, e: int, i: nat)
    requires Inv(s, e) && Enabled(s, Commit(i))
    ensures OneRowPerEvent(Apply(s, Commit(i)).rows)
  {
    CommitHas(s, e, i);
    assert CallSound(s, e, i);
  }

  lemma OtherKeeps(s: State, e: int, a: Step)
    requires Inv(s, e) && Enabled(s, a) && !a.Commit?
    ensures Inv(Apply(s, a), e)
  {
    var t := Apply(s, a);
    assert CallSound(s, e, a.i);
    assert CallSound(t, e, a.i);
    forall j | 0 <= j < |t.phases| ensures CallSound(t, e, j) {
      if j != a.i { assert CallSound(s, e, j) && t.phases[j] == s.phases[j]; }
    }
    OnePending(s, e, a);
  }

  lemma OnePending(s: State, e: int, a: Step)
    requires Inv(s, e) && Enabled(s, a) && !a.Commit?
    ensures var t := Apply(s, a);
            forall i, j | 0 <= i < j < |t.phases| :: !(Pending(t.phases[i]) && Pending(t.phases[j]))
  {
    var t := Apply(s, a);
    forall i, j | 0 <= i < j < |t.phases| ensures !(Pending(t.phases[i]) && Pending(t.phases[j])) {
      assert CallSound(s, e, i) && CallSound(s, e, j);
      if a.i == i {
        assert t.phases[j] == s.phases[j];
      } else if a.i == j {
        assert t.phases[i] == s.phases[i];
      }
    }
  }

  // ---- No legacy row ---------------------------------------------------------------------------------

  ghost predicate NoLegacy(rows: Table) { forall k | 0 <= k < |rows| :: rows[k].Some? }

  /** With nothing to adopt a call creates its event's row or reads it. */
  ghost predicate Fresh(rows: Table, f: int, p: Phase) {
    !p.Adopting? && !p.Updated? && Sound(rows, f, p)
  }

  ghost predicate InvFresh(s: State) {
    && Sized(s) && OneRowPerEvent(s.rows) && NoLegacy(s.rows)
    && (forall i | 0 <= i < |s.phases| :: Fresh(s.rows, s.events[i], s.phases[i]))
    && (forall i, j | 0 <= i < j < |s.phases| && Pending(s.phases[i]) && Pending(s.phases[j]) :: s.events[i] != s.events[j])
  }

  lemma FreshCommitKeeps(s: State, i: nat)
    requires InvFresh(s) && Enabled(s, Commit(i))
    ensures InvFresh(Apply(s, Commit(i)))
  {
    var t := Apply(s, Commit(i));
    assert Fresh(s.rows, s.events[i], s.phases[i]);
    assert t.rows == s.rows + [Some(s.events[i])];
    assert t.rows[|s.rows|] == Some(s.events[i]);
    forall j | 0 <= j < |t.phases| ensures Fresh(t.rows, t.events[j], t.phases[j]) {
      if j != i {
        assert Fresh(s.rows, s.events[j], s.phases[j]);
        if s.phases[j].Clashed? { HasStays(s.rows, t.rows, s.events[j]); }
        assert s.phases[j].Inserted? ==> s.events[j] != s.events[i] by { if j < i {} else {} }
      }
    }
  }

  lemma FreshOtherKeeps(s: State, a: Step)
    requires InvFresh(s) && Enabled(s, a) && !a.Commit?
    ensures InvFresh(Apply(s, a))
  {
    var t := Apply(s, a);
    assert Fresh(s.rows, s.events[a.i], s.phases[a.i]);
    assert Fresh(t.rows, t.events[a.i], t.phases[a.i]);
    forall j | 0 <= j < |t.phases| ensures Fresh(t.rows, t.events[j], t.phases[j]) {
      if j != a.i { assert Fresh(s.rows, s.events[j], s.phases[j]) && t.phases[j] == s.phases[j]; }
    }
    FreshPending(s, a);
  }

  lemma FreshPending(s: State, a: Step)
    requires InvFresh(s) && Enabled(s, a) && !a.Commit?
    ensures var t := Apply(s, a);
            forall i, j | 0 <= i < j < |t.phases| && Pending(t.phases[i]) && Pending(t.phases[j]) :: t.events[i] != t.events[j]
  {
    var t := Apply(s, a);
    forall i, j | 0 <= i < j < |t.phases| && Pending(t.phases[i]) && Pending(t.phases[j]) ensures t.events[i] != t.events[j] {
      if a.i == i {
        assert t.phases[j] == s.phases[j];
      } else if a.i == j {
        assert t.phases[i] == s.phases[i];
      }
    }
  }
}
