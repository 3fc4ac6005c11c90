/**
 The events table as its CRUD methods change it, one call at a time. At most one event is current
 after every call; "exactly one" is more than the calls keep.
 */
module RallyEvents {
  import opened EventRows
  import opened Numerals
  import opened Sets
  import opened Wrappers

  type Table = map<int, Event>

  ghost predicate AtMostOneCurrent(t: Table) {
    forall a, b | a in t && b in t && t[a].current && t[b].current :: a == b
  }

  predicate HasCurrent(t: Table) { exists a | a in t :: t[a].current }

  /** A missing slug equals no other. */
  ghost predicate SlugsUnique(t: Table) {
    forall a, b | a in t && b in t && t[a].slug.Some? && t[a].slug == t[b].slug :: a == b
  }

  function Slugs(t: Table): set<string> { set a | a in t && t[a].slug.Some? :: t[a].slug.value }

  function Demoted(t: Table): Table { map a | a in t :: t[a].(current := false) }

  function Promoted(t: Table, id: int): Table {
    var others := Demoted(t);
    if id in t then others[id := t[id].(current := true)] else others
  }

  // ---- Slugs ------------------------------------------------------------------------------------

  /** The n-th slug tried: the base, then base-2, base-3, ... */
  function Candidate(base: string, n: nat): string {
    if n <= 1 then base else base + "-" + Decimal(n)
  }

  lemma CandidatesDiffer(base: string, m: nat, n: nat)
    requires 1 <= m < n
    ensures Candidate(base, m) != Candidate(base, n)
  {
    var tail := "-" + Decimal(n);
    assert Candidate(base, n) == base + tail && |tail| >= 1;
    if m > 1 && Candidate(base, m) == Candidate(base, n) {
      var other := "-" + Decimal(m);
      assert Candidate(base, m) == base + other;
      assert (base + tail)[|base|..] == tail && (base + other)[|base|..] == other;
      assert tail[1..] == Decimal(n) && other[1..] == Decimal(m);
      ParsePrinted(m);
      ParsePrinted(n);
    }
  }

  /** The slug is free, and every earlier candidate was taken. */
  ghost predicate FirstFree(t: Table, base: string, slug: string) {
    && slug !in Slugs(t)
    && exists n: nat :: FirstFreeAt(t, base, slug, n)
  }

  ghost predicate FirstFreeAt(t: Table, base: string, slug: string, n: nat) {
    n >= 1 && slug == Candidate(base, n) && TakenBelow(t, base, n)
  }

  ghost predicate TakenBelow(t: Table, base: string, n: nat) {
    forall m: nat | 1 <= m < n :: Candidate(base, m) in Slugs(t)
  }

  /** A field of an edit: not sent, sent as null, or sent with a value. */
  datatype Field<T> = Unset | Null | Sent(value: T)

  datatype EventEdit = EventEdit(name: Field<string>, slug: Field<string>, description: Field<string>, kind: Field<string>,
                                 config: Field<string>, active: Field<bool>, current: Field<bool>,
                                 start: Field<int>, end: Field<int>)

  /** Into a column that takes no null. */
  function Put<T>(f: Field<T>, was: T): T { if f.Sent? then f.value else was }

  function PutOrNull<T>(f: Field<T>, was: Option<T>): Option<T> {
    match f
    case Unset => was
    case Null => None
    case Sent(value) => Some(value)
  }

  /** A configuration of null is stored as the JSON text for it, and so is no missing value. */
  function PutJson(f: Field<string>, was: string): string {
    match f
    case Unset => was
    case Null => "null"
    case Sent(value) => value
  }

  function Edited(e: Event, edit: EventEdit): Event {
    Event(PutOrNull(edit.slug, e.slug), Put(edit.active, e.active), Put(edit.current, e.current),
          About(Put(edit.name, e.about.name), PutOrNull(edit.description, e.about.description),
                Put(edit.kind, e.about.kind), PutJson(edit.config, e.about.config),
                PutOrNull(edit.start, e.about.start), PutOrNull(edit.end, e.about.end)))
  }

  /** The slug asked for, taken as it is, belongs to another event. */
  predicate SlugClashes(t: Table, id: int, edit: EventEdit) {
    edit.slug.Sent? && exists a | a in t :: a != id && t[a].slug == Some(edit.slug.value)
  }

  predicate NullsRefused(edit: EventEdit) { edit.name.Null? || edit.kind.Null? || edit.active.Null? || edit.current.Null? }

  /** The table after update: promoting an event that was not current demotes the others first. */
  function Updated(t: Table, id: int, edit: EventEdit): Table {
    if id !in t then t
    else
      var base := if edit.current == Sent(true) && !t[id].current then Demoted(t) else t;
      base[id := Edited(base[id], edit)]
  }

  class RallyEvents {
    var events: Table
    var nextId: int

    ghost predicate Valid() reads this {
      AtMostOneCurrent(events) && SlugsUnique(events) && forall a | a in events :: a < nextId
    }

    constructor ()
      ensures Valid() && events == map[]
    {
      events, nextId := map[], 1;
    }

    method UniqueSlug(base: string) returns (slug: string)
      ensures FirstFree(events, base, slug)
      ensures slug !in Slugs(events) && (slug == base || (base in Slugs(events) && exists n: nat :: n >= 2 && slug == base + "-" + Decimal(n)))
    {
      var used := Slugs(events);
      var n: nat := 1;
      slug := base;
      ghost var tried := {};
      while slug in used
        invariant 1 <= n == |tried| + 1 && slug == Candidate(base, n)
        invariant tried <= used && TakenBelow(events, base, n)
        invariant forall x | x in tried :: exists m: nat :: 1 <= m < n && x == Candidate(base, m)
        decreases |used| - |tried|
      {
        forall m: nat | 1 <= m < n ensures Candidate(base, m) != slug { CandidatesDiffer(base, m, n); }
        SubsetCardinality(tried + {slug}, used);
        tried := tried + {slug};
        n := n + 1;
        slug := base + "-" + Decimal(n);
      }
      assert FirstFreeAt(events, base, slug, n);
    }

    /** Clears the flag on each current event, one row at a time. */
    method DemoteAll()
      modifies this`events
      ensures events == Demoted(old(events))
    {
      var left := set a | a in events && events[a].current;
      while left != {}
        invariant left <= events.Keys == old(events).Keys
        invariant forall a | a in left :: events[a] == old(events)[a]
        invariant forall a | a in events && a !in left :: events[a] == old(events)[a].(current := false)
        decreases |left|
      {
        ghost var some := SomeMember(left);
        var a :| a in left;
        events := events[a := events[a].(current := false)];
        left := left - {a};
      }
      ghost var demoted := Demoted(old(events));
      assert events.Keys == demoted.Keys;
      assert forall a | a in events :: a !in left && events[a] == demoted[a];
    }

    method Create(base: string, about: About, active: bool, current: bool) returns (id: int)
      requires Valid()
      modifies this
      ensures Valid() && id !in old(events)
      ensures exists slug :: FirstFree(old(events), base, slug)
                && events == (if current then Demoted(old(events)) else old(events))[id := Event(Some(slug), active, current, about)]
    {
      var slug := UniqueSlug(base);
      if current { DemoteAll(); }
      assert forall a | a in events && events[a].slug.Some? :: events[a].slug.value in Slugs(old(events));
      id := nextId;
      events := events[id := Event(Some(slug), active, current, about)];
      nextId := nextId + 1;
    }

    /** The current event, if there is one. */
    method GetCurrent() returns (found: Option<int>)
      ensures found == None <==> !HasCurrent(events)
      ensures found.Some? ==> found.value in events && events[found.value].current
    {
      if a :| a in events && events[a].current { return Some(a); }
      return None;
    }

    /** Returns a current event, adopting any stored one or creating a default when there is none. */
    method EnsureCurrent() returns (id: int)
      requires Valid()
      modifies this
      ensures Valid() && id in events && events[id].current
      ensures HasCurrent(old(events)) ==> events == old(events)
      ensures !HasCurrent(old(events)) && old(events) != map[] ==>
                id in old(events) && events == old(events)[id := old(events)[id].(current := true)]
      ensures old(events) == map[] ==> events == map[id := DEFAULT_EVENT]
      ensures old(events) == map[] ==>
                events[id].slug == Some("rally-tascas") && events[id].active && events[id].about.name == "Rally Tascas"
    {
      var current := GetCurrent();
      if current.Some? { return current.value; }
      if events.Keys != {} {
        ghost var some := SomeMember(events.Keys);
        id :| id in events.Keys;
        events := events[id := events[id].(current := true)];
        return;
      }
      assert events == map[];
      id := nextId;
      events := events[id := DEFAULT_EVENT];
      nextId := nextId + 1;
    }

    method SetCurrent(id: int) returns (found: bool)
      requires Valid()
      modifies this`events
      ensures Valid() && (found <==> id in old(events))
      ensures events == if found then Promoted(old(events), id) else old(events)
    {
      if id !in events { return false; }
      DemoteAll();
      events := events[id := events[id].(current := true)];
      return true;
    }

    /** A clash of slugs or a null where none may be is found by the commit, which undoes the demotions too. */
    method Update(id: int, edit: EventEdit) returns (ok: bool)
      requires Valid() && id in events
      modifies this`events
      ensures Valid()
      ensures ok <==> && !(edit.name.Null? || edit.kind.Null? || edit.active.Null? || edit.current.Null?)
                      && (edit.slug.Sent? ==> forall a | a in old(events) && a != id :: old(events)[a].slug != Some(edit.slug.value))
      ensures events == if ok then Updated(old(events), id, edit) else old(events)
    {
      var stored := events;
      if edit.current == Sent(true) && !events[id].current { DemoteAll(); }
      events := events[id := Edited(events[id], edit)];
      if SlugClashes(stored, id, edit) || NullsRefused(edit) {
        events := stored;
        return false;
      }
      return true;
    }

    method Remove(id: int) returns (found: bool)
      requires Valid()
      modifies this`events
      ensures Valid() && (found <==> id in old(events)) && events == old(events) - {id}
    {
      found := id in events;
      events := events - {id};
    }
  }

  /** Nothing but the flag of an event differs. */
  ghost predicate SameButFlag(e: Event, f: Event) { e.slug == f.slug && e.active == f.active && e.about == f.about }

  /** Demoting clears every flag; promoting sets one and clears the others; and neither touches anything else. */
  lemma FlagsOnly(t: Table, id: int)
    ensures Demoted(t).Keys == t.Keys && forall a | a in t :: SameButFlag(Demoted(t)[a], t[a]) && !Demoted(t)[a].current
    ensures id in t ==> Promoted(t, id).Keys == t.Keys
                        && forall a | a in t :: SameButFlag(Promoted(t, id)[a], t[a]) && (Promoted(t, id)[a].current <==> a == id)
  {
  }

  /** The field as sent, and otherwise as it was; a null clears the fields that may be empty. */
  predicate Stored<T(==)>(f: Field<T>, was: T, now: T) { now == if f.Sent? then f.value else was }

  predicate StoredOrCleared<T(==)>(f: Field<T>, was: Option<T>, now: Option<T>) {
    (f.Sent? ==> now == Some(f.value)) && (f.Null? ==> now == None) && (f.Unset? ==> now == was)
  }

  /** What an update stores in the event, field by field, and what it leaves of the others. */
  lemma UpdateStores(t: Table, id: int, edit: EventEdit)
    requires id in t
    ensures var after, was := Updated(t, id, edit), t[id];
            && after.Keys == t.Keys
            && Stored(edit.name, was.about.name, after[id].about.name)
            && Stored(edit.kind, was.about.kind, after[id].about.kind)
            && Stored(edit.active, was.active, after[id].active)
            && Stored(edit.current, was.current, after[id].current)
            && StoredOrCleared(edit.slug, was.slug, after[id].slug)
            && StoredOrCleared(edit.description, was.about.description, after[id].about.description)
            && StoredOrCleared(edit.start, was.about.start, after[id].about.start)
            && StoredOrCleared(edit.end, was.about.end, after[id].about.end)
            && after[id].about.config == (if edit.config.Null? then "null" else if edit.config.Sent? then edit.config.value else was.about.config)
            && forall a | a in t && a != id ::
                 SameButFlag(after[a], t[a])
                 && after[a].current == (t[a].current && !(edit.current == Sent(true) && !was.current))
  {
  }

  /** An update takes the current event away exactly when it unflags the very event that was current. */
  lemma CurrentLostIff(t: Table, id: int, edit: EventEdit)
    requires AtMostOneCurrent(t) && HasCurrent(t) && id in t
    ensures !HasCurrent(Updated(t, id, edit)) <==> t[id].current && edit.current == Sent(false)
  {
    var after := Updated(t, id, edit);
    var a :| a in t && t[a].current;
    if a != id && edit.current != Sent(true) { assert after[a].current; }
    if a == id && edit.current != Sent(false) { assert after[id].current; }
    if a != id && edit.current == Sent(true) { assert after[id].current; }
    if a == id && edit.current == Sent(false) {
      forall b | b in after ensures !after[b].current { assert b != id ==> after[b] == t[b]; }
    }
  }

  /** A removal does so exactly when it removes the current event. */
  lemma RemovalLosesCurrentIff(t: Table, id: int)
    requires AtMostOneCurrent(t) && HasCurrent(t)
    ensures !HasCurrent(t - {id}) <==> id in t && t[id].current
  {
    var a :| a in t && t[a].current;
    if a != id { assert a in t - {id} && (t - {id})[a].current; }
  }
}
