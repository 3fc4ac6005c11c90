/**
 The bulk reorder of the route, on the posts of all editions at once: numbers are unique within an
 edition, and posts of none are not held to that. Both of its passes can be refused by the
 constraint, and the first is committed before the second begins.
 */
module Reordering {
  import opened Resequence
  import opened Sets
  import opened Sorting
  import opened Wrappers

  /** The constraint is on (event, order), and a missing event equals nothing. */
  predicate Rivals(events: map<int, Option<int>>, a: int, b: int) {
    a != b && a in events && b in events && events[a].Some? && events[a] == events[b]
  }

  ghost predicate UniqueIn(events: map<int, Option<int>>, order: map<int, int>) {
    forall a, b | a in order && b in order && Rivals(events, a, b) :: order[a] != order[b]
  }

  // ---- Bulk reorder ------------------------------------------------------------------------

  ghost function Applied(order: map<int, int>, targets: map<int, int>): map<int, int> {
    map id | id in order :: if id in targets then targets[id] else order[id]
  }

  ghost function Parked(order: map<int, int>, targets: map<int, int>): map<int, int> {
    map id | id in order :: if id in targets then -id else order[id]
  }

  lemma ListedIff(ids: seq<int>, keys: set<int>, id: int)
    requires ListsAll(ids, keys)
    ensures id in ids <==> id in keys
  {
    if id in ids {
      var i :| 0 <= i < |ids| && ids[i] == id;
    }
  }

  lemma {:induction false} ParkedIsWritten(order: map<int, int>, ids: seq<int>, targets: map<int, int>)
    requires ListsAll(ids, targets.Keys)
    ensures Parked(order, targets) == Written(order, ids, Negated(order.Keys))
  {
    var parked := Parked(order, targets);
    var written := Written(order, ids, Negated(order.Keys));
    WrittenMeaning(order, ids, Negated(order.Keys));
    forall id | id in order ensures id in written && written[id] == parked[id] { ListedIff(ids, targets.Keys, id); }
  }

  lemma {:induction false} AppliedIsWritten(order: map<int, int>, ids: seq<int>, targets: map<int, int>)
    requires ListsAll(ids, targets.Keys)
    ensures Applied(order, targets) == Written(Parked(order, targets), ids, Applied(order, targets))
  {
    var parked, goal := Parked(order, targets), Applied(order, targets);
    var written := Written(parked, ids, goal);
    WrittenMeaning(parked, ids, goal);
    forall id | id in order ensures id in written && written[id] == goal[id] { ListedIff(ids, targets.Keys, id); }
  }

  lemma ParkedUnique(order: map<int, int>, targets: map<int, int>)
    requires Unique(order) && ClearOfNegatedIds(order)
    ensures Unique(Parked(order, targets)) && ClearOfNegatedIds(Parked(order, targets))
  {
  }

  /** No rival still to be parked, or not listed, holds the negated id of the i-th listed one. */
  ghost predicate FreeToPark(events: map<int, Option<int>>, order: map<int, int>, ids: seq<int>, i: nat)
    requires i < |ids|
  {
    ids[i] in order ==> forall x | x in order && Rivals(events, x, ids[i]) && x !in ids[..i] :: order[x] != -ids[i]
  }

  ghost predicate ParkableUpTo(events: map<int, Option<int>>, order: map<int, int>, ids: seq<int>, n: nat)
    requires n <= |ids|
  {
    n == 0 || (ParkableUpTo(events, order, ids, n - 1) && FreeToPark(events, order, ids, n - 1))
  }

  ghost predicate Parkable(events: map<int, Option<int>>, order: map<int, int>, ids: seq<int>) {
    ParkableUpTo(events, order, ids, |ids|)
  }

  lemma {:induction false} ParkableIff(events: map<int, Option<int>>, order: map<int, int>, ids: seq<int>, n: nat)
    requires n <= |ids|
    ensures ParkableUpTo(events, order, ids, n) <==> forall i | 0 <= i < n :: FreeToPark(events, order, ids, i)
  {
    if n > 0 { ParkableIff(events, order, ids, n - 1); }
  }

  /** A row is given the number on which a rival that comes later is parked. */
  ghost predicate StepsOnParked(events: map<int, Option<int>>, order: map<int, int>, ids: seq<int>, targets: map<int, int>) {
    exists i, j :: 0 <= i < j < |ids| && ids[i] in order && ids[j] in order && Rivals(events, ids[i], ids[j])
      && ids[i] in targets && targets[ids[i]] == -ids[j]
  }

  /** With positive numbers throughout only a duplicate can refuse a reorder, and its room to park stays free. */
  lemma PositiveReorder(events: map<int, Option<int>>, order: map<int, int>, ids: seq<int>, targets: map<int, int>)
    requires (forall x | x in order :: x > 0) && (forall x | x in targets :: targets[x] > 0)
    requires ClearOfNegatedIds(order)
    ensures Parkable(events, order, ids) && !StepsOnParked(events, order, ids, targets)
    ensures ClearOfNegatedIds(Applied(order, targets)) && ClearOfNegatedIds(Parked(order, targets))
  {
    ParkableIff(events, order, ids, |ids|);
    forall i, j | 0 <= i < j < |ids| && ids[i] in order && ids[j] in order && ids[i] in targets
      ensures targets[ids[i]] != -ids[j]
    {
      var a, b := ids[i], ids[j];
      assert a in targets && b in order;
    }
  }

  lemma IndexFrom(ids: seq<int>, i: nat, x: int) returns (j: nat)
    requires i <= |ids| && x in ids && x !in ids[..i]
    ensures i <= j < |ids| && ids[j] == x
  {
    assert ids == ids[..i] + ids[i..];
    var k :| 0 <= k < |ids[i..]| && ids[i..][k] == x;
    j := i + k;
  }

  predicate Holds(order: map<int, int>, id: int, value: int) { id in order && order[id] == value }

  /** A rival holds the value; the constraint refuses it to this row. */
  ghost predicate Taken(events: map<int, Option<int>>, order: map<int, int>, id: int, value: int) {
    exists x | x in order && Rivals(events, x, id) :: Holds(order, x, value)
  }

  /** The rows written so far are parked; the next one can be iff its negated id is not taken. */
  lemma {:induction false} ParkingIff(events: map<int, Option<int>>, before: map<int, int>, now: map<int, int>,
                                      ids: seq<int>, i: nat)
    requires i < |ids| && ids[i] in before && ParkableUpTo(events, before, ids, i)
    requires now == Written(before, ids[..i], Negated(before.Keys))
    ensures ParkableUpTo(events, before, ids, i + 1) <==> !Taken(events, now, ids[i], -ids[i])
    ensures Taken(events, now, ids[i], -ids[i]) ==> !Parkable(events, before, ids)
  {
    WrittenMeaning(before, ids[..i], Negated(before.Keys));
    forall x | x in before && x != ids[i] ensures Holds(now, x, -ids[i]) <==> x !in ids[..i] && before[x] == -ids[i] {}
    ParkableIff(events, before, ids, |ids|);
  }

  /** Where the second pass is refused the number is asked for twice, or a later row is parked on it. */
  lemma {:induction false} PlaceCollides(events: map<int, Option<int>>, order: map<int, int>, ids: seq<int>,
                                         targets: map<int, int>, i: nat)
    requires UniqueIn(events, order) && ListsAll(ids, targets.Keys) && i < |ids| && ids[i] in order
    requires var now := Written(Parked(order, targets), ids[..i], Applied(order, targets));
             Taken(events, now, ids[i], targets[ids[i]])
    ensures !UniqueIn(events, Applied(order, targets)) || StepsOnParked(events, order, ids, targets)
  {
    var goal := Applied(order, targets);
    var now := Written(Parked(order, targets), ids[..i], goal);
    WrittenMeaning(Parked(order, targets), ids[..i], goal);
    var other :| other in now && Rivals(events, other, ids[i]) && Holds(now, other, targets[ids[i]]);
    if other in ids[..i] || other !in targets {
      assert goal[other] == goal[ids[i]];
    } else {
      ListedIff(ids, targets.Keys, other);
      var j := IndexFrom(ids, i, other);
    }
  }

  /** What the rows placed so far, each on a number that was free, tell about the whole numbering. */
  ghost predicate PlacedSoFar(events: map<int, Option<int>>, order: map<int, int>, ids: seq<int>,
                              targets: map<int, int>, n: nat)
    requires n <= |ids|
  {
    forall i, x | 0 <= i < n && ids[i] in order && ids[i] in targets && x in order && Rivals(events, x, ids[i]) ::
      targets[ids[i]] != if x in ids[..i] && x in targets then targets[x] else if x in targets then -x else order[x]
  }

  lemma {:induction false} PlacedOneMore(events: map<int, Option<int>>, order: map<int, int>, ids: seq<int>,
                                        targets: map<int, int>, i: nat)
    requires ListsAll(ids, targets.Keys) && i < |ids| && PlacedSoFar(events, order, ids, targets, i)
    requires var now := Written(Parked(order, targets), ids[..i], Applied(order, targets));
             ids[i] in order ==> !Taken(events, now, ids[i], targets[ids[i]])
    ensures PlacedSoFar(events, order, ids, targets, i + 1)
  {
    var now := Written(Parked(order, targets), ids[..i], Applied(order, targets));
    WrittenMeaning(Parked(order, targets), ids[..i], Applied(order, targets));
    if ids[i] in order {
      forall x | x in order && Rivals(events, x, ids[i])
        ensures targets[ids[i]] != if x in ids[..i] && x in targets then targets[x] else if x in targets then -x else order[x]
      {
        assert !Holds(now, x, targets[ids[i]]);
        if x in ids[..i] { assert x in ids; ListedIff(ids, targets.Keys, x); }
      }
    }
  }

  lemma {:induction false} PlacedAll(events: map<int, Option<int>>, order: map<int, int>, ids: seq<int>,
                                     targets: map<int, int>)
    requires UniqueIn(events, order) && ListsAll(ids, targets.Keys) && NoDuplicates(ids) && PlacedSoFar(events, order, ids, targets, |ids|)
    ensures UniqueIn(events, Applied(order, targets)) && !StepsOnParked(events, order, ids, targets)
  {
    var goal := Applied(order, targets);
    forall a, b | a in order && b in order && Rivals(events, a, b) ensures goal[a] != goal[b] {
      if a in targets || b in targets { PlacedApart(events, order, ids, targets, a, b); }
    }
    forall i, j | 0 <= i < j < |ids| && ids[i] in order && ids[j] in order && Rivals(events, ids[i], ids[j])
      ensures targets[ids[i]] != -ids[j]
    {
      assert ids[j] in targets && ids[j] !in ids[..i];
    }
  }

  lemma {:induction false} PlacedApart(events: map<int, Option<int>>, order: map<int, int>, ids: seq<int>,
                                       targets: map<int, int>, a: int, b: int)
    requires ListsAll(ids, targets.Keys) && NoDuplicates(ids) && PlacedSoFar(events, order, ids, targets, |ids|)
    requires a in order && b in order && Rivals(events, a, b) && (a in targets || b in targets)
    ensures Applied(order, targets)[a] != Applied(order, targets)[b]
  {
    ListedIff(ids, targets.Keys, a);
    ListedIff(ids, targets.Keys, b);
    if a in targets && b in targets {
      var i :| 0 <= i < |ids| && ids[i] == a;
      var j :| 0 <= j < |ids| && ids[j] == b;
      if i < j { assert ids[..j][i] == a; } else { assert ids[..i][j] == b; }
    } else if a in targets {
      var i :| 0 <= i < |ids| && ids[i] == a;
    } else {
      var j :| 0 <= j < |ids| && ids[j] == b;
    }
  }

  class PostTable {
    const events: map<int, Option<int>>
    var order: map<int, int>

    ghost predicate Valid()
      reads this
    {
      order.Keys == events.Keys && UniqueIn(events, order)
    }

    constructor (events: map<int, Option<int>>, order: map<int, int>)
      ensures this.events == events && this.order == order
    {
      this.events, this.order := events, order;
    }

    /** One UPDATE that the constraint may refuse. */
    method TryWrite(id: int, value: int) returns (ok: bool)
      requires id in order && UniqueIn(events, order)
      modifies this
      ensures ok <==> !Taken(events, old(order), id, value)
      ensures ok <==> forall x | x in old(order) && x != id && x in events && id in events && events[x].Some? && events[x] == events[id] ::
                        old(order)[x] != value
      ensures UniqueIn(events, order) && order == if ok then old(order)[id := value] else old(order)
    {
      if other :| other in order && Rivals(events, other, id) && order[other] == value {
        assert Holds(order, other, value);
        return false;
      }
      order := order[id := value];
      return true;
    }

    /**
     Bulk reorder of the listed ids. The first pass is committed before the second starts, so a
     collision in the second pass leaves every targeted row parked on its negated id; one in the
     first leaves the table as it was.
     */
    method ReorderCheckpoints(ids: seq<int>, targets: map<int, int>) returns (ok: bool)
      requires Valid() && ListsAll(ids, targets.Keys) && NoDuplicates(ids)
      modifies this
      ensures Valid()
      ensures ok <==> && Parkable(events, old(order), ids) && UniqueIn(events, Applied(old(order), targets))
                      && !StepsOnParked(events, old(order), ids, targets)
      ensures order == if ok then Applied(old(order), targets)
                       else if Parkable(events, old(order), ids) then Parked(old(order), targets) else old(order)
      ensures order.Keys == old(order).Keys && forall id | id in order && id !in targets :: order[id] == old(order)[id]
      ensures ok ==> forall id | id in order && id in targets :: order[id] == targets[id]
      ensures !ok && order != old(order) ==> forall id | id in order && id in targets :: order[id] == -id
    {
      ghost var before := order;
      ok := Park(ids);
      if !ok { return; }
      ParkedIsWritten(before, ids, targets);
      ok := Place(ids, targets, before);
    }

    method ParkOne(ghost before: map<int, int>, ids: seq<int>, i: nat) returns (ok: bool)
      requires i < |ids| && order == Written(before, ids[..i], Negated(before.Keys)) && order.Keys == before.Keys
      requires UniqueIn(events, order) && ParkableUpTo(events, before, ids, i)
      modifies this
      ensures UniqueIn(events, order)
      ensures ok ==> order == Written(before, ids[..i + 1], Negated(before.Keys)) && ParkableUpTo(events, before, ids, i + 1)
      ensures !ok ==> !Parkable(events, before, ids)
    {
      WrittenOneMore(before, ids, i, Negated(before.Keys));
      if ids[i] !in order { return true; }
      ParkingIff(events, before, order, ids, i);
      ok := TryWrite(ids[i], -ids[i]);
    }

    /** The first pass; a write the constraint refuses undoes it. */
    method Park(ids: seq<int>) returns (ok: bool)
      requires Valid() && NoDuplicates(ids)
      modifies this
      ensures UniqueIn(events, order) && (ok <==> Parkable(events, old(order), ids))
      ensures order == if ok then Written(old(order), ids, Negated(old(order).Keys)) else old(order)
    {
      var before := order;
      for i := 0 to |ids|
        invariant order == Written(before, ids[..i], Negated(before.Keys)) && order.Keys == before.Keys
        invariant UniqueIn(events, order) && ParkableUpTo(events, before, ids, i)
      {
        ok := ParkOne(before, ids, i);
        if !ok {
          order := before;
          return;
        }
        WrittenMeaning(before, ids[..i + 1], Negated(before.Keys));
      }
      assert ids[..|ids|] == ids;
      return true;
    }

    /** The second pass; a write the constraint refuses undoes it, back to the committed first. */
    method Place(ids: seq<int>, targets: map<int, int>, ghost before: map<int, int>) returns (ok: bool)
      requires order == Parked(before, targets) && UniqueIn(events, order) && UniqueIn(events, before)
      requires ListsAll(ids, targets.Keys) && NoDuplicates(ids)
      modifies this
      ensures ok <==> UniqueIn(events, Applied(before, targets)) && !StepsOnParked(events, before, ids, targets)
      ensures order == if ok then Applied(before, targets) else old(order)
    {
      var parked := order;
      ghost var goal := Applied(before, targets);
      for i := 0 to |ids|
        invariant order == Written(parked, ids[..i], goal) && order.Keys == before.Keys
        invariant UniqueIn(events, order) && PlacedSoFar(events, before, ids, targets, i)
      {
        WrittenOneMore(parked, ids, i, goal);
        if ids[i] in order {
          ok := TryWrite(ids[i], targets[ids[i]]);
          if !ok {
            PlaceCollides(events, before, ids, targets, i);
            order := parked;
            return;
          }
          PlacedOneMore(events, before, ids, targets, i);
        }
      }
      assert ids[..|ids|] == ids;
      PlacedAll(events, before, ids, targets);
      AppliedIsWritten(before, ids, targets);
      return true;
    }
  }
}
