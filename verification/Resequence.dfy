/**
 Renumbering the route. The order column of the checkpoints table is unique, so both bulk
 rewrites go through negative numbers. The constraint is the precondition of the table's only
 single-row write: a method that verifies never has two rows share a number, at any moment.
 */
module Resequence {
  import opened Sets
  import opened Sorting
  import opened Wrappers

  /** Sort key of posts that belong to no stage. */
  const UNSTAGED_SORT_KEY := 1_000_000

  datatype Info = Info(draft: bool, stageId: Option<int>)

  /** A row as the renumbering query sees it: joined to its stage's order, if it has a stage. */
  datatype Slot = Slot(id: int, draft: bool, stageId: Option<int>, stageKey: int, order: int)

  function SlotOf(id: int, info: Info, stageOrder: map<int, int>, order: int): Slot {
    var key := match info.stageId
      case Some(sid) => if sid in stageOrder then stageOrder[sid] else UNSTAGED_SORT_KEY
      case None => UNSTAGED_SORT_KEY;
    Slot(id, info.draft, info.stageId, key, order)
  }

  predicate SameGroup(a: Slot, b: Slot) { a.draft == b.draft && a.stageKey == b.stageKey }

  /** ORDER BY is_draft, stage order, order. */
  predicate SlotLeq(a: Slot, b: Slot) {
    if a.draft != b.draft then !a.draft
    else if a.stageKey != b.stageKey then a.stageKey < b.stageKey
    else a.order <= b.order
  }

  predicate Before(a: Slot, b: Slot) { SlotLeq(a, b) && !SlotLeq(b, a) }

  /** Rows of one table: an id or an order names one row. */
  ghost predicate Table(t: set<Slot>) {
    forall a, b | a in t && b in t && a != b :: a.order != b.order && a.id != b.id
  }

  ghost function Earlier(t: set<Slot>, s: Slot): set<Slot> { set x | x in t && Before(x, s) }

  /** Where a row ends up: one past the number of rows that sort before it. */
  ghost function Position(t: set<Slot>, s: Slot): int { 1 + |Earlier(t, s)| }

  /** A list in strict sort order has its i-th row at position i + 1. */
  lemma ListedPosition(t: set<Slot>, sorted: seq<Slot>, i: nat)
    requires forall x :: x in sorted <==> x in t
    requires forall j, k | 0 <= j < k < |sorted| :: Before(sorted[j], sorted[k])
    requires i < |sorted|
    ensures Position(t, sorted[i]) == i + 1
  {
    var front := sorted[..i];
    DistinctListSize(front);
    assert (set x | x in front) == Earlier(t, sorted[i]) by {
      forall x | x in front ensures x in Earlier(t, sorted[i]) {
        var j :| 0 <= j < |front| && front[j] == x;
        assert x == sorted[j] && x in sorted;
      }
      forall x | x in Earlier(t, sorted[i]) ensures x in front {
        assert x in sorted;
        var j :| 0 <= j < |sorted| && sorted[j] == x;
        assert j < i ==> front[j] == x;
      }
    }
  }

  // ---- The order column ------------------------------------------------------------------

  ghost function RowsOf(info: map<int, Info>, stageOrder: map<int, int>, order: map<int, int>): set<Slot>
    requires order.Keys == info.Keys
  {
    set id | id in order :: SlotOf(id, info[id], stageOrder, order[id])
  }

  /** The order column the renumbering is to leave behind. */
  ghost function Goal(info: map<int, Info>, stageOrder: map<int, int>, order: map<int, int>): map<int, int>
    requires order.Keys == info.Keys
  {
    map id | id in order ::
      Position(RowsOf(info, stageOrder, order), SlotOf(id, info[id], stageOrder, order[id]))
  }

  ghost predicate Unique(order: map<int, int>) {
    forall a, b | a in order && b in order && a != b :: order[a] != order[b]
  }

  /** No row's number is the negated id of another row. */
  ghost predicate ClearOfNegatedIds(order: map<int, int>) {
    forall a, b | a in order && b in order && a != b :: order[a] != -b
  }

  lemma UniqueRowsAreATable(info: map<int, Info>, stageOrder: map<int, int>, order: map<int, int>)
    requires order.Keys == info.Keys && Unique(order)
    ensures Table(RowsOf(info, stageOrder, order))
  {
  }

  /** A pass under way: every row holds its number from before the pass, or the one it is to get. */
  ghost predicate Between(now: map<int, int>, before: map<int, int>, goal: map<int, int>) {
    && now.Keys == before.Keys == goal.Keys
    && forall id | id in now :: now[id] == before[id] || now[id] == goal[id]
  }

  ghost function Negated(ids: set<int>): map<int, int> { map id | id in ids :: -id }

  /** However far the first pass has got, and in whatever order it goes, numbers are unique. */
  lemma FirstPassUnique(before: map<int, int>, now: map<int, int>)
    requires Unique(before) && ClearOfNegatedIds(before)
    requires Between(now, before, Negated(before.Keys))
    ensures Unique(now)
  {
  }

  /** The same for the second pass, towards positive numbers. */
  lemma SecondPassUnique(goal: map<int, int>, now: map<int, int>)
    requires Unique(goal) && forall id | id in goal :: id > 0 && goal[id] > 0
    requires Between(now, Negated(goal.Keys), goal)
    ensures Unique(now)
  {
  }

  /** The column after giving the listed rows their goal; ids without a row are passed over. */
  ghost function Written(order: map<int, int>, ids: seq<int>, goal: map<int, int>): map<int, int>
    requires order.Keys <= goal.Keys
  {
    if ids == [] then order
    else
      var last := ids[|ids| - 1];
      var done := Written(order, ids[..|ids| - 1], goal);
      if last in order then done[last := goal[last]] else done
  }

  lemma {:induction false} WrittenOneMore(order: map<int, int>, ids: seq<int>, i: nat, goal: map<int, int>)
    requires order.Keys <= goal.Keys && i < |ids|
    ensures var done := Written(order, ids[..i], goal);
            Written(order, ids[..i + 1], goal) == if ids[i] in order then done[ids[i] := goal[ids[i]]] else done
  {
    assert ids[..i + 1][..i] == ids[..i];
  }

  lemma {:induction false} WrittenMeaning(order: map<int, int>, ids: seq<int>, goal: map<int, int>)
    requires order.Keys <= goal.Keys
    ensures Written(order, ids, goal).Keys == order.Keys
    ensures forall id | id in order :: Written(order, ids, goal)[id] == if id in ids then goal[id] else order[id]
  {
    if ids != [] {
      var front, last := ids[..|ids| - 1], ids[|ids| - 1];
      WrittenMeaning(order, front, goal);
      assert forall id :: id in ids <==> id in front || id == last;
    }
  }

  lemma {:induction false} WrittenAll(order: map<int, int>, ids: seq<int>, goal: map<int, int>)
    requires order.Keys == goal.Keys && forall id | id in order :: id in ids
    ensures Written(order, ids, goal) == goal
  {
    WrittenMeaning(order, ids, goal);
    var written := Written(order, ids, goal);
    forall id | id in goal ensures id in written && written[id] == goal[id] {}
  }

  lemma {:induction false} NegatingUnique(before: map<int, int>, ids: seq<int>)
    requires Unique(before) && ClearOfNegatedIds(before)
    ensures Unique(Written(before, ids, Negated(before.Keys)))
  {
    WrittenMeaning(before, ids, Negated(before.Keys));
    FirstPassUnique(before, Written(before, ids, Negated(before.Keys)));
  }

  lemma {:induction false} NumberingUnique(goal: map<int, int>, ids: seq<int>)
    requires Unique(goal) && forall id | id in goal :: id > 0 && goal[id] > 0
    ensures Unique(Written(Negated(goal.Keys), ids, goal))
  {
    WrittenMeaning(Negated(goal.Keys), ids, goal);
    SecondPassUnique(goal, Written(Negated(goal.Keys), ids, goal));
  }

  ghost predicate ListsAll(ids: seq<int>, keys: set<int>) {
    && (forall i | 0 <= i < |ids| :: ids[i] in keys)
    && (forall id | id in keys :: id in ids)
  }

  // ---- The sorted listing --------------------------------------------------------------------

  /** goal numbers the listed rows 1, 2, ... */
  ghost predicate NumbersListing(goal: map<int, int>, ids: seq<int>, keys: set<int>) {
    && goal.Keys == keys
    && ListsAll(ids, keys)
    && Unique(goal)
    && (forall id | id in goal :: goal[id] > 0)
    && (forall i | 0 <= i < |ids| :: goal[ids[i]] == i + 1)
  }

  /** The column read back as the sorted list: its rows and their ids. */
  ghost predicate Listing(info: map<int, Info>, stageOrder: map<int, int>, order: map<int, int>,
                          sorted: seq<Slot>, ids: seq<int>)
    requires order.Keys == info.Keys
  {
    && (forall x :: x in sorted <==> x in RowsOf(info, stageOrder, order))
    && (forall i, j | 0 <= i < j < |sorted| :: Before(sorted[i], sorted[j]))
    && |ids| == |sorted| && forall i | 0 <= i < |ids| :: ids[i] == sorted[i].id
  }

  lemma ListingAt(info: map<int, Info>, stageOrder: map<int, int>, order: map<int, int>,
                  sorted: seq<Slot>, ids: seq<int>, i: nat)
    requires order.Keys == info.Keys && Listing(info, stageOrder, order, sorted, ids) && i < |ids|
    ensures ids[i] in order && order[ids[i]] == sorted[i].order
    ensures Goal(info, stageOrder, order)[ids[i]] == i + 1
  {
    var s := sorted[i];
    assert s in sorted;
    assert s in RowsOf(info, stageOrder, order);
    ListedPosition(RowsOf(info, stageOrder, order), sorted, i);
  }

  lemma ListingHas(info: map<int, Info>, stageOrder: map<int, int>, order: map<int, int>,
                   sorted: seq<Slot>, ids: seq<int>, id: int)
    requires order.Keys == info.Keys && Listing(info, stageOrder, order, sorted, ids) && id in order
    ensures id in ids
  {
    var s := SlotOf(id, info[id], stageOrder, order[id]);
    assert s in RowsOf(info, stageOrder, order);
    assert s in sorted;
    var i :| 0 <= i < |sorted| && sorted[i] == s;
    assert ids[i] == id;
  }

  lemma GoalOfListing(info: map<int, Info>, stageOrder: map<int, int>, order: map<int, int>,
                      sorted: seq<Slot>, ids: seq<int>)
    requires order.Keys == info.Keys && Listing(info, stageOrder, order, sorted, ids)
    ensures NumbersListing(Goal(info, stageOrder, order), ids, order.Keys)
    ensures (forall i | 0 <= i < |sorted| :: sorted[i].order == i + 1) <==> Goal(info, stageOrder, order) == order
  {
    var goal := Goal(info, stageOrder, order);
    ListingNumbers(info, stageOrder, order, sorted, ids);
    NumberedUnique(ids, goal);
    InPlaceIff(ids, order, goal);
  }

  lemma ListingNumbers(info: map<int, Info>, stageOrder: map<int, int>, order: map<int, int>,
                       sorted: seq<Slot>, ids: seq<int>)
    requires order.Keys == info.Keys && Listing(info, stageOrder, order, sorted, ids)
    ensures ListsAll(ids, order.Keys)
    ensures forall i | 0 <= i < |ids| :: order[ids[i]] == sorted[i].order
    ensures forall i | 0 <= i < |ids| :: Goal(info, stageOrder, order)[ids[i]] == i + 1
  {
    var goal := Goal(info, stageOrder, order);
    forall i | 0 <= i < |ids| ensures ids[i] in order && order[ids[i]] == sorted[i].order && goal[ids[i]] == i + 1 {
      ListingAt(info, stageOrder, order, sorted, ids, i);
    }
    forall id | id in order ensures id in ids { ListingHas(info, stageOrder, order, sorted, ids, id); }
  }

  lemma NumberedUnique(ids: seq<int>, goal: map<int, int>)
    requires ListsAll(ids, goal.Keys) && forall i | 0 <= i < |ids| :: goal[ids[i]] == i + 1
    ensures Unique(goal) && forall id | id in goal :: goal[id] > 0
  {
    forall x | x in goal ensures exists i | 0 <= i < |ids| :: ids[i] == x && goal[x] == i + 1 {
      assert x in ids;
    }
  }

  lemma InPlaceIff(ids: seq<int>, order: map<int, int>, goal: map<int, int>)
    requires ListsAll(ids, order.Keys) && goal.Keys == order.Keys
    requires forall i | 0 <= i < |ids| :: goal[ids[i]] == i + 1
    ensures (forall i | 0 <= i < |ids| :: order[ids[i]] == i + 1) <==> goal == order
  {
    if forall i | 0 <= i < |ids| :: order[ids[i]] == i + 1 {
      forall id | id in order ensures goal[id] == order[id] {
        var i :| 0 <= i < |ids| && ids[i] == id;
      }
    }
  }

  class CheckPointTable {
    const info: map<int, Info>
    const stageOrder: map<int, int>
    var order: map<int, int>
    /** How many single-row writes the table has taken. */
    ghost var writes: nat

    ghost predicate Valid()
      reads this
    {
      && order.Keys == info.Keys
      && (forall id | id in order :: id > 0)
      && Unique(order)
    }

    constructor (info: map<int, Info>, stageOrder: map<int, int>, order: map<int, int>)
      ensures this.info == info && this.stageOrder == stageOrder && this.order == order
    {
      this.info, this.stageOrder, this.order, writes := info, stageOrder, order, 0;
    }

    /** One UPDATE; the unique constraint is its precondition. */
    method Write(id: int, value: int)
      requires id in order && Unique(order[id := value])
      modifies this
      ensures order == old(order)[id := value] && writes == old(writes) + 1
    {
      order, writes := order[id := value], writes + 1;
    }

    method AllRows() returns (rows: seq<Slot>)
      requires Valid()
      ensures forall x :: x in rows <==> x in RowsOf(info, stageOrder, order)
      ensures NoDuplicates(rows)
    {
      var todo := order.Keys;
      rows := [];
      while todo != {}
        invariant todo <= order.Keys
        invariant forall x :: x in rows <==> x in RowsOf(info, stageOrder, order) && x.id !in todo
        invariant NoDuplicates(rows)
        decreases |todo|
      {
        ghost var some := SomeMember(todo);
        var id :| id in todo;
        var slot := SlotOf(id, info[id], stageOrder, order[id]);
        assert slot !in rows;
        rows, todo := rows + [slot], todo - {id};
      }
    }

    /** SELECT ... ORDER BY is_draft, stage order, order. */
    method OrderedRows() returns (sorted: seq<Slot>, ids: seq<int>)
      requires Valid()
      ensures Listing(info, stageOrder, order, sorted, ids)
    {
      var rows := AllRows();
      sorted := SortBy(SlotLeq, rows);
      ids := seq(|sorted|, i requires 0 <= i < |sorted| => sorted[i].id);
      UniqueRowsAreATable(info, stageOrder, order);
      SortedStrictly(RowsOf(info, stageOrder, order), rows);
    }

    method NegateAll(ids: seq<int>)
      requires Unique(order) && ClearOfNegatedIds(order)
      modifies this
      ensures order == Written(old(order), ids, Negated(old(order).Keys))
    {
      ghost var before := order;
      for i := 0 to |ids|
        invariant order == Written(before, ids[..i], Negated(before.Keys)) && order.Keys == before.Keys
      {
        assert ids[..i+1][..i] == ids[..i];
        NegatingUnique(before, ids[..i+1]);
        if ids[i] in order { Write(ids[i], -ids[i]); }
      }
      assert ids[..|ids|] == ids;
    }

    method NumberAll(ids: seq<int>, ghost goal: map<int, int>)
      requires order == Negated(goal.Keys) && NumbersListing(goal, ids, order.Keys)
      requires forall id | id in goal :: id > 0
      modifies this
      ensures order == goal
    {
      ghost var before := order;
      for i := 0 to |ids|
        invariant order == Written(before, ids[..i], goal) && order.Keys == before.Keys
      {
        assert ids[..i+1][..i] == ids[..i];
        NumberingUnique(goal, ids[..i+1]);
        Write(ids[i], i + 1);
      }
      assert ids[..|ids|] == ids;
      WrittenAll(before, ids, goal);
    }

    method Rewrite(ids: seq<int>, ghost goal: map<int, int>)
      requires Unique(order) && ClearOfNegatedIds(order)
      requires NumbersListing(goal, ids, order.Keys)
      requires forall id | id in order :: id > 0
      modifies this
      ensures order == goal
    {
      WrittenAll(order, ids, Negated(order.Keys));
      NegateAll(ids);
      NumberAll(ids, goal);
    }

    /** Published posts on 1..p, drafts after them, each group in its old relative order. */
    method Resequence()
      requires Valid() && ClearOfNegatedIds(order)
      modifies this
      ensures Valid()
      ensures order == Goal(info, stageOrder, old(order))
      ensures order == old(order) ==> writes == old(writes)
    {
      ghost var goal := Goal(info, stageOrder, order);
      var sorted, ids := OrderedRows();
      GoalOfListing(info, stageOrder, order, sorted, ids);
      if !(forall i | 0 <= i < |sorted| :: sorted[i].order == i + 1) {
        Rewrite(ids, goal);
      }
    }
  }

  lemma {:induction false} SortedStrictly(t: set<Slot>, rows: seq<Slot>)
    requires Table(t) && NoDuplicates(rows) && forall x :: x in rows <==> x in t
    ensures var sorted := SortBy(SlotLeq, rows);
            && (forall x :: x in sorted <==> x in t)
            && (forall i, j | 0 <= i < j < |sorted| :: Before(sorted[i], sorted[j]))
  {
    var sorted := SortBy(SlotLeq, rows);
    SortByOrdered(SlotLeq, rows);
    SameMembers(sorted, rows);
    PermutedNoDuplicates(rows, sorted);
    forall i, j | 0 <= i < j < |sorted| ensures Before(sorted[i], sorted[j]) {
      var a, b := sorted[i], sorted[j];
      assert a in sorted && b in sorted && a != b && SlotLeq(a, b);
      assert a in t && b in t && a.order != b.order;
    }
  }
}
