/**
 What the new numbers mean: 1..n, published posts first, stages in blocks, old order inside a group,
 and nothing left for a second call to do.
 */
module Renumbering {
  import opened Reordering
  import opened Resequence
  import opened Sets
  import opened Wrappers

  ghost function Renumber(t: set<Slot>): set<Slot> {
    set s | s in t :: s.(order := Position(t, s))
  }

  lemma PositionMonotone(t: set<Slot>, a: Slot, b: Slot)
    requires Table(t) && a in t && b in t && a != b
    ensures Position(t, a) < Position(t, b) <==> Before(a, b)
    ensures Before(a, b) || Before(b, a)
  {
    if Before(a, b) {
      EarlierGrows(t, a, b);
    } else {
      assert a.order != b.order;
      EarlierGrows(t, b, a);
    }
  }

  lemma EarlierGrows(t: set<Slot>, a: Slot, b: Slot)
    requires a in t && Before(a, b)
    ensures |Earlier(t, a)| < |Earlier(t, b)|
  {
    assert Earlier(t, a) + {a} <= Earlier(t, b);
    assert a !in Earlier(t, a);
    SubsetCardinality(Earlier(t, a) + {a}, Earlier(t, b));
  }

  lemma PositionInRange(t: set<Slot>, s: Slot)
    requires s in t
    ensures 1 <= Position(t, s) <= |t|
  {
    assert Earlier(t, s) <= t - {s};
    SubsetCardinality(Earlier(t, s), t - {s});
  }

  lemma PositionInjective(t: set<Slot>, a: Slot, b: Slot)
    requires Table(t) && a in t && b in t && a != b
    ensures Position(t, a) != Position(t, b)
  {
    PositionMonotone(t, a, b);
    PositionMonotone(t, b, a);
  }

  ghost function Numbering(t: set<Slot>): (number: map<Slot, int>)
    ensures number.Keys == t && forall s | s in t :: number[s] == Position(t, s)
  {
    map s | s in t :: Position(t, s)
  }

  /** The new numbers are exactly 1..n, each used once. */
  lemma {:induction false} Contiguous(t: set<Slot>)
    requires Table(t)
    ensures forall a, b | a in t && b in t && a != b :: Numbering(t)[a] != Numbering(t)[b]
    ensures (set s | s in t :: Numbering(t)[s]) == Interval(1, |t| + 1)
  {
    var number := Numbering(t);
    forall a, b | a in t && b in t && a != b ensures number[a] != number[b] { PositionInjective(t, a, b); }
    forall s | s in t ensures 1 <= number[s] <= |t| { PositionInRange(t, s); }
    Pigeonhole(t, number);
  }

  /** The published rows take 1..p, the drafts the numbers after them. */
  lemma PublishedFirst(t: set<Slot>, s: Slot)
    requires Table(t) && s in t
    ensures s.draft <==> Position(t, s) > |set x | x in t && !x.draft|
  {
    var published := set x | x in t && !x.draft;
    if s.draft {
      assert published <= Earlier(t, s);
      SubsetCardinality(published, Earlier(t, s));
    } else {
      assert Earlier(t, s) <= published - {s};
      SubsetCardinality(Earlier(t, s), published - {s});
    }
  }

  /** Each stage order names one stage, and none is the key used for posts without a stage. */
  ghost predicate StageKeysFaithful(t: set<Slot>) {
    forall a, b | a in t && b in t :: a.stageKey == b.stageKey <==> a.stageId == b.stageId
  }

  /** Whatever sits between two posts of one stage and draft state is of that stage and state too. */
  lemma StageBlocks(t: set<Slot>, a: Slot, b: Slot, c: Slot)
    requires Table(t) && StageKeysFaithful(t) && a in t && b in t && c in t
    requires a.draft == c.draft && a.stageId == c.stageId
    requires Position(t, a) < Position(t, b) < Position(t, c)
    ensures b.draft == a.draft && b.stageId == a.stageId
  {
    PositionMonotone(t, a, b);
    PositionMonotone(t, b, c);
  }

  /** Blocks follow stage order, and a group keeps the relative order its rows had. */
  lemma GroupsInOrder(t: set<Slot>, a: Slot, b: Slot)
    requires Table(t) && a in t && b in t && a.draft == b.draft
    ensures a.stageKey < b.stageKey ==> Position(t, a) < Position(t, b)
    ensures SameGroup(a, b) ==> (Position(t, a) < Position(t, b) <==> a.order < b.order)
  {
    if a != b { PositionMonotone(t, a, b); }
  }

  /** Renumbering a renumbered table changes nothing. */
  lemma Idempotent(t: set<Slot>)
    requires Table(t)
    ensures Table(Renumber(t)) && Renumber(Renumber(t)) == Renumber(t)
    ensures forall s | s in Renumber(t) :: Position(Renumber(t), s) == s.order
  {
    var u := Renumber(t);
    forall a, b | a in t && b in t && a != b ensures Position(t, a) != Position(t, b) { PositionInjective(t, a, b); }
    forall a, b | a in t && b in t
      ensures Before(a.(order := Position(t, a)), b.(order := Position(t, b))) <==> Before(a, b)
    {
      if a != b { PositionMonotone(t, a, b); }
    }
    forall s | s in t ensures Position(u, s.(order := Position(t, s))) == Position(t, s) {
      SameEarlier(t, s);
    }
    forall s | s in u ensures Position(u, s) == s.order && s.(order := Position(u, s)) == s {
      var was :| was in t && s == was.(order := Position(t, was));
    }
    assert Renumber(u) == u;
  }

  lemma SameEarlier(t: set<Slot>, s: Slot)
    requires Table(t) && s in t
    requires forall a, b | a in t && b in t ::
               Before(a.(order := Position(t, a)), b.(order := Position(t, b))) <==> Before(a, b)
    ensures |Earlier(Renumber(t), s.(order := Position(t, s)))| == |Earlier(t, s)|
  {
    var early := Earlier(t, s);
    var renamed := set x | x in early :: x.(order := Position(t, x));
    assert renamed == Earlier(Renumber(t), s.(order := Position(t, s)));
    RenamedSize(t, early);
  }

  lemma {:induction false} RenamedSize(t: set<Slot>, part: set<Slot>)
    requires Table(t) && part <= t
    ensures |set x | x in part :: x.(order := Position(t, x))| == |part|
    decreases |part|
  {
    var renamed := set x | x in part :: x.(order := Position(t, x));
    if part == {} {
      assert renamed == {};
    } else {
      var y := SomeMember(part);
      RenamedSize(t, part - {y});
      var rest := set x | x in part - {y} :: x.(order := Position(t, x));
      var z := y.(order := Position(t, y));
      assert renamed == rest + {z};
      assert z !in rest;
    }
  }

  lemma GoalRenumbers(info: map<int, Info>, stageOrder: map<int, int>, order: map<int, int>)
    requires order.Keys == info.Keys
    ensures RowsOf(info, stageOrder, Goal(info, stageOrder, order)) == Renumber(RowsOf(info, stageOrder, order))
  {
    var t, goal := RowsOf(info, stageOrder, order), Goal(info, stageOrder, order);
    forall id | id in order
      ensures SlotOf(id, info[id], stageOrder, goal[id]) ==
              SlotOf(id, info[id], stageOrder, order[id]).(order := Position(t, SlotOf(id, info[id], stageOrder, order[id])))
    {
    }
  }

  /** Where every row stands at its number, the numbers are already what a renumbering gives. */
  lemma InPlaceStays(info: map<int, Info>, stageOrder: map<int, int>, goal: map<int, int>)
    requires goal.Keys == info.Keys
    requires var rows := RowsOf(info, stageOrder, goal); forall s | s in rows :: Position(rows, s) == s.order
    ensures Goal(info, stageOrder, goal) == goal
  {
    forall id | id in goal ensures Goal(info, stageOrder, goal)[id] == goal[id] {
      assert SlotOf(id, info[id], stageOrder, goal[id]) in RowsOf(info, stageOrder, goal);
    }
  }

  /** A second renumbering finds every row in place. */
  lemma SecondCallChangesNothing(info: map<int, Info>, stageOrder: map<int, int>, order: map<int, int>)
    requires order.Keys == info.Keys && Unique(order)
    ensures var goal := Goal(info, stageOrder, order); Goal(info, stageOrder, goal) == goal
  {
    UniqueRowsAreATable(info, stageOrder, order);
    GoalRenumbers(info, stageOrder, order);
    Idempotent(RowsOf(info, stageOrder, order));
    InPlaceStays(info, stageOrder, Goal(info, stageOrder, order));
  }

  /**
   After a refused reorder the old relative order is gone: the next renumbering puts the parked
   posts of a group in descending id order, whatever order they had.
   */
  lemma RefusedReorderForgetsOrder(info: map<int, Info>, stageOrder: map<int, int>, order: map<int, int>,
                                   targets: map<int, int>, x: int, y: int)
    requires order.Keys == info.Keys && Unique(order) && ClearOfNegatedIds(order)
    requires x in order && y in order && x in targets && y in targets && x > y
    requires info[x] == info[y]
    ensures var after := Goal(info, stageOrder, Parked(order, targets)); after[x] < after[y]
  {
    var parked := Parked(order, targets);
    ParkedUnique(order, targets);
    UniqueRowsAreATable(info, stageOrder, parked);
    GroupsInOrder(RowsOf(info, stageOrder, parked), SlotOf(x, info[x], stageOrder, parked[x]),
                  SlotOf(y, info[y], stageOrder, parked[y]));
  }

  // ---- The new numbers, in terms of the tables ---------------------------------------------------

  predicate KnownStage(info: map<int, Info>, stageOrder: map<int, int>, id: int) {
    id in info && info[id].stageId.Some? && info[id].stageId.value in stageOrder
  }

  function StageOrderOf(info: map<int, Info>, stageOrder: map<int, int>, id: int): int
    requires KnownStage(info, stageOrder, id)
  {
    stageOrder[info[id].stageId.value]
  }

  /** Of two posts of the same draft state, both of known stages, the one of the earlier stage is numbered first. */
  lemma StagesFirst(info: map<int, Info>, stageOrder: map<int, int>, order: map<int, int>, x: int, y: int)
    requires order.Keys == info.Keys && Unique(order) && x in order && y in order && info[x].draft == info[y].draft
    requires KnownStage(info, stageOrder, x) && KnownStage(info, stageOrder, y)
    requires StageOrderOf(info, stageOrder, x) < StageOrderOf(info, stageOrder, y)
    ensures Goal(info, stageOrder, order)[x] < Goal(info, stageOrder, order)[y]
  {
    ComparedByRows(info, stageOrder, order, x, y);
  }

  lemma ComparedByRows(info: map<int, Info>, stageOrder: map<int, int>, order: map<int, int>, x: int, y: int)
    requires order.Keys == info.Keys && Unique(order) && x in order && y in order && x != y
    ensures Goal(info, stageOrder, order)[x] < Goal(info, stageOrder, order)[y] <==>
            Before(SlotOf(x, info[x], stageOrder, order[x]), SlotOf(y, info[y], stageOrder, order[y]))
  {
    UniqueRowsAreATable(info, stageOrder, order);
    PositionMonotone(RowsOf(info, stageOrder, order), SlotOf(x, info[x], stageOrder, order[x]),
                     SlotOf(y, info[y], stageOrder, order[y]));
  }

  /** Published before drafts; then by stage, with the posts of no known stage last; then by the old number. */
  predicate ComesFirst(info: map<int, Info>, stageOrder: map<int, int>, order: map<int, int>, x: int, y: int)
    requires order.Keys == info.Keys && x in order && y in order
  {
    if info[x].draft != info[y].draft then info[y].draft
    else if KnownStage(info, stageOrder, x) && KnownStage(info, stageOrder, y) then
      var a, b := StageOrderOf(info, stageOrder, x), StageOrderOf(info, stageOrder, y);
      a < b || (a == b && order[x] < order[y])
    else if KnownStage(info, stageOrder, x) || KnownStage(info, stageOrder, y) then KnownStage(info, stageOrder, x)
    else order[x] < order[y]
  }

  /** With stage orders below a million, of any two posts the one that comes first is numbered first. */
  lemma NumberedInOrder(info: map<int, Info>, stageOrder: map<int, int>, order: map<int, int>, x: int, y: int)
    requires order.Keys == info.Keys && Unique(order) && x in order && y in order && x != y
    requires forall stage | stage in stageOrder :: stageOrder[stage] < 1_000_000
    ensures Goal(info, stageOrder, order)[x] < Goal(info, stageOrder, order)[y] <==> ComesFirst(info, stageOrder, order, x, y)
  {
    ComparedByRows(info, stageOrder, order, x, y);
  }

  /** The million is a number like any other: a stage of a greater order comes after the posts without one. */
  lemma FarStageComesLast(info: map<int, Info>, stageOrder: map<int, int>, order: map<int, int>, x: int, y: int)
    requires order.Keys == info.Keys && Unique(order) && x in order && y in order && info[x].draft == info[y].draft
    requires KnownStage(info, stageOrder, x) && !KnownStage(info, stageOrder, y) && StageOrderOf(info, stageOrder, x) > 1_000_000
    ensures Goal(info, stageOrder, order)[y] < Goal(info, stageOrder, order)[x]
  {
    ComparedByRows(info, stageOrder, order, y, x);
  }
}
