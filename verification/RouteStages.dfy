/**
 The stages of a route and the gate: which posts a team may check into, given what it has resolved.
 */
module RouteStages {
  import opened Sets
  import opened Sorting
  import opened Wrappers

  datatype StageRow = StageRow(id: int, order: int, orderMatters: bool, requiredCount: Option<int>)

  datatype Stage = Stage(id: int, order: int, orderMatters: bool, requiredCount: Option<int>, posts: seq<int>) {
    /** How many posts the stage demands, clamped to what it has. */
    function Required(): (n: nat)
      ensures n <= |posts|
    {
      match requiredCount
      case None => |posts|
      case Some(c) => if c < 0 then 0 else if c > |posts| then |posts| else c
    }
  }

  predicate RowLeq(a: StageRow, b: StageRow) { a.order <= b.order }

  function MakeStage(row: StageRow, ordersByStage: map<int, seq<int>>): Stage {
    Stage(row.id, row.order, row.orderMatters, row.requiredCount,
          SortBy(IntLeq, if row.id in ordersByStage then ordersByStage[row.id] else []))
  }

  function BuildStages(rows: seq<StageRow>, ordersByStage: map<int, seq<int>>): (stages: seq<Stage>)
    ensures |stages| == |rows|
  {
    var sorted := SortBy(RowLeq, rows);
    seq(|sorted|, i requires 0 <= i < |sorted| => MakeStage(sorted[i], ordersByStage))
  }

  function ResolvedIn(posts: seq<int>, resolved: set<int>): (n: nat)
    ensures n <= |posts|
  {
    if posts == [] then 0
    else (if posts[0] in resolved then 1 else 0) + ResolvedIn(posts[1..], resolved)
  }

  predicate IsComplete(stage: Stage, resolved: set<int>) {
    ResolvedIn(stage.posts, resolved) >= stage.Required()
  }

  function OwnStage(post: int, stages: seq<Stage>): Option<Stage> {
    if stages == [] then None
    else if post in stages[0].posts then Some(stages[0])
    else OwnStage(post, stages[1..])
  }

  /** The scan over earlier stages, stopping at the first one that is not earlier. */
  predicate EarlierComplete(stages: seq<Stage>, bound: int, resolved: set<int>) {
    if stages == [] || stages[0].order >= bound then true
    else IsComplete(stages[0], resolved) && EarlierComplete(stages[1..], bound, resolved)
  }

  predicate IsReachable(post: int, stages: seq<Stage>, resolved: set<int>) {
    && post !in resolved
    && match OwnStage(post, stages)
       case None => true
       case Some(own) =>
         && EarlierComplete(stages, own.order, resolved)
         && (own.orderMatters ==> forall o | o in own.posts && o < post :: o in resolved)
  }

  // ---- What a stage list looks like -------------------------------------------------------

  ghost predicate Disjoint(stages: seq<Stage>) {
    forall i, j, p | 0 <= i < j < |stages| && p in stages[i].posts :: p !in stages[j].posts
  }

  /** Stages in ascending order (ties allowed), each post in at most one of them. */
  ghost predicate WellFormed(stages: seq<Stage>) {
    && (forall i, j | 0 <= i < j < |stages| :: stages[i].order <= stages[j].order)
    && (forall i | 0 <= i < |stages| :: Ordered(IntLeq, stages[i].posts))
    && Disjoint(stages)
  }

  lemma StagePosts(row: StageRow, ordersByStage: map<int, seq<int>>)
    ensures var s := MakeStage(row, ordersByStage);
            && Ordered(IntLeq, s.posts)
            && forall p :: p in s.posts <==> row.id in ordersByStage && p in ordersByStage[row.id]
  {
    var posts := if row.id in ordersByStage then ordersByStage[row.id] else [];
    SortByOrdered(IntLeq, posts);
    SameMembers(SortBy(IntLeq, posts), posts);
  }

  /** Every row gives a stage. */
  lemma StageFor(rows: seq<StageRow>, ordersByStage: map<int, seq<int>>, row: StageRow) returns (i: nat)
    requires row in rows
    ensures i < |rows| && BuildStages(rows, ordersByStage)[i] == MakeStage(row, ordersByStage)
  {
    var sorted := SortBy(RowLeq, rows);
    SameMembers(sorted, rows);
    assert row in sorted;
    i :| 0 <= i < |sorted| && sorted[i] == row;
  }

  /** Every stage comes from a row. */
  lemma RowFor(rows: seq<StageRow>, ordersByStage: map<int, seq<int>>, i: nat) returns (row: StageRow)
    requires i < |rows|
    ensures row in rows && BuildStages(rows, ordersByStage)[i] == MakeStage(row, ordersByStage)
  {
    var sorted := SortBy(RowLeq, rows);
    SameMembers(sorted, rows);
    row := sorted[i];
    assert row in sorted;
  }

  lemma StagesAscending(rows: seq<StageRow>, ordersByStage: map<int, seq<int>>)
    ensures var stages := BuildStages(rows, ordersByStage);
            forall i, j | 0 <= i < j < |stages| :: stages[i].order <= stages[j].order
  {
    var sorted, stages := SortBy(RowLeq, rows), BuildStages(rows, ordersByStage);
    SortByOrdered(RowLeq, rows);
    forall i, j | 0 <= i < j < |stages| ensures stages[i].order <= stages[j].order {
      assert RowLeq(sorted[i], sorted[j]);
      assert stages[i] == MakeStage(sorted[i], ordersByStage) && stages[j] == MakeStage(sorted[j], ordersByStage);
    }
  }

  lemma DistinctOrdersStrict(rows: seq<StageRow>, ordersByStage: map<int, seq<int>>)
    requires forall i, j | 0 <= i < j < |rows| :: rows[i].order != rows[j].order
    ensures var stages := BuildStages(rows, ordersByStage);
            forall i, j | 0 <= i < j < |stages| :: stages[i].order < stages[j].order
  {
    var sorted, stages := SortBy(RowLeq, rows), BuildStages(rows, ordersByStage);
    SortByOrdered(RowLeq, rows);
    SameMembers(sorted, rows);
    PermutedNoDuplicates(rows, sorted);
    forall i, j | 0 <= i < j < |stages| ensures stages[i].order < stages[j].order {
      var x, y := sorted[i], sorted[j];
      assert RowLeq(x, y) && x != y && x in rows && y in rows;
      assert stages[i] == MakeStage(x, ordersByStage) && stages[j] == MakeStage(y, ordersByStage);
    }
  }

  lemma BuildStagesWellFormed(rows: seq<StageRow>, ordersByStage: map<int, seq<int>>)
    requires forall i, j | 0 <= i < j < |rows| :: rows[i].id != rows[j].id
    requires forall a, b, p | a in ordersByStage && b in ordersByStage && a != b && p in ordersByStage[a]
               :: p !in ordersByStage[b]
    ensures WellFormed(BuildStages(rows, ordersByStage))
  {
    var sorted, stages := SortBy(RowLeq, rows), BuildStages(rows, ordersByStage);
    StagesAscending(rows, ordersByStage);
    SortedIdsDistinct(rows, sorted);
    forall i | 0 <= i < |stages| ensures Ordered(IntLeq, stages[i].posts) {
      StagePosts(sorted[i], ordersByStage);
    }
    forall i, j, p | 0 <= i < j < |stages| && p in stages[i].posts ensures p !in stages[j].posts {
      StagePosts(sorted[i], ordersByStage);
      StagePosts(sorted[j], ordersByStage);
    }
  }

  /** Distinct ids survive any reordering of the rows. */
  lemma SortedIdsDistinct(rows: seq<StageRow>, sorted: seq<StageRow>)
    requires multiset(rows) == multiset(sorted)
    requires forall i, j | 0 <= i < j < |rows| :: rows[i].id != rows[j].id
    ensures forall i, j | 0 <= i < j < |sorted| :: sorted[i].id != sorted[j].id
  {
    SameMembers(rows, sorted);
    PermutedNoDuplicates(rows, sorted);
    forall i, j | 0 <= i < j < |sorted| ensures sorted[i].id != sorted[j].id {
      var x, y := sorted[i], sorted[j];
      assert x in rows && y in rows && x != y;
    }
  }

  // ---- The gate, stated without scans ---------------------------------------------------

  lemma {:induction false} EarlierCompleteMeaning(stages: seq<Stage>, bound: int, resolved: set<int>)
    requires forall i, j | 0 <= i < j < |stages| :: stages[i].order <= stages[j].order
    ensures EarlierComplete(stages, bound, resolved) <==>
            forall j | 0 <= j < |stages| && stages[j].order < bound :: IsComplete(stages[j], resolved)
  {
    if stages != [] && stages[0].order < bound {
      EarlierCompleteMeaning(stages[1..], bound, resolved);
      assert forall j | 0 < j < |stages| :: stages[j] == stages[1..][j-1];
    }
  }

  lemma {:induction false} OwnStageMeaning(post: int, stages: seq<Stage>)
    requires Disjoint(stages)
    ensures OwnStage(post, stages) == None <==> forall i | 0 <= i < |stages| :: post !in stages[i].posts
    ensures forall i | 0 <= i < |stages| && post in stages[i].posts :: OwnStage(post, stages) == Some(stages[i])
  {
    if stages != [] {
      assert forall i | 0 < i < |stages| :: stages[i] == stages[1..][i-1];
      assert Disjoint(stages[1..]);
      OwnStageMeaning(post, stages[1..]);
    }
  }

  ghost predicate Unstaged(post: int, stages: seq<Stage>) {
    forall i | 0 <= i < |stages| :: post !in stages[i].posts
  }

  ghost predicate GateOf(i: nat, post: int, stages: seq<Stage>, resolved: set<int>)
    requires i < |stages|
  {
    && post !in resolved
    && (forall j | 0 <= j < |stages| && stages[j].order < stages[i].order :: IsComplete(stages[j], resolved))
    && (stages[i].orderMatters ==> forall o | o in stages[i].posts && o < post :: o in resolved)
  }

  /** The gate of a staged post, and of a post outside every stage. */
  lemma GateMeaning(post: int, stages: seq<Stage>, resolved: set<int>)
    requires WellFormed(stages)
    ensures Unstaged(post, stages) ==> (IsReachable(post, stages, resolved) <==> post !in resolved)
    ensures forall i | 0 <= i < |stages| && post in stages[i].posts ::
              IsReachable(post, stages, resolved) <==> GateOf(i, post, stages, resolved)
  {
    OwnStageMeaning(post, stages);
    forall i | 0 <= i < |stages| && post in stages[i].posts
      ensures IsReachable(post, stages, resolved) <==> GateOf(i, post, stages, resolved)
    {
      EarlierCompleteMeaning(stages, stages[i].order, resolved);
    }
  }

  // ---- Counting ------------------------------------------------------------------------

  lemma {:induction false} ResolvedInMonotone(posts: seq<int>, a: set<int>, b: set<int>)
    requires a <= b
    ensures ResolvedIn(posts, a) <= ResolvedIn(posts, b)
  {
    if posts != [] { ResolvedInMonotone(posts[1..], a, b); }
  }

  lemma {:induction false} ResolvedInLocal(posts: seq<int>, a: set<int>, b: set<int>)
    requires forall p | p in posts :: p in a <==> p in b
    ensures ResolvedIn(posts, a) == ResolvedIn(posts, b)
  {
    if posts != [] {
      var head := posts[0];
      assert head in posts && (head in a <==> head in b);
      forall p | p in posts[1..] ensures p in a <==> p in b { assert p in posts; }
      ResolvedInLocal(posts[1..], a, b);
    }
  }

  lemma {:induction false} FullyResolved(posts: seq<int>, resolved: set<int>)
    ensures ResolvedIn(posts, resolved) == |posts| <==> forall p | p in posts :: p in resolved
  {
    if posts != [] {
      FullyResolved(posts[1..], resolved);
      assert forall p :: p in posts <==> p == posts[0] || p in posts[1..];
    }
  }

  // ---- What a stage demands, counted -----------------------------------------------------

  ghost function DoneOf(posts: seq<int>, resolved: set<int>): set<int> { set p | p in posts && p in resolved }

  /** Without a count all posts of the stage are done; with one, so many of them, or all if it has fewer. */
  ghost predicate Opened(s: Stage, resolved: set<int>) {
    match s.requiredCount
    case None => forall p | p in s.posts :: p in resolved
    case Some(c) => |DoneOf(s.posts, resolved)| >= if c < |s.posts| then c else |s.posts|
  }

  lemma {:induction false} ResolvedIsCount(posts: seq<int>, resolved: set<int>)
    requires NoDuplicates(posts)
    ensures ResolvedIn(posts, resolved) == |DoneOf(posts, resolved)|
  {
    if posts != [] {
      ResolvedIsCount(posts[1..], resolved);
      var rest, own := DoneOf(posts[1..], resolved), if posts[0] in resolved then {posts[0]} else {};
      assert DoneOf(posts, resolved) == rest + own && rest !! own;
    }
  }

  lemma {:induction false} CompleteIsOpened(s: Stage, resolved: set<int>)
    requires NoDuplicates(s.posts)
    ensures IsComplete(s, resolved) <==> Opened(s, resolved)
  {
    ResolvedIsCount(s.posts, resolved);
    FullyResolved(s.posts, resolved);
  }

  ghost predicate PostsOnce(stages: seq<Stage>) { forall i | 0 <= i < |stages| :: NoDuplicates(stages[i].posts) }

  /**
   The gate in numbers: a post of a stage is open exactly when it is not done itself, every stage of
   smaller order has as many of its posts done as it asks for, and, if its own stage is ordered,
   every smaller post of that stage is done.
   */
  lemma GateInCounts(post: int, stages: seq<Stage>, resolved: set<int>, i: nat)
    requires WellFormed(stages) && PostsOnce(stages) && i < |stages| && post in stages[i].posts
    ensures IsReachable(post, stages, resolved) <==>
            && post !in resolved
            && (forall j | 0 <= j < |stages| && stages[j].order < stages[i].order :: Opened(stages[j], resolved))
            && (stages[i].orderMatters ==> forall o | o in stages[i].posts && o < post :: o in resolved)
  {
    GateMeaning(post, stages, resolved);
    forall j | 0 <= j < |stages| ensures IsComplete(stages[j], resolved) <==> Opened(stages[j], resolved) {
      CompleteIsOpened(stages[j], resolved);
    }
  }
}
