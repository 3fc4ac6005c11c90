/**
 What the renumbering establishes for the stage rules: a renumbered route whose stages are all
 ordered and fully required is walked 1, 2, ..., n, exactly as a route without stages.
 */
module RenumberedRoute {
  import opened Renumbering
  import opened Resequence
  import opened RouteProgress
  import opened RouteStages
  import opened Wrappers

  /** The published posts of the renumbered table, listed by their new numbers. */
  ghost predicate PublishedListing(info: map<int, Info>, goal: map<int, int>, posts: seq<Post>) {
    forall i | 0 <= i < |posts| ::
      && posts[i].order == i + 1
      && posts[i].id in info && !info[posts[i].id].draft
      && posts[i].stageId == info[posts[i].id].stageId
      && posts[i].id in goal && goal[posts[i].id] == i + 1
  }

  /** Every stage ordered and fully required, no two of the same order, and every post in one. */
  ghost predicate StrictStages(stageOrder: map<int, int>, rows: seq<StageRow>, posts: seq<Post>) {
    && (forall i, j | 0 <= i < j < |rows| :: rows[i].id != rows[j].id && rows[i].order != rows[j].order)
    && (forall row | row in rows ::
          row.orderMatters && row.requiredCount == None && row.id in stageOrder && stageOrder[row.id] == row.order)
    && (forall i | 0 <= i < |posts| :: exists row | row in rows :: posts[i].stageId == Some(row.id))
  }

  lemma StagesKeepNumberOrder(info: map<int, Info>, stageOrder: map<int, int>, order: map<int, int>,
                              posts: seq<Post>, p: nat, q: nat, a: int, b: int)
    requires order.Keys == info.Keys && Unique(order)
    requires PublishedListing(info, Goal(info, stageOrder, order), posts)
    requires p < |posts| && q < |posts| && posts[p].stageId == Some(a) && posts[q].stageId == Some(b)
    requires a in stageOrder && b in stageOrder && stageOrder[a] < stageOrder[b]
    ensures p < q
  {
    UniqueRowsAreATable(info, stageOrder, order);
    var x, y := posts[p].id, posts[q].id;
    GroupsInOrder(RowsOf(info, stageOrder, order), SlotOf(x, info[x], stageOrder, order[x]),
                  SlotOf(y, info[y], stageOrder, order[y]));
  }

  lemma ListingIsRoute(info: map<int, Info>, goal: map<int, int>, posts: seq<Post>)
    requires goal.Keys == info.Keys && PublishedListing(info, goal, posts)
    ensures Route(posts)
  {
    forall p, q | p in posts && q in posts && p.id == q.id ensures p == q {
      var i :| 0 <= i < |posts| && posts[i] == p;
      var j :| 0 <= j < |posts| && posts[j] == q;
    }
  }

  lemma StageHolds(stageOrder: map<int, int>, rows: seq<StageRow>, posts: seq<Post>, i: nat)
    requires Route(posts) && StrictStages(stageOrder, rows, posts) && i < |StagesOf(rows, posts)|
    ensures var s := StagesOf(rows, posts)[i];
            && s.orderMatters && s.Required() == |s.posts|
            && s.id in stageOrder && stageOrder[s.id] == s.order
  {
    var row := RowFor(rows, Grouped(posts), i);
  }

  lemma PostIsStaged(stageOrder: map<int, int>, rows: seq<StageRow>, posts: seq<Post>, p: nat)
    requires Route(posts) && StrictStages(stageOrder, rows, posts) && p < |posts|
    ensures Staged(posts[p].order, StagesOf(rows, posts))
  {
    var stages, post, order := StagesOf(rows, posts), posts[p], posts[p].order;
    var row :| row in rows && post.stageId == Some(row.id);
    var s := MakeStage(row, Grouped(posts));
    GroupedMeaning(posts, row.id, order);
    StagePosts(row, Grouped(posts));
    assert post in posts && order in s.posts;
    var i := StageFor(rows, Grouped(posts), row);
    assert order in stages[i].posts;
  }

  lemma StagedIsPost(stageOrder: map<int, int>, rows: seq<StageRow>, posts: seq<Post>, order: int) returns (p: nat)
    requires Route(posts) && StrictStages(stageOrder, rows, posts) && Staged(order, StagesOf(rows, posts))
    ensures p < |posts| && posts[p].order == order
  {
    var stages := StagesOf(rows, posts);
    var i :| 0 <= i < |stages| && order in stages[i].posts;
    var row := RowFor(rows, Grouped(posts), i);
    StagePosts(row, Grouped(posts));
    GroupedMeaning(posts, row.id, order);
    var post :| post in posts && post.stageId == Some(row.id) && post.order == order;
    p :| 0 <= p < |posts| && posts[p] == post;
  }

  lemma EveryPostStaged(stageOrder: map<int, int>, rows: seq<StageRow>, posts: seq<Post>, order: int)
    requires Route(posts) && StrictStages(stageOrder, rows, posts)
    requires forall i | 0 <= i < |posts| :: posts[i].order == i + 1
    ensures Staged(order, StagesOf(rows, posts)) <==> Within(order, |posts|)
  {
    if Within(order, |posts|) { PostIsStaged(stageOrder, rows, posts, order - 1); }
    if Staged(order, StagesOf(rows, posts)) { var p := StagedIsPost(stageOrder, rows, posts, order); }
  }

  lemma StagesAscend(info: map<int, Info>, stageOrder: map<int, int>, order: map<int, int>,
                     rows: seq<StageRow>, posts: seq<Post>, i: nat, j: nat, p: int, q: int)
    requires order.Keys == info.Keys && Unique(order)
    requires PublishedListing(info, Goal(info, stageOrder, order), posts) && Route(posts)
    requires StrictStages(stageOrder, rows, posts)
    requires i < j < |StagesOf(rows, posts)|
    requires p in StagesOf(rows, posts)[i].posts && q in StagesOf(rows, posts)[j].posts
    ensures p < q
  {
    var stages := StagesOf(rows, posts);
    LoadedStagesWellFormed(rows, posts);
    DistinctOrdersStrict(rows, Grouped(posts));
    StageHolds(stageOrder, rows, posts, i);
    StageHolds(stageOrder, rows, posts, j);
    assert stages[i] in stages && stages[j] in stages;
    var x :| x in posts && x.stageId == Some(stages[i].id) && x.order == p;
    var y :| y in posts && y.stageId == Some(stages[j].id) && y.order == q;
    var k :| 0 <= k < |posts| && posts[k] == x;
    var l :| 0 <= l < |posts| && posts[l] == y;
    StagesKeepNumberOrder(info, stageOrder, order, posts, k, l, stages[i].id, stages[j].id);
  }

  /** Renumber, load the stages, and the stage gate is the sequential rule. */
  lemma RenumberedRouteIsSequential(info: map<int, Info>, stageOrder: map<int, int>, order: map<int, int>,
                                    rows: seq<StageRow>, posts: seq<Post>)
    requires order.Keys == info.Keys && Unique(order)
    requires PublishedListing(info, Goal(info, stageOrder, order), posts)
    requires StrictStages(stageOrder, rows, posts)
    ensures Sequential(StagesOf(rows, posts), |posts|)
  {
    var stages := StagesOf(rows, posts);
    ListingIsRoute(info, Goal(info, stageOrder, order), posts);
    LoadedStagesWellFormed(rows, posts);
    DistinctOrdersStrict(rows, Grouped(posts));
    forall p ensures Staged(p, stages) <==> Within(p, |posts|) { EveryPostStaged(stageOrder, rows, posts, p); }
    forall i | 0 <= i < |stages| ensures stages[i].orderMatters && stages[i].Required() == |stages[i].posts| {
      StageHolds(stageOrder, rows, posts, i);
    }
    forall i, j, p, q | 0 <= i < j < |stages| && p in stages[i].posts && q in stages[j].posts ensures p < q {
      StagesAscend(info, stageOrder, order, rows, posts, i, j, p, q);
    }
  }
}
