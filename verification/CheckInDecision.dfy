/**
 The check-in decision in terms of the tables: the posts, the stage rows and what is on record for
 the team, without the stages and sets that are computed on the way.
 */
module CheckInDecision {
  import opened RouteProgress
  import opened RouteStages
  import opened Sets
  import opened Sorting
  import opened Wrappers

  type Activities = map<int, seq<int>>

  /** Done with this post; a decision about the post `target` does not count an arrival there. */
  predicate DoneWith(p: Post, active: Activities, rec: Record, target: Option<int>) {
    var judged := if p.id in active then active[p.id] else [];
    || p.id in rec.skipped
    || if judged == [] then p.id in rec.arrived && target != Some(p.id) else forall a | a in judged :: a in rec.completed
  }

  /** The posts of a stage, and those of them the team is done with, by their orders. */
  function PostsIn(posts: seq<Post>, stage: int): set<int> { set q | q in posts && q.stageId == Some(stage) :: q.order }

  function DoneIn(posts: seq<Post>, active: Activities, rec: Record, target: Option<int>, stage: int): set<int> {
    set q | q in posts && q.stageId == Some(stage) && DoneWith(q, active, rec, target) :: q.order
  }

  /** So many posts of the stage are done as its row asks for: all, or a count that is clamped to what it has. */
  predicate Served(row: StageRow, posts: seq<Post>, active: Activities, rec: Record, target: Option<int>) {
    var n := |PostsIn(posts, row.id)|;
    |DoneIn(posts, active, rec, target, row.id)| >=
    if row.requiredCount == None || row.requiredCount.value > n then n else row.requiredCount.value
  }

  /** Opening hours, where they are enforced. */
  predicate DoorOpen(post: Post, settings: Settings, now: int, enforceHours: bool) {
    enforceHours && settings.hoursEnabled ==>
      (post.opens.Some? ==> post.opens.value <= now) && (post.closes.Some? ==> now <= post.closes.value)
  }

  ghost predicate IdsOnce(rows: seq<StageRow>) { forall i, j | 0 <= i < j < |rows| :: rows[i].id != rows[j].id }

  // ---- From the tables to the stages ----------------------------------------------------------------

  lemma DoneIsResolved(posts: seq<Post>, active: Activities, rec: Record, target: Option<int>, q: Post)
    requires Route(posts) && q in posts
    ensures q.order in ResolvedOrders(posts, active, rec, target) <==> DoneWith(q, active, rec, target)
  {
    if q.order in ResolvedOrders(posts, active, rec, target) {
      var p :| p in posts && IsDone(p, active, rec, target) && p.order == q.order;
      OrderNamesPost(posts, p, q);
    }
  }

  lemma {:induction false} GroupedOnce(posts: seq<Post>, stage: int)
    requires forall i, j | 0 <= i < j < |posts| :: posts[i].order != posts[j].order
    ensures stage in Grouped(posts) ==> NoDuplicates(Grouped(posts)[stage])
  {
    if posts != [] {
      var front, last := posts[..|posts| - 1], posts[|posts| - 1];
      GroupedOnce(front, stage);
      GroupedMeaning(front, stage, last.order);
    }
  }

  /** The stage built from a row has the posts that name it, each once. */
  lemma {:induction false} StageIsRow(row: StageRow, posts: seq<Post>)
    requires Route(posts)
    ensures var s := MakeStage(row, Grouped(posts));
            && NoDuplicates(s.posts) && |s.posts| == |PostsIn(posts, row.id)|
            && forall o :: o in s.posts <==> o in PostsIn(posts, row.id)
  {
    var groups := Grouped(posts);
    var s, listed := MakeStage(row, groups), if row.id in groups then groups[row.id] else [];
    StagePosts(row, groups);
    GroupedOnce(posts, row.id);
    PermutedNoDuplicates(listed, s.posts);
    forall o ensures o in s.posts <==> o in PostsIn(posts, row.id) { GroupedMeaning(posts, row.id, o); }
    DistinctListSize(s.posts);
    assert (set o | o in s.posts) == PostsIn(posts, row.id);
  }

  lemma {:induction false} OpenedIsServed(row: StageRow, posts: seq<Post>, active: Activities, rec: Record,
                                        target: Option<int>)
    requires Route(posts)
    ensures var s, resolved := MakeStage(row, Grouped(posts)), ResolvedOrders(posts, active, rec, target);
            Opened(s, resolved) <==> Served(row, posts, active, rec, target)
  {
    var s, resolved := MakeStage(row, Grouped(posts)), ResolvedOrders(posts, active, rec, target);
    var all, done := PostsIn(posts, row.id), DoneIn(posts, active, rec, target, row.id);
    StageIsRow(row, posts);
    forall q | q in posts ensures q.order in resolved <==> DoneWith(q, active, rec, target) {
      DoneIsResolved(posts, active, rec, target, q);
    }
    DoneOfStage(s.posts, resolved, posts, active, rec, target, row.id);
    AllOrEnough(s.posts, resolved, all, done);
  }

  lemma DoneOfStage(orders: seq<int>, resolved: set<int>, posts: seq<Post>, active: Activities, rec: Record,
                    target: Option<int>, stage: int)
    requires forall o :: o in orders <==> o in PostsIn(posts, stage)
    requires Route(posts) && forall q | q in posts :: q.order in resolved <==> DoneWith(q, active, rec, target)
    ensures DoneOf(orders, resolved) == DoneIn(posts, active, rec, target, stage)
  {
    var done := DoneIn(posts, active, rec, target, stage);
    forall o ensures o in DoneOf(orders, resolved) <==> o in done {
      if o in DoneOf(orders, resolved) {
        assert o in PostsIn(posts, stage);
        var q :| q in posts && q.stageId == Some(stage) && q.order == o;
        assert DoneWith(q, active, rec, target);
      }
    }
  }

  /** All of them is as many as there are. */
  lemma AllOrEnough(orders: seq<int>, resolved: set<int>, all: set<int>, done: set<int>)
    requires forall o :: o in orders <==> o in all
    requires DoneOf(orders, resolved) == done
    ensures done <= all && (|done| >= |all| <==> forall p | p in orders :: p in resolved)
  {
    forall o | o in done ensures o in all { assert o in DoneOf(orders, resolved); }
    SubsetCardinality(done, all);
    if forall p | p in orders :: p in resolved {
      forall o | o in all ensures o in done { assert o in orders; }
      assert done == all;
    }
  }

  lemma StagesListOnce(rows: seq<StageRow>, posts: seq<Post>)
    requires Route(posts)
    ensures PostsOnce(StagesOf(rows, posts))
  {
    forall i | 0 <= i < |StagesOf(rows, posts)| ensures NoDuplicates(StagesOf(rows, posts)[i].posts) {
      var row := RowFor(rows, Grouped(posts), i);
      StageIsRow(row, posts);
    }
  }

  // ---- The decision ------------------------------------------------------------------------------------

  lemma DoorDecides(post: Post, rows: seq<StageRow>, posts: seq<Post>, active: Activities, rec: Record,
                    times: nat, settings: Settings, now: int, enforceHours: bool)
    ensures CanReach(post, rows, posts, active, rec, times, settings, now, enforceHours) <==>
            DoorOpen(post, settings, now, enforceHours) && CanReach(post, rows, posts, active, rec, times, settings, now, false)
  {
  }

  /** Earlier stages and earlier posts of the own stage, as the tables have them. */
  ghost predicate MayEnter(post: Post, row: StageRow, rows: seq<StageRow>, posts: seq<Post>, active: Activities, rec: Record) {
    && !DoneWith(post, active, rec, Some(post.id))
    && (forall other | other in rows && other.order < row.order :: Served(other, posts, active, rec, Some(post.id)))
    && (row.orderMatters ==>
          forall q | q in posts && q.stageId == Some(row.id) && q.order < post.order :: DoneWith(q, active, rec, Some(post.id)))
  }

  lemma EarlierAreServed(rows: seq<StageRow>, posts: seq<Post>, active: Activities, rec: Record,
                         target: Option<int>, bound: int)
    requires Route(posts)
    ensures var stages, resolved := StagesOf(rows, posts), ResolvedOrders(posts, active, rec, target);
            (forall j | 0 <= j < |stages| && stages[j].order < bound :: Opened(stages[j], resolved)) <==>
            (forall other | other in rows && other.order < bound :: Served(other, posts, active, rec, target))
  {
    var stages, resolved := StagesOf(rows, posts), ResolvedOrders(posts, active, rec, target);
    forall other | other in rows
      ensures Opened(MakeStage(other, Grouped(posts)), resolved) <==> Served(other, posts, active, rec, target)
      ensures exists j :: 0 <= j < |stages| && stages[j] == MakeStage(other, Grouped(posts))
    {
      OpenedIsServed(other, posts, active, rec, target);
      var j := StageFor(rows, Grouped(posts), other);
    }
    forall j | 0 <= j < |stages| ensures exists other :: other in rows && stages[j] == MakeStage(other, Grouped(posts)) {
      var other := RowFor(rows, Grouped(posts), j);
    }
  }

  lemma {:induction false} FrontIsDone(post: Post, row: StageRow, posts: seq<Post>, active: Activities, rec: Record)
    requires Route(posts)
    ensures var s, resolved := MakeStage(row, Grouped(posts)), ResolvedOrders(posts, active, rec, Some(post.id));
            (forall o | o in s.posts && o < post.order :: o in resolved) <==>
            forall q | q in posts && q.stageId == Some(row.id) && q.order < post.order :: DoneWith(q, active, rec, Some(post.id))
  {
    var s, resolved := MakeStage(row, Grouped(posts)), ResolvedOrders(posts, active, rec, Some(post.id));
    StageIsRow(row, posts);
    forall q | q in posts ensures q.order in resolved <==> DoneWith(q, active, rec, Some(post.id)) {
      DoneIsResolved(posts, active, rec, Some(post.id), q);
    }
    forall q | q in posts && q.stageId == Some(row.id) ensures q.order in s.posts { assert q.order in PostsIn(posts, row.id); }
    forall o | o in s.posts ensures exists q :: q in posts && q.stageId == Some(row.id) && q.order == o {
      assert o in PostsIn(posts, row.id);
    }
  }

  lemma OwnStageIndex(post: Post, row: StageRow, rows: seq<StageRow>, posts: seq<Post>) returns (i: nat)
    requires Route(posts) && post in posts && row in rows && post.stageId == Some(row.id)
    ensures i < |StagesOf(rows, posts)| && StagesOf(rows, posts)[i] == MakeStage(row, Grouped(posts))
    ensures post.order in StagesOf(rows, posts)[i].posts
  {
    i := StageFor(rows, Grouped(posts), row);
    StageIsRow(row, posts);
    assert post.order in PostsIn(posts, row.id);
  }

  lemma {:induction false} GateAtRow(post: Post, row: StageRow, rows: seq<StageRow>, posts: seq<Post>, resolved: set<int>)
    requires Route(posts) && IdsOnce(rows) && post in posts && row in rows && post.stageId == Some(row.id)
    ensures var stages := StagesOf(rows, posts);
            IsReachable(post.order, stages, resolved) <==>
            && post.order !in resolved
            && (forall j | 0 <= j < |stages| && stages[j].order < row.order :: Opened(stages[j], resolved))
            && (row.orderMatters ==> forall o | o in MakeStage(row, Grouped(posts)).posts && o < post.order :: o in resolved)
  {
    StagesAreGood(rows, posts);
    var i := OwnStageIndex(post, row, rows, posts);
    GateInCounts(post.order, StagesOf(rows, posts), resolved, i);
  }

  lemma {:induction false} StagesAreGood(rows: seq<StageRow>, posts: seq<Post>)
    requires Route(posts) && IdsOnce(rows)
    ensures WellFormed(StagesOf(rows, posts)) && PostsOnce(StagesOf(rows, posts))
  {
    LoadedStagesWellFormed(rows, posts);
    StagesListOnce(rows, posts);
  }

  lemma StagedGate(post: Post, row: StageRow, rows: seq<StageRow>, posts: seq<Post>, active: Activities, rec: Record)
    requires Route(posts) && IdsOnce(rows) && post in posts && row in rows && post.stageId == Some(row.id)
    ensures IsReachable(post.order, StagesOf(rows, posts), ResolvedOrders(posts, active, rec, Some(post.id))) <==>
            MayEnter(post, row, rows, posts, active, rec)
  {
    GateAtRow(post, row, rows, posts, ResolvedOrders(posts, active, rec, Some(post.id)));
    DoneIsResolved(posts, active, rec, Some(post.id), post);
    EarlierAreServed(rows, posts, active, rec, Some(post.id), row.order);
    FrontIsDone(post, row, posts, active, rec);
  }

  /**
   On stages, a post of one: the door is open, the team is not done with the post, each stage row of
   smaller order is served, and if the own row is ordered its earlier posts are done.
   */
  lemma StagedDecision(post: Post, row: StageRow, rows: seq<StageRow>, posts: seq<Post>, active: Activities, rec: Record,
                       times: nat, settings: Settings, now: int, enforceHours: bool)
    requires Route(posts) && IdsOnce(rows) && post in posts && row in rows && post.stageId == Some(row.id)
    requires settings.stagesEnabled
    ensures CanReach(post, rows, posts, active, rec, times, settings, now, enforceHours) <==>
            DoorOpen(post, settings, now, enforceHours) && MayEnter(post, row, rows, posts, active, rec)
  {
    DoorDecides(post, rows, posts, active, rec, times, settings, now, enforceHours);
    assert |StagesOf(rows, posts)| == |rows|;
    StagedGate(post, row, rows, posts, active, rec);
  }

  lemma NotOfThatStage(posts: seq<Post>, post: Post, stage: int)
    requires Route(posts) && post in posts && post.stageId != Some(stage)
    ensures post.order !in PostsIn(posts, stage)
  {
    forall q | q in posts && q.stageId == Some(stage) ensures q.order != post.order {
      if q.order == post.order { OrderNamesPost(posts, q, post); }
    }
  }

  /** On stages, a post outside all of them needs only an open door and not to be done. */
  lemma UnstagedDecision(post: Post, rows: seq<StageRow>, posts: seq<Post>, active: Activities, rec: Record,
                         times: nat, settings: Settings, now: int, enforceHours: bool)
    requires Route(posts) && IdsOnce(rows) && post in posts && settings.stagesEnabled && rows != []
    requires forall row | row in rows :: post.stageId != Some(row.id)
    ensures CanReach(post, rows, posts, active, rec, times, settings, now, enforceHours) <==>
            DoorOpen(post, settings, now, enforceHours) && !DoneWith(post, active, rec, Some(post.id))
  {
    var stages := StagesOf(rows, posts);
    LoadedStagesWellFormed(rows, posts);
    forall i | 0 <= i < |stages| ensures post.order !in stages[i].posts {
      var row := RowFor(rows, Grouped(posts), i);
      StageIsRow(row, posts);
      NotOfThatStage(posts, post, row.id);
    }
    GateMeaning(post.order, stages, ResolvedOrders(posts, active, rec, Some(post.id)));
    DoneIsResolved(posts, active, rec, Some(post.id), post);
    DoorDecides(post, rows, posts, active, rec, times, settings, now, enforceHours);
  }

  /** Without stages only the number of check-ins counts: the next post, or any the team has not got to. */
  lemma CountedDecision(post: Post, rows: seq<StageRow>, posts: seq<Post>, active: Activities, rec: Record,
                        times: nat, settings: Settings, now: int, enforceHours: bool)
    requires !settings.stagesEnabled || rows == []
    ensures CanReach(post, rows, posts, active, rec, times, settings, now, enforceHours) <==>
            && DoorOpen(post, settings, now, enforceHours)
            && if settings.orderMatters then post.order == times + 1 else post.order > times
  {
    assert |StagesOf(rows, posts)| == |rows|;
  }

  /** A closed door is named as not open yet or closed for good, and an open one not at all. */
  lemma DoorIsNamed(post: Post, settings: Settings, now: int)
    ensures HoursBlockReason(post, settings, now) == None <==> DoorOpen(post, settings, now, true)
    ensures HoursBlockReason(post, settings, now) == Some(NotYet) <==>
            settings.hoursEnabled && post.opens.Some? && now < post.opens.value
    ensures HoursBlockReason(post, settings, now) != Some(Open)
  {
  }
}
