/**
 Where a team may go next: which posts count as resolved, how the stages of the current route
 are assembled, and how the stage rule and the plain counting rule relate.
 */
module RouteProgress {
  import opened RouteRuns
  import opened RouteStages
  import opened Sets
  import opened Wrappers

  datatype Post = Post(id: int, order: int, stageId: Option<int>, opens: Option<int>, closes: Option<int>)

  // ---- Resolved posts ---------------------------------------------------------------------

  /** What a team has done so far, as the tables record it. */
  datatype Record = Record(skipped: set<int>, arrived: set<int>, completed: set<int>)

  function ActiveAt(active: map<int, seq<int>>, post: int): seq<int> {
    if post in active then active[post] else []
  }

  predicate IsDone(post: Post, active: map<int, seq<int>>, rec: Record, ignore: Option<int>) {
    || post.id in rec.skipped
    || (ActiveAt(active, post.id) != [] && forall a | a in ActiveAt(active, post.id) :: a in rec.completed)
    || (ActiveAt(active, post.id) == [] && post.id in rec.arrived && ignore != Some(post.id))
  }

  function ResolvedOrders(posts: seq<Post>, active: map<int, seq<int>>, rec: Record, ignore: Option<int>): set<int> {
    set p | p in posts && IsDone(p, active, rec, ignore) :: p.order
  }

  method ResolvedCheckpointOrders(posts: seq<Post>, active: map<int, seq<int>>, rec: Record, ignore: Option<int>)
    returns (resolved: set<int>)
    ensures resolved == ResolvedOrders(posts, active, rec, ignore)
  {
    resolved := {};
    for k := 0 to |posts|
      invariant resolved == ResolvedOrders(posts[..k], active, rec, ignore)
    {
      var cp := posts[k];
      assert posts[..k+1] == posts[..k] + [cp];
      ResolvedSnoc(posts[..k], cp, active, rec, ignore);
      if cp.id in rec.skipped {
        resolved := resolved + {cp.order};
        continue;
      }
      var ids := ActiveAt(active, cp.id);
      if ids != [] {
        if forall a | a in ids :: a in rec.completed {
          resolved := resolved + {cp.order};
        }
      } else if cp.id in rec.arrived && ignore != Some(cp.id) {
        resolved := resolved + {cp.order};
      }
    }
    assert posts[..|posts|] == posts;
  }

  lemma ResolvedSnoc(posts: seq<Post>, cp: Post, active: map<int, seq<int>>, rec: Record, ignore: Option<int>)
    ensures ResolvedOrders(posts + [cp], active, rec, ignore) ==
            ResolvedOrders(posts, active, rec, ignore) + (if IsDone(cp, active, rec, ignore) then {cp.order} else {})
  {
    var all := posts + [cp];
    assert forall p :: p in all <==> p in posts || p == cp;
  }

  ghost predicate Route(posts: seq<Post>) {
    && (forall i, j | 0 <= i < j < |posts| :: posts[i].order < posts[j].order)
    && (forall p, q | p in posts && q in posts && p.id == q.id :: p == q)
  }

  lemma OrderNamesPost(posts: seq<Post>, p: Post, q: Post)
    requires Route(posts) && p in posts && q in posts && p.order == q.order
    ensures p == q
  {
    var i :| 0 <= i < |posts| && posts[i] == p;
    var j :| 0 <= j < |posts| && posts[j] == q;
  }

  /** Writing a team's own arrival row never changes what the gate for that post sees. */
  lemma ArrivalInvisible(posts: seq<Post>, active: map<int, seq<int>>, rec: Record, target: int)
    ensures ResolvedOrders(posts, active, rec.(arrived := rec.arrived + {target}), Some(target)) ==
            ResolvedOrders(posts, active, rec, Some(target))
  {
    var after := rec.(arrived := rec.arrived + {target});
    forall p | p in posts ensures IsDone(p, active, after, Some(target)) <==> IsDone(p, active, rec, Some(target)) {
    }
  }

  /** The gate for a post finds it resolved exactly when it was skipped or judged; an arrival never does it. */
  lemma TargetResolvedIff(posts: seq<Post>, active: map<int, seq<int>>, rec: Record, target: Post)
    requires Route(posts) && target in posts
    ensures target.order in ResolvedOrders(posts, active, rec, Some(target.id)) <==>
            target.id in rec.skipped ||
            (ActiveAt(active, target.id) != [] && forall a | a in ActiveAt(active, target.id) :: a in rec.completed)
    ensures target.order in ResolvedOrders(posts, active, rec, None) <==>
            target.order in ResolvedOrders(posts, active, rec, Some(target.id)) ||
            (ActiveAt(active, target.id) == [] && target.id in rec.arrived)
  {
    forall ignore
      ensures target.order in ResolvedOrders(posts, active, rec, ignore) <==> IsDone(target, active, rec, ignore)
    {
      if target.order in ResolvedOrders(posts, active, rec, ignore) {
        var p :| p in posts && IsDone(p, active, rec, ignore) && p.order == target.order;
        OrderNamesPost(posts, p, target);
      }
    }
  }

  // ---- Loading the stages ------------------------------------------------------------------

  function Grouped(posts: seq<Post>): map<int, seq<int>> {
    if posts == [] then map[]
    else
      var groups, cp := Grouped(posts[..|posts| - 1]), posts[|posts| - 1];
      match cp.stageId
      case None => groups
      case Some(sid) => groups[sid := (if sid in groups then groups[sid] else []) + [cp.order]]
  }

  function StagesOf(rows: seq<StageRow>, posts: seq<Post>): seq<Stage> {
    BuildStages(rows, Grouped(posts))
  }

  method LoadStages(rows: seq<StageRow>, posts: seq<Post>) returns (stages: seq<Stage>)
    ensures stages == StagesOf(rows, posts)
  {
    if rows == [] { return []; }
    var ordersByStage: map<int, seq<int>> := map[];
    for k := 0 to |posts|
      invariant ordersByStage == Grouped(posts[..k])
    {
      assert posts[..k+1][..k] == posts[..k];
      var cp := posts[k];
      if cp.stageId != None {
        var sid := cp.stageId.value;
        if sid !in ordersByStage { ordersByStage := ordersByStage[sid := []]; }
        ordersByStage := ordersByStage[sid := ordersByStage[sid] + [cp.order]];
      }
    }
    assert posts[..|posts|] == posts;
    stages := BuildStages(rows, ordersByStage);
  }

  lemma {:induction false} GroupedMeaning(posts: seq<Post>, sid: int, order: int)
    ensures sid in Grouped(posts) && order in Grouped(posts)[sid] <==>
            exists p | p in posts :: p.stageId == Some(sid) && p.order == order
  {
    if posts != [] {
      var init, cp := posts[..|posts| - 1], posts[|posts| - 1];
      GroupedMeaning(init, sid, order);
      assert posts == init + [cp];
      assert forall p :: p in posts <==> p in init || p == cp;
    }
  }

  /** The stages of a route are sorted, disjoint, and hold exactly the posts assigned to them. */
  lemma LoadedStagesWellFormed(rows: seq<StageRow>, posts: seq<Post>)
    requires Route(posts)
    requires forall i, j | 0 <= i < j < |rows| :: rows[i].id != rows[j].id
    ensures WellFormed(StagesOf(rows, posts))
    ensures forall s, order | s in StagesOf(rows, posts) ::
              order in s.posts <==> exists p | p in posts :: p.stageId == Some(s.id) && p.order == order
  {
    var groups := Grouped(posts);
    forall a, b, order | a in groups && b in groups && a != b && order in groups[a] ensures order !in groups[b] {
      GroupedMeaning(posts, a, order);
      GroupedMeaning(posts, b, order);
      if order in groups[b] {
        var p :| p in posts && p.stageId == Some(a) && p.order == order;
        var q :| q in posts && q.stageId == Some(b) && q.order == order;
        OrderNamesPost(posts, p, q);
      }
    }
    BuildStagesWellFormed(rows, groups);
    forall s, order | s in StagesOf(rows, posts)
      ensures order in s.posts <==> exists p | p in posts :: p.stageId == Some(s.id) && p.order == order
    {
      var i :| 0 <= i < |StagesOf(rows, posts)| && StagesOf(rows, posts)[i] == s;
      var row := RowFor(rows, groups, i);
      GroupedMeaning(posts, s.id, order);
      StagePosts(row, groups);
    }
  }

  // ---- The decision -----------------------------------------------------------------------

  /** The rule for a route without stages. */
  predicate IsCheckpointReachable(order: int, timesReached: nat, orderMatters: bool) {
    if orderMatters then timesReached == order - 1 else order > timesReached
  }

  predicate IsOpen(post: Post, now: int) {
    && !(post.opens.Some? && now < post.opens.value)
    && !(post.closes.Some? && now > post.closes.value)
  }

  datatype Settings = Settings(hoursEnabled: bool, stagesEnabled: bool, orderMatters: bool)

  datatype Door = Open | NotYet | Closed

  function OpeningState(post: Post, now: int): Door {
    if post.opens.Some? && now < post.opens.value then NotYet
    else if post.closes.Some? && now > post.closes.value then Closed
    else Open
  }

  function HoursBlockReason(post: Post, settings: Settings, now: int): Option<Door> {
    if !settings.hoursEnabled || IsOpen(post, now) then None else Some(OpeningState(post, now))
  }

  predicate CanReach(post: Post, rows: seq<StageRow>, posts: seq<Post>, active: map<int, seq<int>>, rec: Record,
                     timesReached: nat, settings: Settings, now: int, enforceHours: bool)
  {
    if enforceHours && HoursBlockReason(post, settings, now) != None then false
    else if settings.stagesEnabled && StagesOf(rows, posts) != [] then
      IsReachable(post.order, StagesOf(rows, posts), ResolvedOrders(posts, active, rec, Some(post.id)))
    else IsCheckpointReachable(post.order, timesReached, settings.orderMatters)
  }

  /** Recording the arrival first, then deciding, gives the decision that held before recording. */
  lemma DecisionIgnoresOwnArrival(post: Post, rows: seq<StageRow>, posts: seq<Post>, active: map<int, seq<int>>,
                                  rec: Record, timesReached: nat, settings: Settings, now: int, enforceHours: bool)
    ensures CanReach(post, rows, posts, active, rec.(arrived := rec.arrived + {post.id}),
                     timesReached, settings, now, enforceHours) ==
            CanReach(post, rows, posts, active, rec, timesReached, settings, now, enforceHours)
  {
    ArrivalInvisible(posts, active, rec, post.id);
  }

  /**
   Under stages the decision is open to a second check-in at a post with nothing to judge:
   whoever could reach it still can after arriving, and after being counted there.
   */
  lemma UnjudgedPostStaysOpen(post: Post, rows: seq<StageRow>, posts: seq<Post>, active: map<int, seq<int>>,
                              rec: Record, before: nat, after: nat, settings: Settings, now: int)
    requires settings.stagesEnabled && StagesOf(rows, posts) != [] && ActiveAt(active, post.id) == []
    requires CanReach(post, rows, posts, active, rec, before, settings, now, true)
    ensures CanReach(post, rows, posts, active, rec.(arrived := rec.arrived + {post.id}), after, settings, now, true)
  {
    ArrivalInvisible(posts, active, rec, post.id);
  }

  // ---- Stages against counting ---------------------------------------------------------------

  ghost predicate Within(p: int, n: nat) { 1 <= p <= n }

  ghost predicate Staged(p: int, stages: seq<Stage>) {
    exists i | 0 <= i < |stages| :: p in stages[i].posts
  }

  /** Posts 1..n cut into consecutive stages, every stage ordered and fully required. */
  ghost predicate Sequential(stages: seq<Stage>, n: nat) {
    && WellFormed(stages)
    && (forall p :: Staged(p, stages) <==> Within(p, n))
    && (forall i | 0 <= i < |stages| :: stages[i].orderMatters && stages[i].Required() == |stages[i].posts|)
    && (forall i, j | 0 <= i < j < |stages| :: stages[i].order < stages[j].order)
    && (forall i, j, p, q | 0 <= i < j < |stages| && p in stages[i].posts && q in stages[j].posts :: p < q)
  }

  ghost predicate AllBefore(post: int, resolved: set<int>) {
    forall q | 1 <= q < post :: q in resolved
  }

  lemma StageOf(stages: seq<Stage>, n: nat, post: int) returns (i: nat)
    requires Sequential(stages, n) && 1 <= post <= n
    ensures i < |stages| && post in stages[i].posts
  {
    assert Within(post, n) && Staged(post, stages);
    i :| 0 <= i < |stages| && post in stages[i].posts;
  }

  lemma GatedBehind(stages: seq<Stage>, n: nat, i: nat, post: int, resolved: set<int>)
    requires Sequential(stages, n) && i < |stages| && post in stages[i].posts && 1 <= post <= n
    requires GateOf(i, post, stages, resolved)
    ensures AllBefore(post, resolved)
  {
    forall q | 1 <= q < post ensures q in resolved {
      var j := StageOf(stages, n, q);
      if j < i {
        assert IsComplete(stages[j], resolved);
        FullyResolved(stages[j].posts, resolved);
      }
    }
  }

  lemma BehindGated(stages: seq<Stage>, n: nat, i: nat, post: int, resolved: set<int>)
    requires Sequential(stages, n) && i < |stages| && post in stages[i].posts && 1 <= post <= n
    requires post !in resolved && AllBefore(post, resolved)
    ensures GateOf(i, post, stages, resolved)
  {
    forall j | 0 <= j < |stages| && stages[j].order < stages[i].order ensures IsComplete(stages[j], resolved) {
      assert j < i;
      forall p | p in stages[j].posts ensures p in resolved { assert Staged(p, stages) && Within(p, n); }
      FullyResolved(stages[j].posts, resolved);
    }
    forall o | o in stages[i].posts && o < post ensures o in resolved { assert Staged(o, stages) && Within(o, n); }
  }

  lemma SequentialGate(stages: seq<Stage>, n: nat, post: int, resolved: set<int>)
    requires Sequential(stages, n) && 1 <= post <= n
    ensures IsReachable(post, stages, resolved) <==> post !in resolved && AllBefore(post, resolved)
  {
    var i := StageOf(stages, n, post);
    GateMeaning(post, stages, resolved);
    if GateOf(i, post, stages, resolved) {
      GatedBehind(stages, n, i, post, resolved);
    } else if post !in resolved && AllBefore(post, resolved) {
      BehindGated(stages, n, i, post, resolved);
    }
  }

  ghost predicate Counting(run: seq<int>) {
    forall i | 0 <= i < |run| :: run[i] == i + 1
  }

  ghost function UpTo(k: nat): set<int> { set p: int | 1 <= p <= k && Within(p, k) }

  lemma CountingSet(run: seq<int>)
    requires Counting(run)
    ensures SetOf(run) == UpTo(|run|)
  {
    forall p | p in UpTo(|run|) ensures p in run { assert run[p-1] == p; }
  }

  lemma NextAfterPrefix(k: nat, post: int)
    requires post >= 1
    ensures post !in UpTo(k) && AllBefore(post, UpTo(k)) <==> post == k + 1
  {
    assert AllBefore(post, UpTo(k)) && post > k + 1 ==> k + 1 in UpTo(k);
    assert Within(post, k) <==> post in UpTo(k);
    forall q | 1 <= q < post && post == k + 1 ensures q in UpTo(k) { assert Within(q, k); }
  }

  /** The gated runs of a sequential route are 1, 2, ..., k and nothing else. */
  lemma {:induction false} SequentialRuns(stages: seq<Stage>, n: nat, run: seq<int>)
    requires Sequential(stages, n) && forall p | p in run :: 1 <= p <= n
    ensures IsRun(stages, run) <==> Counting(run)
  {
    if run != [] {
      var before, last := run[..|run| - 1], run[|run| - 1];
      assert last in run && forall p | p in before :: p in run;
      SequentialRuns(stages, n, before);
      assert Counting(run) <==> Counting(before) && last == |before| + 1;
      if Counting(before) { SequentialStep(stages, n, before, last); }
    }
  }

  lemma SequentialStep(stages: seq<Stage>, n: nat, before: seq<int>, last: int)
    requires Sequential(stages, n) && Counting(before) && 1 <= last <= n
    ensures IsReachable(last, stages, SetOf(before)) <==> last == |before| + 1
  {
    CountingSet(before);
    SequentialGate(stages, n, last, SetOf(before));
    NextAfterPrefix(|before|, last);
  }

  /** With k posts behind it a team may check in where the strict counting rule lets it. */
  lemma StageRuleRefinesCountRule(stages: seq<Stage>, n: nat, k: nat, post: int)
    requires Sequential(stages, n) && k <= n && 1 <= post <= n
    ensures IsReachable(post, stages, UpTo(k)) <==> IsCheckpointReachable(post, k, true)
  {
    SequentialGate(stages, n, post, UpTo(k));
    NextAfterPrefix(k, post);
  }

  /** A run of check-ins on a route 1..n under the counting rule. */
  ghost predicate IsCountRun(n: nat, orderMatters: bool, run: seq<int>) {
    forall i | 0 <= i < |run| :: 1 <= run[i] <= n && IsCheckpointReachable(run[i], i, orderMatters)
  }

  /** Sequential stages and strict counting admit the same runs. */
  lemma {:induction false} SameRuns(stages: seq<Stage>, n: nat, run: seq<int>)
    requires Sequential(stages, n) && forall p | p in run :: 1 <= p <= n
    ensures IsRun(stages, run) <==> IsCountRun(n, true, run)
  {
    SequentialRuns(stages, n, run);
    forall i | 0 <= i < |run| ensures 1 <= run[i] <= n { assert run[i] in run; }
  }

  /** Either counting mode allows at most one check-in per post of the route. */
  lemma CountRunLength(n: nat, orderMatters: bool, run: seq<int>)
    requires IsCountRun(n, orderMatters, run)
    ensures |run| <= n
  {
    if run != [] {
      var i := |run| - 1;
      assert 1 <= run[i] <= n && IsCheckpointReachable(run[i], i, orderMatters);
    }
  }

  /**
   Free order is not free: the only way to visit every post of 1..n once under the relaxed
   counting rule is 1, 2, ..., n, because a check-in anywhere closes the lowest open post.
   */
  lemma {:induction false} FreeOrderFullTourIsSequential(n: nat, run: seq<int>)
    requires |run| == n && forall i, j | 0 <= i < j < n :: run[i] != run[j]
    ensures IsCountRun(n, false, run) <==> Counting(run)
  {
    if n > 0 && IsCountRun(n, false, run) {
      var before := run[..n-1];
      assert run[n-1] == n;
      assert IsCountRun(n - 1, false, before);
      FreeOrderFullTourIsSequential(n - 1, before);
      assert forall i | 0 <= i < n - 1 :: run[i] == before[i];
    }
  }

  ghost predicate NeverRepeats(n: nat) {
    forall run | IsCountRun(n, false, run) :: NoDuplicates(run)
  }

  /** The relaxed rule keeps a team from being counted twice at a post only where there is no second post. */
  lemma FreeOrderCanRepeatIff(n: nat)
    ensures !NeverRepeats(n) <==> n >= 2
  {
    if n >= 2 {
      var twice := [n, n];
      assert IsCountRun(n, false, twice) && twice[0] == twice[1];
      assert !NoDuplicates(twice);
    } else {
      forall run | IsCountRun(n, false, run) ensures NoDuplicates(run) { CountRunLength(n, false, run); }
    }
  }
}
