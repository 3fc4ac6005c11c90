/**
 Progression through a route split into stages: exactly which sets of posts a team can ever have
 behind it, and that it never gets stuck.

 A run is a list of check-ins, each of which passed the gate on the posts resolved before it.
 */
module RouteRuns {
  import opened RouteStages
  import opened Sets
  import opened Sorting

  ghost function SetOf(run: seq<int>): set<int> { set p | p in run }

  /** Every check-in of the run passed the gate on the posts resolved before it. */
  ghost predicate IsRun(stages: seq<Stage>, run: seq<int>) {
    run == [] ||
    var before := run[..|run| - 1];
    IsRun(stages, before) && IsReachable(run[|run| - 1], stages, SetOf(before))
  }

  ghost predicate Touched(stage: Stage, resolved: set<int>) {
    exists p | p in stage.posts :: p in resolved
  }

  ghost predicate DownClosed(stage: Stage, resolved: set<int>) {
    forall o, p | o in stage.posts && p in stage.posts && o < p && p in resolved :: o in resolved
  }

  /** The states the rules intend: ordered stages filled from the front, no stage begun early. */
  ghost predicate Lawful(stages: seq<Stage>, resolved: set<int>) {
    && (forall i | 0 <= i < |stages| && stages[i].orderMatters :: DownClosed(stages[i], resolved))
    && (forall i, j | 0 <= i < |stages| && 0 <= j < |stages| && stages[j].order < stages[i].order
                      && Touched(stages[i], resolved) :: IsComplete(stages[j], resolved))
  }

  lemma SetOfSnoc(run: seq<int>, post: int)
    ensures SetOf(run + [post]) == SetOf(run) + {post}
    ensures (run + [post])[..|run + [post]| - 1] == run
  {
  }

  lemma {:induction false} RunSnoc(stages: seq<Stage>, run: seq<int>, post: int)
    requires IsRun(stages, run) && IsReachable(post, stages, SetOf(run))
    ensures IsRun(stages, run + [post])
    ensures SetOf(run + [post]) == SetOf(run) + {post}
  {
    SetOfSnoc(run, post);
  }

  lemma LawfulStep(stages: seq<Stage>, resolved: set<int>, post: int)
    requires WellFormed(stages) && Lawful(stages, resolved) && IsReachable(post, stages, resolved)
    ensures Lawful(stages, resolved + {post})
  {
    var after := resolved + {post};
    GateMeaning(post, stages, resolved);
    forall i | 0 <= i < |stages| && stages[i].orderMatters ensures DownClosed(stages[i], after) {
      assert DownClosed(stages[i], resolved);
      if post in stages[i].posts { assert GateOf(i, post, stages, resolved); }
    }
    forall i, j | 0 <= i < |stages| && 0 <= j < |stages| && stages[j].order < stages[i].order
                  && Touched(stages[i], after)
      ensures IsComplete(stages[j], after)
    {
      ResolvedInMonotone(stages[j].posts, resolved, after);
      if !Touched(stages[i], resolved) {
        assert post in stages[i].posts;
        assert GateOf(i, post, stages, resolved);
      }
      assert IsComplete(stages[j], resolved);
    }
  }

  lemma {:induction false} RunsAreLawful(stages: seq<Stage>, run: seq<int>)
    requires WellFormed(stages) && IsRun(stages, run)
    ensures Lawful(stages, SetOf(run))
  {
    if run != [] {
      var before := run[..|run| - 1];
      RunsAreLawful(stages, before);
      LawfulStep(stages, SetOf(before), run[|run| - 1]);
      assert run == before + [run[|run| - 1]];
      SetOfSnoc(before, run[|run| - 1]);
    }
  }

  /** The last touched stage, if any stage is touched. */
  lemma {:induction false} LastTouched(stages: seq<Stage>, n: nat, resolved: set<int>) returns (i: int)
    requires n <= |stages|
    ensures -1 <= i < n
    ensures i >= 0 ==> Touched(stages[i], resolved)
    ensures forall k | i < k < n :: !Touched(stages[k], resolved)
  {
    if n == 0 {
      i := -1;
    } else if Touched(stages[n-1], resolved) {
      i := n - 1;
    } else {
      i := LastTouched(stages, n - 1, resolved);
    }
  }

  /** Some post of a lawful non-empty state could have been the last check-in. */
  lemma LastCheckIn(stages: seq<Stage>, resolved: set<int>) returns (post: int)
    requires WellFormed(stages) && Lawful(stages, resolved) && resolved != {}
    ensures post in resolved
    ensures Lawful(stages, resolved - {post}) && IsReachable(post, stages, resolved - {post})
  {
    var i := LastTouched(stages, |stages|, resolved);
    if i < 0 {
      post := SomeMember(resolved);
      assert Unstaged(post, stages) by {
        forall k | 0 <= k < |stages| ensures post !in stages[k].posts {
          assert !Touched(stages[k], resolved);
        }
      }
      GateMeaning(post, stages, resolved - {post});
      forall k | 0 <= k < |stages| && stages[k].orderMatters ensures DownClosed(stages[k], resolved - {post}) {
        assert DownClosed(stages[k], resolved);
      }
    } else {
      var mine := set p | p in stages[i].posts && p in resolved;
      assert mine != {} by { var p :| p in stages[i].posts && p in resolved; assert p in mine; }
      post := GreatestIn(mine);
      assert forall p | p in stages[i].posts && p in resolved :: p in mine;
      UndoLast(stages, resolved, i, post);
    }
  }

  lemma UndoLast(stages: seq<Stage>, resolved: set<int>, i: nat, post: int)
    requires WellFormed(stages) && Lawful(stages, resolved)
    requires i < |stages| && post in stages[i].posts && post in resolved
    requires forall p | p in stages[i].posts && p in resolved :: p <= post
    requires forall k | i < k < |stages| :: !Touched(stages[k], resolved)
    ensures Lawful(stages, resolved - {post}) && IsReachable(post, stages, resolved - {post})
  {
    var before := resolved - {post};
    assert Touched(stages[i], resolved);
    forall k | 0 <= k < |stages| && stages[k].orderMatters ensures DownClosed(stages[k], before) {
      assert DownClosed(stages[k], resolved);
    }
    forall j | 0 <= j < |stages| && stages[j].order < stages[i].order ensures IsComplete(stages[j], before) {
      assert IsComplete(stages[j], resolved);
      ResolvedInLocal(stages[j].posts, resolved, before);
    }
    forall k, j | 0 <= k < |stages| && 0 <= j < |stages| && stages[j].order < stages[k].order
                  && Touched(stages[k], before)
      ensures IsComplete(stages[j], before)
    {
      assert Touched(stages[k], resolved);
      assert k <= i;
    }
    assert GateOf(i, post, stages, before) by {
      if stages[i].orderMatters { assert DownClosed(stages[i], resolved); }
    }
    GateMeaning(post, stages, before);
  }

  lemma {:induction false} LawfulIsReached(stages: seq<Stage>, resolved: set<int>) returns (run: seq<int>)
    requires WellFormed(stages) && Lawful(stages, resolved)
    ensures IsRun(stages, run) && SetOf(run) == resolved
    decreases |resolved|
  {
    if resolved == {} {
      run := [];
    } else {
      var post := LastCheckIn(stages, resolved);
      run := LawfulIsReached(stages, resolved - {post});
      RunSnoc(stages, run, post);
      run := run + [post];
    }
  }

  /** Exactly the lawful sets are reached by gated runs. */
  lemma {:induction false} ExactStates(stages: seq<Stage>, resolved: set<int>)
    requires WellFormed(stages)
    ensures (exists run :: IsRun(stages, run) && SetOf(run) == resolved) <==> Lawful(stages, resolved)
  {
    if Lawful(stages, resolved) {
      var run := LawfulIsReached(stages, resolved);
    }
    forall run | IsRun(stages, run) && SetOf(run) == resolved ensures Lawful(stages, resolved) {
      RunsAreLawful(stages, run);
    }
  }

  /** Ordered stages are filled from the front, and no stage is begun before each earlier one has its posts. */
  ghost predicate Intended(stages: seq<Stage>, resolved: set<int>) {
    && (forall i, o, p | 0 <= i < |stages| && stages[i].orderMatters && o in stages[i].posts && p in stages[i].posts
                         && o < p && p in resolved :: o in resolved)
    && (forall i, j, p | 0 <= i < |stages| && 0 <= j < |stages| && stages[j].order < stages[i].order
                         && p in stages[i].posts && p in resolved :: Opened(stages[j], resolved))
  }

  lemma LawfulIsIntended(stages: seq<Stage>, resolved: set<int>)
    requires PostsOnce(stages)
    ensures Lawful(stages, resolved) <==> Intended(stages, resolved)
  {
    forall j | 0 <= j < |stages| ensures IsComplete(stages[j], resolved) <==> Opened(stages[j], resolved) {
      CompleteIsOpened(stages[j], resolved);
    }
    if Intended(stages, resolved) {
      forall i | 0 <= i < |stages| && stages[i].orderMatters ensures DownClosed(stages[i], resolved) {}
    }
    if Lawful(stages, resolved) {
      forall i, o, p | 0 <= i < |stages| && stages[i].orderMatters && o in stages[i].posts && p in stages[i].posts
                       && o < p && p in resolved ensures o in resolved { assert DownClosed(stages[i], resolved); }
    }
  }

  /** The same in numbers, for stages that list no post twice. */
  lemma {:induction false} StatesInCounts(stages: seq<Stage>, resolved: set<int>)
    requires WellFormed(stages) && PostsOnce(stages)
    ensures (exists run :: IsRun(stages, run) && SetOf(run) == resolved) <==> Intended(stages, resolved)
  {
    ExactStates(stages, resolved);
    LawfulIsIntended(stages, resolved);
  }

  /** In a lawful state the resolved posts of an ordered stage are its first k posts. */
  lemma {:induction false} OrderedStagePrefix(stage: Stage, resolved: set<int>)
    requires Ordered(IntLeq, stage.posts)
    ensures DownClosed(stage, resolved) <==>
            forall i | 0 <= i < |stage.posts| ::
              stage.posts[i] in resolved <==> i < ResolvedIn(stage.posts, resolved)
  {
    var n := ResolvedIn(stage.posts, resolved);
    if DownClosed(stage, resolved) { PrefixCount(stage.posts, resolved); }
    if forall i | 0 <= i < |stage.posts| :: stage.posts[i] in resolved <==> i < n {
      forall o, p | o in stage.posts && p in stage.posts && o < p && p in resolved ensures o in resolved {
        var a :| 0 <= a < |stage.posts| && stage.posts[a] == o;
        var b :| 0 <= b < |stage.posts| && stage.posts[b] == p;
        assert b <= a ==> IntLeq(stage.posts[b], stage.posts[a]);
      }
    }
  }

  lemma {:induction false} PrefixCount(posts: seq<int>, resolved: set<int>)
    requires Ordered(IntLeq, posts)
    requires forall o, p | o in posts && p in posts && o < p && p in resolved :: o in resolved
    ensures forall i | 0 <= i < |posts| :: posts[i] in resolved <==> i < ResolvedIn(posts, resolved)
  {
    if posts != [] {
      PrefixCount(posts[1..], resolved);
      if posts[0] !in resolved {
        forall i | 0 <= i < |posts| ensures posts[i] !in resolved {
          assert i == 0 || IntLeq(posts[0], posts[i]);
        }
        assert forall i | 0 <= i < |posts[1..]| :: posts[1..][i] == posts[i+1];
      }
    }
  }

  // ---- No dead ends, persistence, merging, completion ---------------------------------------

  /** Any state, lawful or not, with an unresolved staged post offers a reachable staged post. */
  lemma NoDeadEnd(stages: seq<Stage>, resolved: set<int>) returns (i: nat, post: int)
    requires WellFormed(stages)
    requires exists k | 0 <= k < |stages| :: exists p | p in stages[k].posts :: p !in resolved
    ensures i < |stages| && post in stages[i].posts && IsReachable(post, stages, resolved)
  {
    i := FirstOpen(stages, 0, resolved);
    var open := set p | p in stages[i].posts && p !in resolved;
    assert open != {} by { var p :| p in stages[i].posts && p !in resolved; assert p in open; }
    post := LeastIn(open);
    forall o | o in stages[i].posts && o < post ensures o in resolved {
      assert o !in resolved ==> o in open;
    }
    assert GateOf(i, post, stages, resolved);
    GateMeaning(post, stages, resolved);
  }

  /** A stage with an unresolved post such that every stage of smaller order is complete. */
  lemma {:induction false} FirstOpen(stages: seq<Stage>, from: nat, resolved: set<int>) returns (i: nat)
    requires WellFormed(stages) && from <= |stages|
    requires forall k | 0 <= k < from :: IsComplete(stages[k], resolved)
    requires exists k | 0 <= k < |stages| :: exists p | p in stages[k].posts :: p !in resolved
    ensures i < |stages| && exists p | p in stages[i].posts :: p !in resolved
    ensures forall j | 0 <= j < |stages| && stages[j].order < stages[i].order :: IsComplete(stages[j], resolved)
    decreases |stages| - from
  {
    if from == |stages| {
      i :| i < |stages| && exists p | p in stages[i].posts :: p !in resolved;
    } else if IsComplete(stages[from], resolved) {
      i := FirstOpen(stages, from + 1, resolved);
    } else {
      i := from;
      FullyResolved(stages[i].posts, resolved);
    }
  }

  /** A reachable post stays reachable until it is itself resolved. */
  lemma Persistence(stages: seq<Stage>, post: int, a: set<int>, b: set<int>)
    requires WellFormed(stages) && a <= b && post !in b && IsReachable(post, stages, a)
    ensures IsReachable(post, stages, b)
  {
    GateMeaning(post, stages, a);
    GateMeaning(post, stages, b);
    if !Unstaged(post, stages) {
      var i :| 0 <= i < |stages| && post in stages[i].posts;
      assert GateOf(i, post, stages, a);
      forall j | 0 <= j < |stages| && stages[j].order < stages[i].order ensures IsComplete(stages[j], b) {
        ResolvedInMonotone(stages[j].posts, a, b);
      }
      assert GateOf(i, post, stages, b);
    }
  }

  lemma RunUnsnoc(stages: seq<Stage>, run: seq<int>) returns (before: seq<int>, last: int)
    requires IsRun(stages, run) && run != []
    ensures |before| < |run| && IsRun(stages, before) && IsReachable(last, stages, SetOf(before))
    ensures SetOf(run) == SetOf(before) + {last}
  {
    before, last := run[..|run| - 1], run[|run| - 1];
    assert run == before + [last];
    SetOfSnoc(before, last);
  }

  /** One more check-in of the second run, made unless the merged run has made it already. */
  lemma MergeStep(stages: seq<Stage>, soFar: seq<int>, before: seq<int>, last: int) returns (merged: seq<int>)
    requires WellFormed(stages) && IsRun(stages, soFar) && SetOf(before) <= SetOf(soFar)
    requires IsReachable(last, stages, SetOf(before))
    ensures soFar <= merged && IsRun(stages, merged) && SetOf(merged) == SetOf(soFar) + {last}
  {
    if last in SetOf(soFar) {
      merged := soFar;
    } else {
      merged := soFar + [last];
      Persistence(stages, last, SetOf(before), SetOf(soFar));
      RunSnoc(stages, soFar, last);
    }
  }

  /** Two gated runs merge into one that begins with the first and reaches what either reaches. */
  lemma {:induction false} Merge(stages: seq<Stage>, a: seq<int>, b: seq<int>) returns (merged: seq<int>)
    requires WellFormed(stages) && IsRun(stages, a) && IsRun(stages, b)
    ensures a <= merged && IsRun(stages, merged) && SetOf(merged) == SetOf(a) + SetOf(b)
    decreases |b|
  {
    if b == [] {
      merged := a;
      assert SetOf(b) == {};
    } else {
      var before, last := RunUnsnoc(stages, b);
      var soFar := Merge(stages, a, before);
      merged := MergeStep(stages, soFar, before, last);
      UnionAssociative(SetOf(a), SetOf(before), {last});
    }
  }

  lemma UnionAssociative(x: set<int>, y: set<int>, z: set<int>)
    ensures (x + y) + z == x + (y + z)
  {
  }

  ghost predicate CoversStages(route: set<int>, stages: seq<Stage>) {
    forall i, p | 0 <= i < |stages| && p in stages[i].posts :: p in route
  }

  /** While part of the route is unresolved, some post of it is reachable. */
  lemma NextOnRoute(stages: seq<Stage>, resolved: set<int>, route: set<int>) returns (post: int)
    requires WellFormed(stages) && CoversStages(route, stages)
    requires route - resolved != {}
    ensures post in route - resolved && IsReachable(post, stages, resolved)
  {
    post := SomeMember(route - resolved);
    if exists k | 0 <= k < |stages| :: exists p | p in stages[k].posts :: p !in resolved {
      var i, p := NoDeadEnd(stages, resolved);
      post := p;
    } else {
      assert Unstaged(post, stages);
      GateMeaning(post, stages, resolved);
    }
  }

  /** One more check-in on the route: what is left shrinks by that post. */
  lemma Advance(stages: seq<Stage>, run: seq<int>, route: set<int>) returns (next: seq<int>)
    requires WellFormed(stages) && IsRun(stages, run) && CoversStages(route, stages)
    requires route - SetOf(run) != {}
    ensures run <= next && IsRun(stages, next)
    ensures SetOf(next) + route == SetOf(run) + route
    ensures route - SetOf(next) < route - SetOf(run)
  {
    var post := NextOnRoute(stages, SetOf(run), route);
    next := run + [post];
    RunSnoc(stages, run, post);
  }

  /** Every gated run extends to the whole route. */
  lemma {:induction false} Completion(stages: seq<Stage>, run: seq<int>, route: set<int>) returns (full: seq<int>)
    requires WellFormed(stages) && IsRun(stages, run) && CoversStages(route, stages)
    ensures run <= full && IsRun(stages, full) && SetOf(full) == SetOf(run) + route
    decreases route - SetOf(run)
  {
    if route - SetOf(run) == {} {
      full := run;
      assert forall x | x in route && x !in SetOf(run) :: x in route - SetOf(run);
      assert SetOf(run) + route == SetOf(run);
    } else {
      var next := Advance(stages, run, route);
      full := Completion(stages, next, route);
    }
  }

  /** No post is visited twice, so a run within the route is no longer than the route. */
  lemma {:induction false} RunLength(stages: seq<Stage>, run: seq<int>, route: set<int>)
    requires IsRun(stages, run) && SetOf(run) <= route
    ensures |run| == |SetOf(run)| <= |route|
    ensures forall i, j | 0 <= i < j < |run| :: run[i] != run[j]
  {
    if run == [] {
      assert SetOf(run) == {};
    } else {
      var before, last := run[..|run| - 1], run[|run| - 1];
      assert run == before + [last];
      SetOfSnoc(before, last);
      RunLength(stages, before, route);
      assert SetOf(run) - {last} == SetOf(before);
    }
    SubsetCardinality(SetOf(run), route);
  }
}
