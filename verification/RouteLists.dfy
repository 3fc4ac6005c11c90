/**
 Which posts the lists of a team and of the public hold, in what order, and how each is shown.
 */
module RouteLists {
  import opened CheckInDecision
  import opened Lists
  import opened Numerals
  import opened Redaction
  import opened RouteProgress
  import opened RouteStages
  import opened Wrappers

  type Config = Redaction.Settings

  /** The entry of a post: whole if nothing is hidden or the team has earned it, else without its answer. */
  ghost predicate Shows(w: Redaction.World, cp: CheckPoint, e: Entry, whole: bool, current: bool, radius: int) {
    if whole then e == Entry(cp, false, None)
    else
      && e.redacted
      && e.shown == cp.(name := "Posto " + Decimal(cp.post.order), description := if current then cp.clue else None,
                        clue := if current then cp.clue else None, clueMedia := if current then cp.clueMedia else None,
                        latitude := None, longitude := None)
      && (e.area.Some? <==> cp.latitude.Some? && cp.longitude.Some? && radius > 0)
      && (e.area.Some? ==>
            && e.area.value.radius == radius
            && (e.area.value.latitude, e.area.value.longitude) ==
               w.centre(cp.post.id, cp.latitude.value, cp.longitude.value, radius))
  }

  lemma RedactShows(w: Redaction.World, x: Context, cp: CheckPoint)
    ensures Shows(w, cp, Redact(w, x)(cp), Reached(x, cp.post), IsCurrent(x, cp.post), x.radius)
  {
  }

  /** The team is through with the post: given up, or judged, or with nothing to judge and enough check-ins. */
  predicate Through(p: Post, active: Activities, team: TeamState) {
    var judged := if p.id in active then active[p.id] else [];
    || p.id in team.rec.skipped
    || if judged == [] then team.times >= p.order else forall a | a in judged :: a in team.rec.completed
  }

  /** The first k posts of the route are the ones the team is through with before the first gap. */
  ghost predicate ThroughFirst(posts: seq<Post>, active: Activities, team: TeamState, k: nat) {
    && k <= |posts| && (forall i | 0 <= i < k :: Through(posts[i], active, team))
    && (k < |posts| ==> !Through(posts[k], active, team))
  }

  predicate NumberedFromOne(posts: seq<Post>) { forall i | 0 <= i < |posts| :: posts[i].order == i + 1 }

  /** Somebody who arrived is shown the post, where the settings grant that. */
  predicate FoundIt(p: Post, team: TeamState, settings: Config) { settings.revealOnArrival && p.id in team.rec.arrived }

  lemma CurrentPost(posts: seq<Post>, active: Activities, team: TeamState, k: nat)
    requires NumberedFromOne(posts) && ThroughFirst(posts, active, team, k)
    ensures CurrentOrder(posts, active, team) == if k < |posts| then k + 1 else |posts|
  {
    forall p | p in posts ensures PostDone(p, active, team) <==> Through(p, active, team) {}
    PrefixIs(posts, active, team, k);
    CurrentIsFirstOpen(posts, active, team);
  }

  lemma {:induction false} KeepsFront<T>(s: seq<T>, p: T -> bool, m: nat)
    requires m <= |s| && (forall i | 0 <= i < m :: p(s[i])) && forall i | m <= i < |s| :: !p(s[i])
    ensures Filter(s, p) == s[..m]
  {
    assert s == s[..m] + s[m..];
    FilterConcat(s[..m], s[m..], p);
    FilterAll(s[..m], p);
    FilterNone(s[m..], p);
  }

  lemma {:induction false} ListedEntries(w: Redaction.World, cps: seq<CheckPoint>, team: TeamState,
                                        settings: Config, kept: seq<CheckPoint>)
    requires kept == Filter(cps, ListedIn(ContextFor(w, Map(cps, PostOf), team, settings), settings))
    ensures var x, es := ContextFor(w, Map(cps, PostOf), team, settings), VisibleForTeam(w, cps, team, settings);
            |es| == |kept| && forall i | 0 <= i < |kept| ::
              Shows(w, kept[i], es[i], settings.revealNext || Reached(x, kept[i].post), IsCurrent(x, kept[i].post), settings.searchRadius)
  {
    var x := ContextFor(w, Map(cps, PostOf), team, settings);
    forall cp ensures Shows(w, cp, Redact(w, x)(cp), Reached(x, cp.post), IsCurrent(x, cp.post), x.radius) { RedactShows(w, x, cp); }
  }

  // ---- Without stages ---------------------------------------------------------------------------------

  /** The whole route in complete mode, and in free order without stages. */
  lemma {:induction false} WholeRouteListed(w: Redaction.World, cps: seq<CheckPoint>, team: TeamState, settings: Config)
    requires settings.routeMode == "complete"
             || (!settings.orderMatters && !(settings.stagesEnabled && w.stages != []))
    ensures var es := VisibleForTeam(w, cps, team, settings);
            |es| == |cps| && forall i | 0 <= i < |cps| :: es[i].shown.post == cps[i].post
  {
    var x := ContextFor(w, Map(cps, PostOf), team, settings);
    assert |StagesOf(w.stages, Map(cps, PostOf))| == |w.stages|;
    FilterAll(cps, ListedIn(x, settings));
    ListedEntries(w, cps, team, settings, cps);
  }

  /** How many posts a route without stages lists, for a team that is through with the first k of n. */
  function ListedOf(settings: Config, k: nat, n: nat): nat {
    if settings.routeMode == "complete" || !settings.orderMatters || k >= n then n else k + 1
  }

  lemma ListedInFront(x: Context, settings: Config, p: Post, k: nat, n: nat)
    requires x.stages == None && x.current == (if k < n then k + 1 else n) && p.order <= n
    ensures Listed(x, settings, p) <==> p.order <= ListedOf(settings, k, n)
  {
  }

  lemma {:induction false} FrontKept(w: Redaction.World, cps: seq<CheckPoint>, team: TeamState, settings: Config, k: nat)
    requires var posts := Map(cps, PostOf); NumberedFromOne(posts) && ThroughFirst(posts, w.active, team, k)
    requires !(settings.stagesEnabled && w.stages != [])
    ensures var m := ListedOf(settings, k, |cps|);
            m <= |cps| && Filter(cps, ListedIn(ContextFor(w, Map(cps, PostOf), team, settings), settings)) == cps[..m]
  {
    var posts := Map(cps, PostOf);
    assert |StagesOf(w.stages, posts)| == |w.stages|;
    CurrentPost(posts, w.active, team, k);
    var x := ContextFor(w, posts, team, settings);
    forall i | 0 <= i < |cps| ensures ListedIn(x, settings)(cps[i]) <==> i < ListedOf(settings, k, |cps|) {
      assert posts[i] == cps[i].post;
      ListedInFront(x, settings, posts[i], k, |cps|);
    }
    KeepsFront(cps, ListedIn(x, settings), ListedOf(settings, k, |cps|));
  }

  /** What the i-th post of a route without stages counts as. */
  lemma SeenOnRoute(w: Redaction.World, posts: seq<Post>, team: TeamState, settings: Config, k: nat, i: nat)
    requires NumberedFromOne(posts) && ThroughFirst(posts, w.active, team, k) && i < |posts|
    requires !(settings.stagesEnabled && w.stages != [])
    ensures var x, n := ContextFor(w, posts, team, settings), |posts|;
            && (IsCurrent(x, posts[i]) <==> if k < n then i == k else i + 1 == n)
            && (settings.revealNext || Reached(x, posts[i]) <==>
                settings.revealNext || (i < k && i + 1 < n) || FoundIt(posts[i], team, settings))
  {
    assert |StagesOf(w.stages, posts)| == |w.stages|;
    CurrentPost(posts, w.active, team, k);
  }

  /**
   On a route numbered from 1 without stages, a team through with the first k posts is listed the
   first k + 1 in focused order, else all: those before the current one whole, the current one, the
   first it is not through with or the last of all, with its riddle, the rest with nothing.
   */
  lemma {:induction false} ListWithoutStages(w: Redaction.World, cps: seq<CheckPoint>, team: TeamState,
                                        settings: Config, k: nat)
    requires var posts := Map(cps, PostOf); NumberedFromOne(posts) && ThroughFirst(posts, w.active, team, k)
    requires !(settings.stagesEnabled && w.stages != [])
    ensures var es, m := VisibleForTeam(w, cps, team, settings), ListedOf(settings, k, |cps|);
            |es| == m <= |cps| && forall i | 0 <= i < m ::
              Shows(w, cps[i], es[i], settings.revealNext || (i < k && i + 1 < |cps|) || FoundIt(cps[i].post, team, settings),
                    if k < |cps| then i == k else i + 1 == |cps|, settings.searchRadius)
  {
    var posts := Map(cps, PostOf);
    FrontKept(w, cps, team, settings, k);
    ListedEntries(w, cps, team, settings, cps[..ListedOf(settings, k, |cps|)]);
    var es := VisibleForTeam(w, cps, team, settings);
    forall i | 0 <= i < ListedOf(settings, k, |cps|)
      ensures Shows(w, cps[i], es[i], settings.revealNext || (i < k && i + 1 < |cps|) || FoundIt(cps[i].post, team, settings),
                    if k < |cps| then i == k else i + 1 == |cps|, settings.searchRadius)
    {
      assert posts[i] == cps[i].post;
      SeenOnRoute(w, posts, team, settings, k, i);
    }
  }

  // ---- On stages -----------------------------------------------------------------------------------------

  /** The posts the team is done with, by their orders; every arrival counts here. */
  function DoneOrders(posts: seq<Post>, active: Activities, rec: Record): set<int> {
    set p | p in posts && DoneWith(p, active, rec, None) :: p.order
  }

  predicate Staged(p: Post, rows: seq<StageRow>) { exists row :: row in rows && p.stageId == Some(row.id) }

  /** A post of some stage that passes the gate. */
  predicate OpenNow(w: Redaction.World, posts: seq<Post>, rec: Record, p: Post) {
    Staged(p, w.stages) && IsReachable(p.order, StagesOf(w.stages, posts), DoneOrders(posts, w.active, rec))
  }

  function OpenOrDone(w: Redaction.World, posts: seq<Post>, rec: Record): CheckPoint -> bool {
    (cp: CheckPoint) => cp.post.order in DoneOrders(posts, w.active, rec) || OpenNow(w, posts, rec, cp.post)
  }

  lemma DoneIsResolvedHere(posts: seq<Post>, active: Activities, rec: Record)
    ensures DoneOrders(posts, active, rec) == ResolvedOrders(posts, active, rec, None)
  {
    forall p | p in posts ensures DoneWith(p, active, rec, None) <==> IsDone(p, active, rec, None) {}
  }

  lemma StagedIsInStage(rows: seq<StageRow>, posts: seq<Post>, p: Post)
    requires Route(posts) && IdsOnce(rows) && p in posts
    ensures Staged(p, rows) <==> exists s :: s in StagesOf(rows, posts) && p.order in s.posts
  {
    var stages := StagesOf(rows, posts);
    LoadedStagesWellFormed(rows, posts);
    if row :| row in rows && p.stageId == Some(row.id) {
      var i := OwnStageIndex(p, row, rows, posts);
      assert stages[i] in stages;
    }
    if s :| s in stages && p.order in s.posts {
      var i :| 0 <= i < |stages| && stages[i] == s;
      var row := RowFor(rows, Grouped(posts), i);
      var q :| q in posts && q.stageId == Some(s.id) && q.order == p.order;
      OrderNamesPost(posts, q, p);
    }
  }

  lemma StageSets(w: Redaction.World, posts: seq<Post>, team: TeamState, settings: Config, p: Post)
    requires Route(posts) && IdsOnce(w.stages) && settings.stagesEnabled && w.stages != [] && p in posts
    ensures var x := ContextFor(w, posts, team, settings);
            && x.stages.Some? && x.stages.value.resolved == DoneOrders(posts, w.active, team.rec)
            && (p.order in x.stages.value.current <==> OpenNow(w, posts, team.rec, p))
  {
    assert |StagesOf(w.stages, posts)| == |w.stages|;
    DoneIsResolvedHere(posts, w.active, team.rec);
    StagedIsInStage(w.stages, posts, p);
  }

  lemma {:induction false} SameFilter<T>(s: seq<T>, p: T -> bool, q: T -> bool)
    requires forall x | x in s :: p(x) == q(x)
    ensures Filter(s, p) == Filter(s, q)
  {
    if s != [] {
      assert s == s[..|s| - 1] + [s[|s| - 1]];
      SameFilter(s[..|s| - 1], p, q);
    }
  }

  lemma {:induction false} StagesKept(w: Redaction.World, cps: seq<CheckPoint>, team: TeamState, settings: Config)
    requires var posts := Map(cps, PostOf); Route(posts) && IdsOnce(w.stages)
    requires settings.stagesEnabled && w.stages != []
    ensures Filter(cps, ListedIn(ContextFor(w, Map(cps, PostOf), team, settings), settings)) ==
            if settings.routeMode == "complete" then cps else Filter(cps, OpenOrDone(w, Map(cps, PostOf), team.rec))
  {
    var posts := Map(cps, PostOf);
    var p := ListedIn(ContextFor(w, posts, team, settings), settings);
    if settings.routeMode == "complete" {
      FilterAll(cps, p);
    } else {
      forall cp | cp in cps ensures p(cp) == OpenOrDone(w, posts, team.rec)(cp) {
        PostListed(cps, cp);
        StageSets(w, posts, team, settings, cp.post);
      }
      SameFilter(cps, p, OpenOrDone(w, posts, team.rec));
    }
  }

  lemma {:induction false} PostListed(cps: seq<CheckPoint>, cp: CheckPoint)
    requires cp in cps
    ensures cp.post in Map(cps, PostOf)
  {
    var i :| 0 <= i < |cps| && cps[i] == cp;
    assert Map(cps, PostOf)[i] == cp.post;
  }

  /** What a post on stages counts as. */
  lemma SeenOnStages(w: Redaction.World, posts: seq<Post>, team: TeamState, settings: Config, p: Post)
    requires Route(posts) && IdsOnce(w.stages) && settings.stagesEnabled && w.stages != [] && p in posts
    ensures var x := ContextFor(w, posts, team, settings);
            && (IsCurrent(x, p) <==> OpenNow(w, posts, team.rec, p))
            && (settings.revealNext || Reached(x, p) <==>
                settings.revealNext || p.order in DoneOrders(posts, w.active, team.rec) || FoundIt(p, team, settings))
  {
    StageSets(w, posts, team, settings, p);
  }

  /**
   On stages a team is listed, in the order of the route, the posts it is done with and those it may
   head to now, or in complete mode all: done ones whole, open ones with their riddles.
   */
  lemma {:induction false} ListOnStages(w: Redaction.World, cps: seq<CheckPoint>, team: TeamState, settings: Config)
    requires var posts := Map(cps, PostOf); Route(posts) && IdsOnce(w.stages)
    requires settings.stagesEnabled && w.stages != []
    ensures var posts := Map(cps, PostOf);
            var kept := if settings.routeMode == "complete" then cps else Filter(cps, OpenOrDone(w, posts, team.rec));
            var es := VisibleForTeam(w, cps, team, settings);
            |es| == |kept| && forall i | 0 <= i < |kept| ::
              Shows(w, kept[i], es[i], settings.revealNext || kept[i].post.order in DoneOrders(posts, w.active, team.rec)
                                       || FoundIt(kept[i].post, team, settings),
                    OpenNow(w, posts, team.rec, kept[i].post), settings.searchRadius)
  {
    var posts, open := Map(cps, PostOf), OpenOrDone(w, Map(cps, PostOf), team.rec);
    var kept := if settings.routeMode == "complete" then cps else Filter(cps, open);
    StagesKept(w, cps, team, settings);
    ListedEntries(w, cps, team, settings, kept);
    FilterMembers(cps, open);
    var es := VisibleForTeam(w, cps, team, settings);
    forall i | 0 <= i < |kept|
      ensures Shows(w, kept[i], es[i], settings.revealNext || kept[i].post.order in DoneOrders(posts, w.active, team.rec)
                                       || FoundIt(kept[i].post, team, settings),
                    OpenNow(w, posts, team.rec, kept[i].post), settings.searchRadius)
    {
      assert kept[i] in kept;
      PostListed(cps, kept[i]);
      SeenOnStages(w, posts, team, settings, kept[i].post);
    }
  }

  // ---- The public -------------------------------------------------------------------------------------------

  /** The public sees the first post in focused mode, else all, each whole or without answer, riddle and circle. */
  lemma {:induction false} PublicList(w: Redaction.World, cps: seq<CheckPoint>, settings: Config)
    requires forall i | 0 <= i < |cps| :: cps[i].post.order > 0
    ensures VisibleForPublic(w, cps, settings) == None <==> !settings.showMap
    ensures settings.showMap ==>
              var es := VisibleForPublic(w, cps, settings).value;
              && |es| == (if settings.routeMode == "focused" && |cps| > 1 then 1 else |cps|)
              && forall i | 0 <= i < |es| :: Shows(w, cps[i], es[i], settings.revealNext, false, 0)
  {
    forall i | 0 <= i < |cps| ensures Shows(w, cps[i], Redact(w, PUBLIC)(cps[i]), false, false, 0) {
      RedactShows(w, PUBLIC, cps[i]);
    }
  }
}
