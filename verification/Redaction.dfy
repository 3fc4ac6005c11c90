/**
 Which posts a team or the public sees, and how much of each. A post's name, place and description
 are the answer to a puzzle, so what is stated here is what a list can depend on.
 */
module Redaction {
  import opened Lists
  import opened Numerals
  import opened RouteProgress
  import opened RouteStages
  import opened Wrappers

  datatype CheckPoint = CheckPoint(post: Post, radius: int, name: string, description: Option<string>,
                                   latitude: Option<real>, longitude: Option<real>,
                                   clue: Option<string>, clueMedia: Option<string>)

  datatype Area = Area(latitude: real, longitude: real, radius: int)

  /** One line of a list; `original` fields are replaced in a redacted one. */
  datatype Entry = Entry(shown: CheckPoint, redacted: bool, area: Option<Area>)

  datatype Settings = Settings(revealNext: bool, revealOnArrival: bool, searchRadius: int, routeMode: string,
                               stagesEnabled: bool, orderMatters: bool, showMap: bool)

  datatype TeamState = TeamState(times: nat, rec: Record)

  /** Tables beside the checkpoints: stages, active activities, and the offset of a search circle. */
  datatype World = World(stages: seq<StageRow>, active: map<int, seq<int>>,
                         centre: (int, real, real, int) -> (real, real))

  function PostOf(cp: CheckPoint): Post { cp.post }

  // ---- Progress of a team --------------------------------------------------------------------

  /** Nothing left to do at the post: given up, judged, or nothing to judge and enough check-ins. */
  predicate PostDone(post: Post, active: map<int, seq<int>>, team: TeamState) {
    || post.id in team.rec.skipped
    || (ActiveAt(active, post.id) == [] && team.times >= post.order)
    || (ActiveAt(active, post.id) != [] && forall a | a in ActiveAt(active, post.id) :: a in team.rec.completed)
  }

  /** How many posts from the start of the route are done without a gap. */
  function DonePrefix(posts: seq<Post>, active: map<int, seq<int>>, team: TeamState): (k: nat)
    ensures k <= |posts|
    ensures forall i | 0 <= i < k :: PostDone(posts[i], active, team)
    ensures k < |posts| ==> !PostDone(posts[k], active, team)
  {
    if posts == [] || !PostDone(posts[0], active, team) then 0 else 1 + DonePrefix(posts[1..], active, team)
  }

  function LastDone(posts: seq<Post>, active: map<int, seq<int>>, team: TeamState): int {
    var k := DonePrefix(posts, active, team);
    if k == 0 then 0 else posts[k - 1].order
  }

  function CurrentOrder(posts: seq<Post>, active: map<int, seq<int>>, team: TeamState): int {
    var last := LastDone(posts, active, team);
    if last < (if posts == [] then 0 else posts[|posts| - 1].order) then last + 1 else last
  }

  lemma {:induction false} PrefixIs(posts: seq<Post>, active: map<int, seq<int>>, team: TeamState, k: nat)
    requires k <= |posts| && forall i | 0 <= i < k :: PostDone(posts[i], active, team)
    requires k == |posts| || !PostDone(posts[k], active, team)
    ensures DonePrefix(posts, active, team) == k
  {
    if posts != [] && PostDone(posts[0], active, team) { PrefixIs(posts[1..], active, team, k - 1); }
  }

  /** The loop over the route, leaving at the first post that is not done. */
  method ComputeCheckpointProgress(posts: seq<Post>, active: map<int, seq<int>>, team: TeamState)
    returns (last: int, current: int)
    ensures last == LastDone(posts, active, team) && current == CurrentOrder(posts, active, team)
  {
    last := 0;
    var k := 0;
    while k < |posts|
      invariant 0 <= k <= |posts|
      invariant forall i | 0 <= i < k :: PostDone(posts[i], active, team)
      invariant last == if k == 0 then 0 else posts[k - 1].order
    {
      var cp := posts[k];
      if cp.id in team.rec.skipped {
        last := cp.order;
      } else {
        var ids := ActiveAt(active, cp.id);
        if ids == [] {
          if team.times >= cp.order { last := cp.order; } else { break; }
        } else if forall a | a in ids :: a in team.rec.completed {
          last := cp.order;
        } else {
          break;
        }
      }
      k := k + 1;
    }
    PrefixIs(posts, active, team, k);
    var max := if posts == [] then 0 else posts[|posts| - 1].order;
    current := if last < max then last + 1 else last;
  }

  /** On a route numbered 1..n the current post is the first one not done, or the last of all. */
  lemma {:induction false} CurrentIsFirstOpen(posts: seq<Post>, active: map<int, seq<int>>, team: TeamState)
    requires forall i | 0 <= i < |posts| :: posts[i].order == i + 1
    ensures var k := DonePrefix(posts, active, team);
            CurrentOrder(posts, active, team) == if k < |posts| then k + 1 else |posts|
  {
  }

  // ---- Redacting one post -----------------------------------------------------------------------

  datatype Reveal = Reveal(current: set<int>, resolved: set<int>)

  /** All that decides how a post is shown; none of it looks at what a post says. */
  datatype Context = Context(current: int, stages: Option<Reveal>, arrived: set<int>, radius: int)

  predicate Reached(x: Context, p: Post) {
    || p.id in x.arrived
    || match x.stages
       case None => p.order < x.current
       case Some(sets) => p.order in sets.resolved
  }

  predicate IsCurrent(x: Context, p: Post) {
    match x.stages
    case None => p.order == x.current
    case Some(sets) => p.order in sets.current
  }

  function SearchArea(w: World, cp: CheckPoint, radius: int): Option<Area> {
    if cp.latitude == None || cp.longitude == None || radius <= 0 then None
    else
      var (lat, lon) := w.centre(cp.post.id, cp.latitude.value, cp.longitude.value, radius);
      Some(Area(lat, lon, radius))
  }

  function Redact(w: World, x: Context): CheckPoint -> Entry {
    (cp: CheckPoint) =>
      if Reached(x, cp.post) then Entry(cp, false, None)
      else
        var clue := if IsCurrent(x, cp.post) then cp.clue else None;
        Entry(cp.(name := "Posto " + Decimal(cp.post.order), description := clue, clue := clue,
                  clueMedia := if IsCurrent(x, cp.post) then cp.clueMedia else None,
                  latitude := None, longitude := None),
              true, SearchArea(w, cp, x.radius))
  }

  function Whole(cp: CheckPoint): Entry { Entry(cp, false, None) }

  function RedactList(w: World, x: Context, revealNext: bool, cps: seq<CheckPoint>): seq<Entry> {
    if revealNext then Map(cps, Whole) else Map(cps, Redact(w, x))
  }

  // ---- The lists -----------------------------------------------------------------------------------

  /** The event runs on stages: they are switched on and there are some. */
  predicate OnStages(w: World, posts: seq<Post>, settings: Settings) {
    settings.stagesEnabled && StagesOf(w.stages, posts) != []
  }

  function StageRevealSets(w: World, posts: seq<Post>, team: TeamState, settings: Settings): Option<Reveal> {
    var stages := StagesOf(w.stages, posts);
    if !OnStages(w, posts, settings) then None
    else
      var resolved := ResolvedOrders(posts, w.active, team.rec, None);
      Some(Reveal(set s, o | s in stages && o in s.posts && IsReachable(o, stages, resolved) :: o, resolved))
  }

  function ContextFor(w: World, posts: seq<Post>, team: TeamState, settings: Settings): Context {
    Context(CurrentOrder(posts, w.active, team), StageRevealSets(w, posts, team, settings),
            if settings.revealNext || !settings.revealOnArrival then {} else team.rec.arrived,
            settings.searchRadius)
  }

  /** Whether a post is listed at all. */
  predicate Listed(x: Context, settings: Settings, p: Post) {
    || settings.routeMode == "complete"
    || match x.stages
       case Some(sets) => p.order in sets.current || p.order in sets.resolved
       case None => settings.orderMatters ==> p.order <= x.current
  }

  function ListedIn(x: Context, settings: Settings): CheckPoint -> bool {
    (cp: CheckPoint) => Listed(x, settings, cp.post)
  }

  function VisibleForTeam(w: World, cps: seq<CheckPoint>, team: TeamState, settings: Settings): seq<Entry> {
    var x := ContextFor(w, Map(cps, PostOf), team, settings);
    RedactList(w, x, settings.revealNext, Filter(cps, ListedIn(x, settings)))
  }

  const PUBLIC := Context(0, None, {}, 0)

  function VisibleForPublic(w: World, cps: seq<CheckPoint>, settings: Settings): Option<seq<Entry>> {
    if !settings.showMap then None
    else
      var subset := if settings.routeMode == "focused" && |cps| > 1 then cps[..1] else cps;
      Some(RedactList(w, PUBLIC, settings.revealNext, subset))
  }

  // ---- What a list can depend on --------------------------------------------------------------------

  /** Two posts that must look the same: alike in what is never hidden and in what this viewer has earned. */
  predicate Alike(w: World, x: Context, a: CheckPoint, b: CheckPoint) {
    && a.post == b.post
    && (if Reached(x, a.post) then a == b
        else
          && a.radius == b.radius
          && (IsCurrent(x, a.post) ==> a.clue == b.clue && a.clueMedia == b.clueMedia)
          && SearchArea(w, a, x.radius) == SearchArea(w, b, x.radius))
  }

  lemma RedactedAlike(w: World, x: Context, a: CheckPoint, b: CheckPoint)
    requires a.post == b.post
    ensures Redact(w, x)(a) == Redact(w, x)(b) <==> Alike(w, x, a, b)
  {
    var ra, rb := Redact(w, x)(a), Redact(w, x)(b);
    if !Reached(x, a.post) && ra == rb {
      assert ra.shown.clue == rb.shown.clue && ra.shown.clueMedia == rb.shown.clueMedia;
      assert ra.shown.radius == rb.shown.radius;
    }
  }

  /** The two lists give the same image wherever the filter keeps their elements. */
  ghost predicate AgreeWhereKept<T(!new), U>(a: seq<T>, b: seq<T>, p: T -> bool, f: T -> U) {
    |a| == |b| && forall i | 0 <= i < |a| && p(a[i]) :: f(a[i]) == f(b[i])
  }

  lemma AgreeSnoc<T(!new), U>(a: seq<T>, b: seq<T>, p: T -> bool, f: T -> U)
    requires |a| == |b| && a != []
    ensures var n := |a| - 1;
            AgreeWhereKept(a, b, p, f) <==> AgreeWhereKept(a[..n], b[..n], p, f) && (p(a[n]) ==> f(a[n]) == f(b[n]))
  {
    var n := |a| - 1;
    if AgreeWhereKept(a[..n], b[..n], p, f) && (p(a[n]) ==> f(a[n]) == f(b[n])) {
      forall i | 0 <= i < |a| && p(a[i]) ensures f(a[i]) == f(b[i]) {
        assert i < n ==> a[..n][i] == a[i] && b[..n][i] == b[i];
      }
    }
  }

  /** Two lists filtered and mapped alike are equal exactly when they agree wherever the filter keeps them. */
  lemma {:induction false} SameViewsIff<T(!new), U>(a: seq<T>, b: seq<T>, p: T -> bool, f: T -> U)
    requires |a| == |b| && forall i | 0 <= i < |a| :: p(a[i]) == p(b[i])
    ensures Map(Filter(a, p), f) == Map(Filter(b, p), f) <==> AgreeWhereKept(a, b, p, f)
  {
    if a != [] {
      var n := |a| - 1;
      SameViewsIff(a[..n], b[..n], p, f);
      AgreeSnoc(a, b, p, f);
      assert a == a[..n] + [a[n]] && b == b[..n] + [b[n]];
      FilterSnoc(a[..n], a[n], p);
      FilterSnoc(b[..n], b[n], p);
      if p(a[n]) {
        MapSnoc(Filter(a[..n], p), a[n], f);
        MapSnoc(Filter(b[..n], p), b[n], f);
        LastMatters(Map(Filter(a[..n], p), f), f(a[n]), Map(Filter(b[..n], p), f), f(b[n]));
      } else {
        assert Filter(a, p) == Filter(a[..n], p) && Filter(b, p) == Filter(b[..n], p);
      }
    }
  }

  lemma LastMatters<U>(s: seq<U>, x: U, t: seq<U>, y: U)
    ensures s + [x] == t + [y] <==> s == t && x == y
  {
    if s + [x] == t + [y] {
      assert (s + [x])[..|s|] == s && (t + [y])[..|t|] == t;
      assert (s + [x])[|s|] == x && (t + [y])[|t|] == y;
    }
  }

  /** The routes have the same structure: ids, orders, stages and opening hours. */
  ghost predicate SameStructure(a: seq<CheckPoint>, b: seq<CheckPoint>) { Map(a, PostOf) == Map(b, PostOf) }

  lemma SamePosts(a: seq<CheckPoint>, b: seq<CheckPoint>)
    requires SameStructure(a, b)
    ensures |a| == |b| && forall i | 0 <= i < |a| :: a[i].post == b[i].post
  {
    assert |a| == |Map(a, PostOf)| && |b| == |Map(b, PostOf)|;
    forall i | 0 <= i < |a| ensures a[i].post == b[i].post { assert Map(a, PostOf)[i] == Map(b, PostOf)[i]; }
  }

  /** Every listed pair is alike. */
  ghost predicate ListedAlike(w: World, x: Context, settings: Settings, a: seq<CheckPoint>, b: seq<CheckPoint>) {
    |a| == |b| && forall i | 0 <= i < |a| && Listed(x, settings, a[i].post) :: Alike(w, x, a[i], b[i])
  }

  lemma KeptAlike(w: World, x: Context, settings: Settings, a: seq<CheckPoint>, b: seq<CheckPoint>)
    requires |a| == |b| && forall i | 0 <= i < |a| :: a[i].post == b[i].post
    ensures AgreeWhereKept(a, b, ListedIn(x, settings), Redact(w, x)) <==> ListedAlike(w, x, settings, a, b)
  {
    forall i | 0 <= i < |a| ensures Redact(w, x)(a[i]) == Redact(w, x)(b[i]) <==> Alike(w, x, a[i], b[i]) {
      RedactedAlike(w, x, a[i], b[i]);
    }
  }

  /**
   With the next post hidden, two routes of the same structure give a team the same list exactly
   when every listed pair is alike: the list depends on nothing else of what the posts say.
   */
  lemma {:induction false} TeamListsEqualIff(w: World, a: seq<CheckPoint>, b: seq<CheckPoint>, team: TeamState, settings: Settings)
    requires SameStructure(a, b) && !settings.revealNext
    ensures VisibleForTeam(w, a, team, settings) == VisibleForTeam(w, b, team, settings) <==>
            ListedAlike(w, ContextFor(w, Map(a, PostOf), team, settings), settings, a, b)
  {
    var x := ContextFor(w, Map(a, PostOf), team, settings);
    SamePosts(a, b);
    SameViewsIff(a, b, ListedIn(x, settings), Redact(w, x));
    KeptAlike(w, x, settings, a, b);
  }

  /** Without a search circle: agreeing on reached posts and on the clues of current ones is enough. */
  lemma {:induction false} NothingElseLeaks(w: World, a: seq<CheckPoint>, b: seq<CheckPoint>, team: TeamState, settings: Settings)
    requires SameStructure(a, b) && !settings.revealNext && settings.searchRadius <= 0
    requires var x := ContextFor(w, Map(a, PostOf), team, settings);
             forall i | 0 <= i < |a| ::
               && i < |b| && a[i].radius == b[i].radius
               && (Reached(x, a[i].post) ==> a[i] == b[i])
               && (IsCurrent(x, a[i].post) ==> a[i].clue == b[i].clue && a[i].clueMedia == b[i].clueMedia)
    ensures VisibleForTeam(w, a, team, settings) == VisibleForTeam(w, b, team, settings)
  {
    SamePosts(a, b);
    TeamListsEqualIff(w, a, b, team, settings);
  }

  // ---- One riddle at a time --------------------------------------------------------------------------

  lemma {:induction false} EntryComesFrom(w: World, x: Context, settings: Settings, cps: seq<CheckPoint>, e: Entry)
    returns (cp: CheckPoint)
    requires e in Map(Filter(cps, ListedIn(x, settings)), Redact(w, x))
    ensures cp in cps && e == Redact(w, x)(cp)
  {
    var kept := Filter(cps, ListedIn(x, settings));
    var i :| 0 <= i < |Map(kept, Redact(w, x))| && Map(kept, Redact(w, x))[i] == e;
    cp := kept[i];
    assert cp in kept;
    FilterMembers(cps, ListedIn(x, settings));
  }

  lemma RiddleIsCurrent(w: World, x: Context, cp: CheckPoint)
    requires Redact(w, x)(cp).redacted && Redact(w, x)(cp).shown.clue.Some?
    ensures IsCurrent(x, cp.post) && Redact(w, x)(cp).shown.post == cp.post
  {
  }

  /** Without stages a redacted entry shows a riddle only at the current order, so at most one does. */
  lemma {:induction false} OneRiddle(w: World, cps: seq<CheckPoint>, team: TeamState, settings: Settings, e: Entry, f: Entry)
    requires !settings.revealNext && !OnStages(w, Map(cps, PostOf), settings)
    requires forall p, q | p in cps && q in cps && p.post.order == q.post.order :: p == q
    requires e in VisibleForTeam(w, cps, team, settings) && f in VisibleForTeam(w, cps, team, settings)
    requires e.redacted && f.redacted && e.shown.clue.Some? && f.shown.clue.Some?
    ensures e == f && e.shown.post.order == CurrentOrder(Map(cps, PostOf), w.active, team)
  {
    var x := ContextFor(w, Map(cps, PostOf), team, settings);
    var p := EntryComesFrom(w, x, settings, cps, e);
    var q := EntryComesFrom(w, x, settings, cps, f);
    RiddleIsCurrent(w, x, p);
    RiddleIsCurrent(w, x, q);
  }

  /**
   Completing a post earns its reveal, except for the last of the route: with everything done the
   current order stays on it, so it stays redacted unless the team has an arrival there.
   */
  lemma {:induction false} CompletedRevealedIff(w: World, posts: seq<Post>, team: TeamState, settings: Settings, i: nat)
    requires forall k | 0 <= k < |posts| :: posts[k].order == k + 1
    requires !settings.revealNext && !OnStages(w, posts, settings)
    requires i < DonePrefix(posts, w.active, team)
    ensures var x := ContextFor(w, posts, team, settings);
            Reached(x, posts[i]) <==>
            i < |posts| - 1 || (settings.revealOnArrival && posts[i].id in team.rec.arrived)
  {
    CurrentIsFirstOpen(posts, w.active, team);
  }

  // ---- The public list -----------------------------------------------------------------------------------

  /** Two routes of the same structure, numbered from 1, look the same to the public. */
  lemma PublicListsEqual(w: World, a: seq<CheckPoint>, b: seq<CheckPoint>, settings: Settings)
    requires SameStructure(a, b) && !settings.revealNext
    requires forall i | 0 <= i < |a| :: a[i].post.order > 0 && i < |b| && a[i].radius == b[i].radius
    ensures VisibleForPublic(w, a, settings) == VisibleForPublic(w, b, settings)
  {
    SamePosts(a, b);
    forall i | 0 <= i < |a| ensures Redact(w, PUBLIC)(a[i]) == Redact(w, PUBLIC)(b[i]) {
      RedactedAlike(w, PUBLIC, a[i], b[i]);
    }
    assert Map(a, Redact(w, PUBLIC)) == Map(b, Redact(w, PUBLIC));
    assert |a| > 1 ==> Map(a[..1], Redact(w, PUBLIC)) == Map(b[..1], Redact(w, PUBLIC));
  }
}
