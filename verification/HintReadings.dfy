/**
 What a team reads back of its hints. Both readings order purchases by the start of the buying
 transaction, which is the order they were bought in only if the team's requests did not overlap.
 */
module HintReadings {
  import opened HintLedger
  import opened HintRequests
  import opened Lists
  import opened Sets
  import opened Sorting

  /** ORDER BY revealed_at, id: rows of one start keep the order they were entered in. */
  predicate ByStart(a: Reveal, b: Reveal) { a.at <= b.at }

  lemma ByStartOrder()
    ensures TotalPreorder(ByStart)
  {
  }

  // ---- The hints of one post -----------------------------------------------------------------------

  function OnLadder(ladder: seq<int>): int -> bool { (x: int) => x in ladder }

  datatype Listing = Listing(hints: seq<int>, left: int)

  /** list_hints: what the team owns that is still on the ladder, and how many it could still buy. */
  function ListHints(c: Config, s: State, team: int, checkpoint: int): Listing {
    var ladder := Ladder(c, checkpoint);
    var rows := SortBy(ByStart, Filter(s.sold, At(team, checkpoint)));
    var owned := Filter(Map(rows, IndicationOf), OnLadder(ladder));
    Listing(owned, if s.enabled then |ladder| - |owned| else 0)
  }

  /** Every hint on record is on the ladder of its post, so none is left out of the listing. */
  lemma {:induction false} AllOnLadder(c: Config, s: State, team: int, checkpoint: int)
    requires Inv(c, s)
    ensures ListHints(c, s, team, checkpoint).hints ==
            Map(SortBy(ByStart, Filter(s.sold, At(team, checkpoint))), IndicationOf)
  {
    var ladder, mine := Ladder(c, checkpoint), Filter(s.sold, At(team, checkpoint));
    var owned, listed := Map(mine, IndicationOf), Map(SortBy(ByStart, mine), IndicationOf);
    assert OwnsPrefix(c, s.sold, team, checkpoint);
    MapPermutation(SortBy(ByStart, mine), mine, IndicationOf);
    SameMembers(listed, owned);
    forall x | x in listed ensures OnLadder(ladder)(x) {
      var k :| 0 <= k < |owned| && owned[k] == x;
      assert owned[k] == ladder[k];
    }
    FilterAll(listed, OnLadder(ladder));
  }

  lemma {:induction false} ListedMembers(c: Config, s: State, team: int, checkpoint: int)
    requires Inv(c, s)
    ensures multiset(ListHints(c, s, team, checkpoint).hints) == multiset(Bought(s.sold, team, checkpoint))
  {
    var mine := Filter(s.sold, At(team, checkpoint));
    AllOnLadder(c, s, team, checkpoint);
    MapPermutation(SortBy(ByStart, mine), mine, IndicationOf);
  }

  /**
   Whatever the interleaving, the listing shows each bought hint of the post once, and these are
   the first ones of the ladder; switched off, they stay readable and nothing is left to buy.
   */
  lemma {:induction false} ListingMeaning(c: Config, s: State, team: int, checkpoint: int)
    requires Inv(c, s) && ValidConfig(c)
    ensures var l, ladder := ListHints(c, s, team, checkpoint), Ladder(c, checkpoint);
            && |l.hints| <= |ladder| && multiset(l.hints) == multiset(ladder[..|l.hints|])
            && l.left == if s.enabled then |Remaining(c, s.sold, Request(team, checkpoint))| else 0
  {
    var l, ladder, owned := ListHints(c, s, team, checkpoint), Ladder(c, checkpoint), Bought(s.sold, team, checkpoint);
    assert l.left == if s.enabled then |ladder| - |l.hints| else 0;
    ListedMembers(c, s, team, checkpoint);
    PrefixMembers(l.hints, owned, ladder) by { assert OwnsPrefix(c, s.sold, team, checkpoint); }
    RemainingIsRest(c, s.sold, Request(team, checkpoint)) by { assert OwnsPrefix(c, s.sold, team, checkpoint); }
  }

  lemma PrefixMembers(a: seq<int>, b: seq<int>, ladder: seq<int>)
    requires multiset(a) == multiset(b) && b <= ladder
    ensures |a| == |b| <= |ladder| && multiset(a) == multiset(ladder[..|a|])
  {
    SameMembers(a, b);
    assert b == ladder[..|a|];
  }

  /** Reveals are told apart by their indication. */
  lemma {:induction false} SameIndications(ladder: seq<int>, a: seq<Reveal>, b: seq<Reveal>)
    requires NoDuplicates(ladder) && Map(b, IndicationOf) <= ladder && multiset(a) == multiset(b)
    requires Map(a, IndicationOf) == Map(b, IndicationOf)
    ensures a == b
  {
    SameMembers(a, b);
    forall i | 0 <= i < |a| ensures a[i] == b[i] {
      assert a[i] in b;
      var j :| 0 <= j < |b| && b[j] == a[i];
      assert Map(b, IndicationOf)[j] == ladder[j] && Map(a, IndicationOf)[i] == ladder[i];
    }
  }

  lemma {:induction false} SortedAlongIff(ladder: seq<int>, rows: seq<Reveal>)
    requires NoDuplicates(ladder) && Map(rows, IndicationOf) <= ladder
    ensures Map(SortBy(ByStart, rows), IndicationOf) <= ladder <==> Ordered(ByStart, rows)
  {
    var sorted := SortBy(ByStart, rows);
    ByStartOrder();
    SortedIff(ByStart, rows);
    assert Map(rows, IndicationOf) == ladder[..|rows|];
    if Map(sorted, IndicationOf) <= ladder {
      assert Map(sorted, IndicationOf) == ladder[..|rows|];
      SameIndications(ladder, sorted, rows);
    }
  }

  /** It shows them in the order of the ladder exactly when they were bought in the order their requests began. */
  lemma {:induction false} ListedInOrderIff(c: Config, s: State, team: int, checkpoint: int)
    requires Inv(c, s) && ValidConfig(c)
    ensures ListHints(c, s, team, checkpoint).hints <= Ladder(c, checkpoint) <==>
            Ordered(ByStart, Filter(s.sold, At(team, checkpoint)))
  {
    AllOnLadder(c, s, team, checkpoint);
    assert OwnsPrefix(c, s.sold, team, checkpoint);
    SortedAlongIff(Ladder(c, checkpoint), Filter(s.sold, At(team, checkpoint)));
  }

  // ---- All hints of a team ------------------------------------------------------------------------------

  function OfTeam(team: int): Reveal -> bool { (r: Reveal) => r.team == team }

  /** What a team bought, in the order the purchases were committed. */
  function Purchases(sold: seq<Reveal>, team: int): seq<Reveal> { Filter(sold, OfTeam(team)) }

  /** summary_for_team: the rows it lists; `Spent` is the total beside them. */
  function Summary(sold: seq<Reveal>, team: int): seq<Reveal> { SortBy(ByStart, Purchases(sold, team)) }

  /** The summary lists purchases newest last exactly when they were made in the order their requests began. */
  lemma {:induction false} NewestLastIff(sold: seq<Reveal>, team: int)
    ensures Summary(sold, team) == Purchases(sold, team) <==> Ordered(ByStart, Purchases(sold, team))
  {
    ByStartOrder();
    SortedIff(ByStart, Purchases(sold, team));
  }

  // ---- Requests one after the other -----------------------------------------------------------------------

  predicate UnderWay(p: Phase) { !p.Waiting? && !Finished(p) }

  function Start(p: Phase): nat
    requires UnderWay(p)
  {
    if p.Begun? || p.Allowed? then p.since else p.choice.at
  }

  /** No other request of the team is under way when one of its requests begins. */
  ghost predicate BeginsAlone(c: Config, s: State, a: Action, team: int) {
    Sized(c, s) && a.Begin? && a.i < |s.phases| && c.requests[a.i].team == team ==>
      forall j | 0 <= j < |s.phases| && c.requests[j].team == team :: !UnderWay(s.phases[j])
  }

  /** Each of the team's requests begins only when those it began before have finished. */
  ghost predicate OneByOne(c: Config, s: State, run: seq<Action>, team: int) {
    if run == [] then true
    else
      var front, last := run[..|run| - 1], run[|run| - 1];
      OneByOne(c, s, front, team) && forall mid | IsRun(c, s, front, mid) :: BeginsAlone(c, mid, last, team)
  }

  /** At most one request of the team is under way, and it began after all that the team has bought. */
  ghost predicate Serial(c: Config, s: State, team: int) {
    && Sized(c, s)
    && Ordered(ByStart, Purchases(s.sold, team))
    && (forall r | r in s.sold && r.team == team :: r.at < s.clock)
    && (forall j | 0 <= j < |s.phases| && c.requests[j].team == team && UnderWay(s.phases[j]) ::
          LatestOf(c, s, team, j))
  }

  ghost predicate LatestOf(c: Config, s: State, team: int, j: nat)
    requires Sized(c, s) && j < |s.phases| && UnderWay(s.phases[j])
  {
    && Start(s.phases[j]) < s.clock
    && (forall r | r in s.sold && r.team == team :: r.at < Start(s.phases[j]))
    && (forall k | 0 <= k < |s.phases| && k != j && c.requests[k].team == team :: !UnderWay(s.phases[k]))
  }

  lemma {:induction false} PurchasesSnoc(sold: seq<Reveal>, r: Reveal, team: int)
    requires Ordered(ByStart, Purchases(sold, team))
    requires r.team == team ==> forall x | x in sold && x.team == team :: x.at < r.at
    ensures Ordered(ByStart, Purchases(sold + [r], team))
  {
    var mine := Purchases(sold, team);
    FilterSnoc(sold, r, OfTeam(team));
    FilterMembers(sold, OfTeam(team));
    if r.team == team {
      forall i | 0 <= i < |mine| ensures ByStart(mine[i], r) { assert mine[i] in mine; }
    } else {
      assert Purchases(sold + [r], team) == mine;
    }
  }

  lemma CommitKeepsLatest(c: Config, s: State, i: nat, team: int, j: nat)
    requires Serial(c, s, team) && Enabled(c, s, Commit(i))
    requires j < |s.phases| && j != i && c.requests[j].team == team && UnderWay(s.phases[j])
    ensures LatestOf(c, Apply(c, s, Commit(i)), team, j)
  {
    assert LatestOf(c, s, team, j);
    assert UnderWay(s.phases[i]);
  }

  lemma CommitKeepsOrder(c: Config, s: State, i: nat, team: int)
    requires Serial(c, s, team) && Enabled(c, s, Commit(i))
    ensures var sold := s.sold + [RevealOf(c, s, i)];
            Ordered(ByStart, Purchases(sold, team)) && forall r | r in sold && r.team == team :: r.at < s.clock
  {
    var r := RevealOf(c, s, i);
    assert UnderWay(s.phases[i]) && Start(s.phases[i]) == r.at;
    if r.team == team { assert LatestOf(c, s, team, i); }
    PurchasesSnoc(s.sold, r, team);
  }

  lemma CommitStaysSerial(c: Config, s: State, i: nat, team: int)
    requires Serial(c, s, team) && Enabled(c, s, Commit(i))
    ensures Serial(c, Apply(c, s, Commit(i)), team)
  {
    var t := Apply(c, s, Commit(i));
    CommitKeepsOrder(c, s, i, team);
    forall j | 0 <= j < |t.phases| && c.requests[j].team == team && UnderWay(t.phases[j]) ensures LatestOf(c, t, team, j) {
      CommitKeepsLatest(c, s, i, team, j);
    }
  }

  /** A step that commits nothing and does not begin a request keeps starts as they are. */
  lemma OtherStaysSerial(c: Config, s: State, a: Action, team: int)
    requires Serial(c, s, team) && Enabled(c, s, a) && !a.Commit? && !a.Begin?
    ensures Serial(c, Apply(c, s, a), team)
  {
    var t := Apply(c, s, a);
    forall j | 0 <= j < |t.phases| && c.requests[j].team == team && UnderWay(t.phases[j]) ensures LatestOf(c, t, team, j) {
      assert UnderWay(s.phases[j]) && Start(t.phases[j]) == Start(s.phases[j]);
      assert LatestOf(c, s, team, j);
    }
  }

  lemma BeginStaysSerial(c: Config, s: State, i: nat, team: int)
    requires Serial(c, s, team) && Enabled(c, s, Begin(i)) && BeginsAlone(c, s, Begin(i), team)
    ensures Serial(c, Apply(c, s, Begin(i)), team)
  {
    var t := Apply(c, s, Begin(i));
    forall j | 0 <= j < |t.phases| && c.requests[j].team == team && UnderWay(t.phases[j]) ensures LatestOf(c, t, team, j) {
      if j != i { assert LatestOf(c, s, team, j); }
    }
  }

  lemma {:induction false} RunStaysSerial(c: Config, s: State, run: seq<Action>, t: State, team: int)
    requires Initial(c, s) && IsRun(c, s, run, t) && OneByOne(c, s, run, team)
    ensures Serial(c, t, team)
    decreases |run|
  {
    if run == [] {
      assert Purchases(s.sold, team) == [];
    } else {
      var a := run[|run| - 1];
      var mid :| IsRun(c, s, run[..|run| - 1], mid) && Sized(c, mid) && Enabled(c, mid, a) && Apply(c, mid, a) == t;
      RunStaysSerial(c, s, run[..|run| - 1], mid, team);
      match a
      case Commit(i) => CommitStaysSerial(c, mid, i, team);
      case Begin(i) => BeginStaysSerial(c, mid, i, team);
      case _ => OtherStaysSerial(c, mid, a, team);
    }
  }

  lemma {:induction false} OrderedAtPost(sold: seq<Reveal>, team: int, checkpoint: int)
    requires Ordered(ByStart, Purchases(sold, team))
    ensures Ordered(ByStart, Filter(sold, At(team, checkpoint)))
  {
    FilterTwice(sold, OfTeam(team), (r: Reveal) => r.checkpoint == checkpoint, At(team, checkpoint));
    FilterStaysOrdered(Purchases(sold, team), (r: Reveal) => r.checkpoint == checkpoint);
  }

  lemma {:induction false} FilterStaysOrdered(s: seq<Reveal>, p: Reveal -> bool)
    requires Ordered(ByStart, s)
    ensures Ordered(ByStart, Filter(s, p))
  {
    if s != [] {
      var front, x := s[..|s| - 1], s[|s| - 1];
      assert s == front + [x];
      FilterStaysOrdered(front, p);
      FilterMembers(front, p);
      forall i | 0 <= i < |Filter(front, p)| ensures ByStart(Filter(front, p)[i], x) {
        assert Filter(front, p)[i] in front;
        var k :| 0 <= k < |front| && front[k] == Filter(front, p)[i];
        assert s[k] == front[k] && s[|front|] == x;
      }
    }
  }

  /**
   Whatever else goes on, a team whose requests do not overlap reads its hints back in the order it
   bought them: newest last in the summary, and along the ladder at each post.
   */
  lemma {:induction false} OneByOneIsNewestLast(c: Config, s: State, run: seq<Action>, t: State, team: int, checkpoint: int)
    requires Initial(c, s) && ValidConfig(c) && IsRun(c, s, run, t) && OneByOne(c, s, run, team)
    ensures Summary(t.sold, team) == Purchases(t.sold, team)
    ensures ListHints(c, t, team, checkpoint).hints == Bought(t.sold, team, checkpoint)
  {
    RunStaysSerial(c, s, run, t, team);
    RunsKeepInv(c, s, run, t);
    NewestLastIff(t.sold, team);
    OrderedAtPost(t.sold, team, checkpoint);
    SortedStays(ByStart, Filter(t.sold, At(team, checkpoint)));
    AllOnLadder(c, t, team, checkpoint);
  }

  // ---- Overlapping requests -----------------------------------------------------------------------------------

  lemma {:induction false} Extend(c: Config, s: State, run: seq<Action>, mid: State, a: Action)
    requires IsRun(c, s, run, mid) && Sized(c, mid) && Enabled(c, mid, a)
    ensures IsRun(c, s, run + [a], Apply(c, mid, a))
  {
    assert (run + [a])[..|run|] == run;
  }

  /** A request that has begun buys the next hint, for nothing, with nobody in its way. */
  lemma BuyNow(c: Config, s: State, run: seq<Action>, mid: State, i: nat) returns (after: seq<Action>, t: State)
    requires Sized(c, mid) && IsRun(c, s, run, mid)
    requires i < |mid.phases| && mid.phases[i].Begun? && mid.enabled && mid.price == 0
    requires forall j | 0 <= j < |mid.phases| :: !Holds(mid.phases[j])
    requires var r := c.requests[i]; var rest := Remaining(c, mid.sold, r);
             rest != [] && !Recorded(mid.sold, r.team, rest[0])
    ensures Sized(c, t) && IsRun(c, s, after, t)
    ensures var r := c.requests[i];
            t.sold == mid.sold + [Reveal(r.team, r.checkpoint, Remaining(c, mid.sold, r)[0], 0, mid.phases[i].since)]
    ensures t.enabled && t.price == 0 && t.phases == mid.phases[i := t.phases[i]] && t.phases[i].Granted?
  {
    var chosen, priced := ChooseFree(c, s, run, mid, i);
    after, t := FinishFree(c, s, chosen, priced, i);
  }

  lemma ChooseFree(c: Config, s: State, run: seq<Action>, mid: State, i: nat) returns (after: seq<Action>, t: State)
    requires Sized(c, mid) && IsRun(c, s, run, mid)
    requires i < |mid.phases| && mid.phases[i].Begun? && mid.enabled && Remaining(c, mid.sold, c.requests[i]) != []
    ensures Sized(c, t) && IsRun(c, s, after, t)
    ensures var rest := Remaining(c, mid.sold, c.requests[i]);
            t == mid.(phases := mid.phases[i := Priced(Choice(rest[0], |rest|, mid.phases[i].since), mid.price)])
  {
    Extend(c, s, run, mid, Check(i));
    var checked, part := Apply(c, mid, Check(i)), run + [Check(i)];
    Extend(c, s, part, checked, Choose(i));
    var chosen := Apply(c, checked, Choose(i));
    Extend(c, s, part + [Choose(i)], chosen, ReadPrice(i, true));
    after, t := part + [Choose(i)] + [ReadPrice(i, true)], Apply(c, chosen, ReadPrice(i, true));
  }

  lemma FinishFree(c: Config, s: State, run: seq<Action>, mid: State, i: nat) returns (after: seq<Action>, t: State)
    requires Sized(c, mid) && IsRun(c, s, run, mid)
    requires i < |mid.phases| && mid.phases[i].Priced? && mid.phases[i].cost == 0
    requires forall j | 0 <= j < |mid.phases| && j != i :: !Holds(mid.phases[j])
    requires !Recorded(mid.sold, c.requests[i].team, mid.phases[i].choice.indication)
    ensures Sized(c, t) && IsRun(c, s, after, t)
    ensures var r, x := c.requests[i], mid.phases[i].choice;
            t.sold == mid.sold + [Reveal(r.team, r.checkpoint, x.indication, 0, x.at)]
    ensures t.enabled == mid.enabled && t.price == mid.price
    ensures t.phases == mid.phases[i := t.phases[i]] && t.phases[i].Granted?
  {
    Extend(c, s, run, mid, Insert(i));
    var inserted := Apply(c, mid, Insert(i));
    Extend(c, s, run + [Insert(i)], inserted, Commit(i));
    after, t := run + [Insert(i)] + [Commit(i)], Apply(c, inserted, Commit(i));
  }

  lemma BeginNow(c: Config, s: State, run: seq<Action>, mid: State, i: nat) returns (after: seq<Action>, t: State)
    requires Sized(c, mid) && IsRun(c, s, run, mid) && i < |mid.phases| && mid.phases[i].Waiting?
    ensures Sized(c, t) && IsRun(c, s, after, t)
    ensures t == mid.(phases := mid.phases[i := Begun(mid.clock)], clock := mid.clock + 1)
  {
    Extend(c, s, run, mid, Begin(i));
    after, t := run + [Begin(i)], Apply(c, mid, Begin(i));
  }

  lemma BothBegun(c: Config, s: State) returns (run: seq<Action>, t: State)
    requires Initial(c, s) && |c.requests| == 2
    ensures Sized(c, t) && IsRun(c, s, run, t)
    ensures t == s.(phases := [Begun(s.clock), Begun(s.clock + 1)], clock := s.clock + 2)
  {
    var part, one := BeginNow(c, s, [], s, 0);
    assert s.phases == [Waiting, Waiting];
    run, t := BeginNow(c, s, part, one, 1);
  }

  /** What is offered first when nothing is owned, and after the first hint was bought. */
  lemma FirstOffers(c: Config, r: Request, first: Reveal)
    requires ValidConfig(c) && |Ladder(c, r.checkpoint)| >= 2
    requires first.team == r.team && first.checkpoint == r.checkpoint && first.indication == Ladder(c, r.checkpoint)[0]
    ensures Remaining(c, [], r) == Ladder(c, r.checkpoint)
    ensures Remaining(c, [first], r) == Ladder(c, r.checkpoint)[1..]
    ensures !Recorded([first], r.team, Ladder(c, r.checkpoint)[1])
  {
    var none: seq<Reveal> := [];
    assert Bought(none, r.team, r.checkpoint) == [];
    RemainingIsRest(c, none, r);
    BoughtSnoc(none, first, r.team, r.checkpoint);
    assert none + [first] == [first];
    RemainingIsRest(c, [first], r);
  }

  /** Two requests begin, and the one that began later buys first. */
  lemma LaterBuysFirst(c: Config, s: State, first: Reveal) returns (run: seq<Action>, t: State)
    requires ValidConfig(c) && Initial(c, s) && s.enabled && s.price == 0
    requires |c.requests| == 2 && c.requests[0] == c.requests[1] && |Ladder(c, c.requests[0].checkpoint)| >= 2
    requires first == Reveal(c.requests[0].team, c.requests[0].checkpoint,
                             Ladder(c, c.requests[0].checkpoint)[0], 0, s.clock + 1)
    ensures Sized(c, t) && IsRun(c, s, run, t) && t.sold == [first] && t.enabled && t.price == 0
    ensures t.phases[0] == Begun(s.clock) && t.phases[1].Granted?
  {
    var begun, two := BothBegun(c, s);
    FirstOffers(c, c.requests[0], first);
    run, t := BuyNow(c, s, begun, two, 1);
    assert t.phases[0] == two.phases[0];
  }

  lemma SortTwo(a: Reveal, b: Reveal)
    requires b.at < a.at
    ensures SortBy(ByStart, [a, b]) == [b, a]
  {
    SortedStays(ByStart, [b]);
    assert [a, b][1..] == [b] && [b][1..] == [];
    assert SortBy(ByStart, [a, b]) == Sorting.Insert(ByStart, a, [b]);
    assert Sorting.Insert(ByStart, a, [b]) == [b] + Sorting.Insert(ByStart, a, []);
  }

  lemma {:induction false} BothHints(c: Config, s: State, r: Request, a: Reveal, b: Reveal)
    requires Inv(c, s) && b.at < a.at
    requires Filter(s.sold, OfTeam(r.team)) == [a, b] && Filter(s.sold, At(r.team, r.checkpoint)) == [a, b]
    ensures Bought(s.sold, r.team, r.checkpoint) == [a.indication, b.indication]
    ensures ListHints(c, s, r.team, r.checkpoint).hints == [b.indication, a.indication]
    ensures Map(Summary(s.sold, r.team), IndicationOf) == [b.indication, a.indication]
  {
    SortTwo(a, b);
    AllOnLadder(c, s, r.team, r.checkpoint);
    IndicationsOfTwo(a, b);
    IndicationsOfTwo(b, a);
  }

  lemma {:induction false} IndicationsOfTwo(a: Reveal, b: Reveal)
    ensures Map([a, b], IndicationOf) == [a.indication, b.indication]
  {
  }

  lemma {:induction false} OwnPurchases(sold: seq<Reveal>, r: Request, a: Reveal, b: Reveal)
    requires sold == [a, b] && a.team == r.team == b.team && a.checkpoint == r.checkpoint == b.checkpoint
    ensures Filter(sold, OfTeam(r.team)) == sold && Filter(sold, At(r.team, r.checkpoint)) == sold
  {
    FilterAll(sold, OfTeam(r.team));
    FilterAll(sold, At(r.team, r.checkpoint));
  }

  /** Two requests begin, the later one buys the first hint, and then the earlier one the second. */
  lemma {:induction false} EarlierBuysSecond(c: Config, s: State, first: Reveal, second: Reveal)
    returns (run: seq<Action>, t: State)
    requires ValidConfig(c) && Initial(c, s) && s.enabled && s.price == 0
    requires |c.requests| == 2 && c.requests[0] == c.requests[1] && |Ladder(c, c.requests[0].checkpoint)| >= 2
    requires var r := c.requests[0];
             && first == Reveal(r.team, r.checkpoint, Ladder(c, r.checkpoint)[0], 0, s.clock + 1)
             && second == Reveal(r.team, r.checkpoint, Ladder(c, r.checkpoint)[1], 0, s.clock)
    ensures IsRun(c, s, run, t) && t.sold == [first, second]
  {
    FirstOffers(c, c.requests[0], first);
    var bought, mid := LaterBuysFirst(c, s, first);
    run, t := BuyNow(c, s, bought, mid, 0);
  }

  /**
   Two requests of a team that overlap can break the order, in the summary and at the post: the one
   that began first but read the ladder late buys the second hint, which is then listed first.
   */
  lemma {:induction false} NewestLastFails(c: Config, s: State) returns (run: seq<Action>, t: State)
    requires ValidConfig(c) && Initial(c, s) && s.enabled && s.price == 0
    requires |c.requests| == 2 && c.requests[0] == c.requests[1] && |Ladder(c, c.requests[0].checkpoint)| >= 2
    ensures IsRun(c, s, run, t)
    ensures var r := c.requests[0]; var ladder := Ladder(c, r.checkpoint);
            && Bought(t.sold, r.team, r.checkpoint) == [ladder[0], ladder[1]]
            && ListHints(c, t, r.team, r.checkpoint).hints == [ladder[1], ladder[0]]
            && Map(Summary(t.sold, r.team), IndicationOf) == [ladder[1], ladder[0]]
  {
    var r := c.requests[0];
    var first := Reveal(r.team, r.checkpoint, Ladder(c, r.checkpoint)[0], 0, s.clock + 1);
    var second := Reveal(r.team, r.checkpoint, Ladder(c, r.checkpoint)[1], 0, s.clock);
    run, t := EarlierBuysSecond(c, s, first, second);
    RunsKeepInv(c, s, run, t);
    OwnPurchases(t.sold, r, first, second);
    BothHints(c, t, r, first, second);
  }
}
