/**
 Arrivals and the points for the legs between them. An arrival is recorded once per team and post;
 the leg it ends began at the latest arrival of the same team anywhere else.
 */
module LegTime {
  import opened Wrappers

  datatype Settings = Settings(enabled: bool, target: real, rate: real, cap: real)

  /** at is in minutes. */
  datatype Arrival = Arrival(team: int, checkpoint: int, at: real)

  datatype LegAward = LegAward(team: int, points: real)

  function Clamp(x: real, cap: real): real { if x > cap then cap else if x < -cap then -cap else x }

  function LegTimePoints(leg: real, s: Settings): real {
    if s.rate <= 0.0 || s.cap <= 0.0 then 0.0 else Clamp((s.target - leg) * s.rate, s.cap)
  }

  lemma Scaled(x: real, y: real, r: real)
    requires r > 0.0 && x >= y
    ensures x * r >= y * r
  {
    assert (x - y) * r == x * r - y * r;
  }

  lemma ClampKeepsOrder(x: real, y: real, cap: real)
    requires cap > 0.0
    ensures x >= y ==> Clamp(x, cap) >= Clamp(y, cap)
    ensures -cap <= Clamp(x, cap) <= cap && (Clamp(x, cap) > 0.0 <==> x > 0.0)
  {
  }

  /** No leg is worth more than the cap, either way. */
  lemma PointsInRange(leg: real, s: Settings)
    requires s.cap > 0.0
    ensures -s.cap <= LegTimePoints(leg, s) <= s.cap
  {
    ClampKeepsOrder((s.target - leg) * s.rate, 0.0, s.cap);
  }

  /** A faster leg is never worth less. */
  lemma FasterIsNoWorse(s: Settings, fast: real, slow: real)
    requires fast <= slow
    ensures LegTimePoints(fast, s) >= LegTimePoints(slow, s)
  {
    if s.rate > 0.0 && s.cap > 0.0 {
      Scaled(s.target - fast, s.target - slow, s.rate);
      ClampKeepsOrder((s.target - fast) * s.rate, (s.target - slow) * s.rate, s.cap);
    }
  }

  // ---- The table -----------------------------------------------------------------------------

  predicate Recorded(arrivals: seq<Arrival>, team: int, checkpoint: int) {
    exists i :: 0 <= i < |arrivals| && arrivals[i].team == team && arrivals[i].checkpoint == checkpoint
  }

  function Later(a: Option<real>, at: real): Option<real> {
    if a == None || a.value < at then Some(at) else a
  }

  /** The team's latest arrival anywhere but at this post. */
  function LatestBut(arrivals: seq<Arrival>, team: int, checkpoint: int): Option<real> {
    if arrivals == [] then None
    else
      var before, a := LatestBut(arrivals[..|arrivals| - 1], team, checkpoint), arrivals[|arrivals| - 1];
      if a.team == team && a.checkpoint != checkpoint then Later(before, a.at) else before
  }

  lemma {:induction false} LatestMeaning(arrivals: seq<Arrival>, team: int, checkpoint: int)
    ensures LatestBut(arrivals, team, checkpoint) == None <==>
            forall a | a in arrivals && a.team == team :: a.checkpoint == checkpoint
    ensures forall a | a in arrivals && a.team == team && a.checkpoint != checkpoint ::
              LatestBut(arrivals, team, checkpoint).Some? && a.at <= LatestBut(arrivals, team, checkpoint).value
  {
    if arrivals != [] {
      var front, last := arrivals[..|arrivals| - 1], arrivals[|arrivals| - 1];
      assert arrivals == front + [last];
      LatestMeaning(front, team, checkpoint);
      assert last in arrivals && forall a :: a in arrivals <==> a in front || a == last;
    }
  }

  /** The points for ending a leg with this arrival: none for the first one, nor if the clock ran backwards. */
  function LegPoints(s: Settings, arrivals: seq<Arrival>, a: Arrival): real {
    match LatestBut(arrivals, a.team, a.checkpoint)
    case None => 0.0
    case Some(previous) =>
      if !s.enabled || a.at - previous <= 0.0 then 0.0 else LegTimePoints(a.at - previous, s)
  }

  lemma {:induction false} LatestAttained(arrivals: seq<Arrival>, team: int, checkpoint: int)
    ensures LatestBut(arrivals, team, checkpoint).Some? ==>
              exists p :: p in arrivals && p.team == team && p.checkpoint != checkpoint
                && p.at == LatestBut(arrivals, team, checkpoint).value
  {
    if arrivals != [] {
      var front, last := arrivals[..|arrivals| - 1], arrivals[|arrivals| - 1];
      assert arrivals == front + [last];
      LatestAttained(front, team, checkpoint);
      assert last in arrivals && forall p | p in front :: p in arrivals;
    }
  }

  /**
   The points for a leg that began at the team's latest arrival elsewhere: the minutes saved on the
   target at the rate, cut to the cap either way; none while leg times are off or not priced, or when
   no time passed, and none for a first arrival.
   */
  lemma {:induction false} LegWorth(s: Settings, arrivals: seq<Arrival>, a: Arrival, p: Arrival)
    requires p in arrivals && p.team == a.team && p.checkpoint != a.checkpoint
    requires forall q | q in arrivals && q.team == a.team && q.checkpoint != a.checkpoint :: q.at <= p.at
    ensures var raw := (s.target - (a.at - p.at)) * s.rate;
            LegPoints(s, arrivals, a) ==
            if !s.enabled || s.rate <= 0.0 || s.cap <= 0.0 || a.at <= p.at then 0.0
            else if raw > s.cap then s.cap else if raw < -s.cap then -s.cap else raw
  {
    LatestMeaning(arrivals, a.team, a.checkpoint);
    LatestAttained(arrivals, a.team, a.checkpoint);
  }

  lemma {:induction false} FirstLegIsFree(s: Settings, arrivals: seq<Arrival>, a: Arrival)
    requires forall q | q in arrivals && q.team == a.team :: q.checkpoint == a.checkpoint
    ensures LegPoints(s, arrivals, a) == 0.0
  {
    LatestMeaning(arrivals, a.team, a.checkpoint);
  }

  function AwardFor(s: Settings, arrivals: seq<Arrival>, a: Arrival): seq<LegAward> {
    var points := LegPoints(s, arrivals, a);
    if points == 0.0 then [] else [LegAward(a.team, points)]
  }

  /** What the checks of a scan look at: the distance to the post, if the post has coordinates. */
  datatype Scan = Scan(sameEdition: bool, inWindow: bool, open: bool, distance: Option<real>, radius: real)

  datatype Refusal = OtherEdition | OutsideWindow | Closed | NoCoordinates | TooFar

  class ArrivalTable {
    const s: Settings
    var arrivals: seq<Arrival>
    var awards: seq<LegAward>

    constructor (s: Settings)
      ensures this.s == s && arrivals == [] && awards == []
    {
      this.s, arrivals, awards := s, [], [];
    }

    /** False when the pair is on record already. */
    method InsertArrival(a: Arrival) returns (isNew: bool)
      modifies this`arrivals
      ensures isNew <==> !Recorded(old(arrivals), a.team, a.checkpoint)
      ensures arrivals == if isNew then old(arrivals) + [a] else old(arrivals)
    {
      for i := 0 to |arrivals|
        invariant forall k | 0 <= k < i :: !(arrivals[k].team == a.team && arrivals[k].checkpoint == a.checkpoint)
        invariant arrivals == old(arrivals)
      {
        if arrivals[i].team == a.team && arrivals[i].checkpoint == a.checkpoint { return false; }
      }
      arrivals := arrivals + [a];
      return true;
    }

    /** ORDER BY arrived_at DESC LIMIT 1 over the team's other posts. */
    method Previous(team: int, checkpoint: int) returns (previous: Option<real>)
      ensures previous == LatestBut(arrivals, team, checkpoint)
    {
      previous := None;
      for i := 0 to |arrivals|
        invariant previous == LatestBut(arrivals[..i], team, checkpoint)
      {
        assert arrivals[..i + 1][..i] == arrivals[..i];
        var a := arrivals[i];
        if a.team == team && a.checkpoint != checkpoint && (previous == None || previous.value < a.at) {
          previous := Some(a.at);
        }
      }
      assert arrivals[..|arrivals|] == arrivals;
    }

    method AwardLegTime(a: Arrival)
      modifies this`awards
      ensures awards == old(awards) + AwardFor(s, arrivals, a)
    {
      if !s.enabled { return; }
      var previous := Previous(a.team, a.checkpoint);
      if previous == None { return; }
      var leg := a.at - previous.value;
      if leg <= 0.0 { return; }
      var points := LegTimePoints(leg, s);
      if points == 0.0 { return; }
      awards := awards + [LegAward(a.team, points)];
    }

    /** A scan is admitted by every check or names the first that refused it; only then is it recorded. */
    method RecordArrival(a: Arrival, scan: Scan) returns (outcome: Result<bool, Refusal>)
      modifies this`arrivals, this`awards
      ensures outcome == Failure(OtherEdition) <==> !scan.sameEdition
      ensures outcome == Failure(OutsideWindow) <==> scan.sameEdition && !scan.inWindow
      ensures outcome == Failure(Closed) <==> scan.sameEdition && scan.inWindow && !scan.open
      ensures outcome == Failure(NoCoordinates) <==> scan.sameEdition && scan.inWindow && scan.open && scan.distance == None
      ensures outcome == Failure(TooFar) <==>
                scan.sameEdition && scan.inWindow && scan.open && scan.distance.Some? && scan.distance.value > scan.radius
      ensures outcome.Success? ==> outcome.value == !Recorded(old(arrivals), a.team, a.checkpoint)
      ensures Log(arrivals, awards) ==
              if outcome.Success? then Arrive(s, Log(old(arrivals), old(awards)), a) else Log(old(arrivals), old(awards))
    {
      if !scan.sameEdition { return Failure(OtherEdition); }
      if !scan.inWindow { return Failure(OutsideWindow); }
      if !scan.open { return Failure(Closed); }
      if scan.distance == None { return Failure(NoCoordinates); }
      if scan.distance.value > scan.radius { return Failure(TooFar); }
      var isNew := InsertArrival(a);
      if isNew {
        LatestIgnores(old(arrivals), a);
        AwardLegTime(a);
      }
      return Success(isNew);
    }
  }

  /** The new row itself, being at the post, does not count as the previous arrival. */
  lemma {:induction false} LatestIgnores(arrivals: seq<Arrival>, a: Arrival)
    ensures LatestBut(arrivals + [a], a.team, a.checkpoint) == LatestBut(arrivals, a.team, a.checkpoint)
  {
    assert (arrivals + [a])[..|arrivals|] == arrivals;
  }

  // ---- Runs ---------------------------------------------------------------------------------------

  datatype Log = Log(arrivals: seq<Arrival>, awards: seq<LegAward>)

  function Arrive(s: Settings, log: Log, a: Arrival): Log {
    if Recorded(log.arrivals, a.team, a.checkpoint) then log
    else Log(log.arrivals + [a], log.awards + AwardFor(s, log.arrivals, a))
  }

  function Run(s: Settings, scans: seq<Arrival>): Log {
    if scans == [] then Log([], [])
    else Arrive(s, Run(s, scans[..|scans| - 1]), scans[|scans| - 1])
  }

  /** A new arrival is added to the record, with its leg's points as one award if there are any; a known one changes nothing. */
  lemma {:induction false} ArrivalStored(s: Settings, log: Log, a: Arrival)
    ensures (exists b :: b in log.arrivals && b.team == a.team && b.checkpoint == a.checkpoint) ==> Arrive(s, log, a) == log
    ensures !(exists b :: b in log.arrivals && b.team == a.team && b.checkpoint == a.checkpoint) ==>
              var points, after := LegPoints(s, log.arrivals, a), Arrive(s, log, a);
              && after.arrivals == log.arrivals + [a]
              && after.awards == if points == 0.0 then log.awards else log.awards + [LegAward(a.team, points)]
  {
    RecordedMeaning(log.arrivals, a.team, a.checkpoint);
    assert log.awards + [] == log.awards;
  }

  lemma RecordedMeaning(arrivals: seq<Arrival>, team: int, checkpoint: int)
    ensures Recorded(arrivals, team, checkpoint) <==> exists b :: b in arrivals && b.team == team && b.checkpoint == checkpoint
  {
    if i :| 0 <= i < |arrivals| && arrivals[i].team == team && arrivals[i].checkpoint == checkpoint {
      assert arrivals[i] in arrivals;
    }
  }

  /** Scanning a post again, at whatever time, changes nothing. */
  lemma RescanAwardsNothing(s: Settings, log: Log, a: Arrival, again: real)
    ensures var once := Arrive(s, log, a); Arrive(s, once, a.(at := again)) == once
  {
    var once := Arrive(s, log, a);
    if !Recorded(log.arrivals, a.team, a.checkpoint) { assert once.arrivals[|log.arrivals|] == a; }
  }

  function Total(awards: seq<LegAward>, team: int): real {
    if awards == [] then 0.0
    else
      var last := awards[|awards| - 1];
      Total(awards[..|awards| - 1], team) + (if last.team == team then last.points else 0.0)
  }

  function Visits(arrivals: seq<Arrival>, team: int): nat {
    if arrivals == [] then 0
    else Visits(arrivals[..|arrivals| - 1], team) + (if arrivals[|arrivals| - 1].team == team then 1 else 0)
  }

  lemma {:induction false} TotalAfter(s: Settings, log: Log, a: Arrival, team: int)
    requires !Recorded(log.arrivals, a.team, a.checkpoint)
    ensures Total(Arrive(s, log, a).awards, team) ==
            Total(log.awards, team) + (if a.team == team then LegPoints(s, log.arrivals, a) else 0.0)
  {
    var more := AwardFor(s, log.arrivals, a);
    if more == [] {
      assert log.awards + more == log.awards;
    } else {
      assert (log.awards + more)[..|log.awards|] == log.awards;
    }
  }

  lemma {:induction false} VisitsAfter(arrivals: seq<Arrival>, a: Arrival, team: int)
    ensures Visits(arrivals + [a], team) == Visits(arrivals, team) + (if a.team == team then 1 else 0)
  {
    assert (arrivals + [a])[..|arrivals|] == arrivals;
  }

  lemma {:induction false} NoneYet(arrivals: seq<Arrival>, team: int, checkpoint: int)
    requires Visits(arrivals, team) == 0
    ensures LatestBut(arrivals, team, checkpoint) == None
  {
    if arrivals != [] { NoneYet(arrivals[..|arrivals| - 1], team, checkpoint); }
  }

  /** The most that a number of arrivals can move a total, either way. */
  function Bound(visits: nat, cap: real): real {
    if visits <= 1 || cap <= 0.0 then 0.0 else Bound(visits - 1, cap) + cap
  }

  lemma BoundGrows(visits: nat, cap: real)
    ensures Bound(visits + 1, cap) == if visits == 0 || cap <= 0.0 then 0.0 else Bound(visits, cap) + cap
  {
  }

  lemma {:induction false} BoundIsProduct(visits: nat, cap: real)
    requires visits >= 1 && cap > 0.0
    ensures Bound(visits, cap) == (visits - 1) as real * cap
  {
    if visits > 1 {
      BoundIsProduct(visits - 1, cap);
      assert (visits - 1) as real == (visits - 2) as real + 1.0;
    }
  }

  lemma PointsWithinCap(s: Settings, arrivals: seq<Arrival>, a: Arrival)
    ensures var cap := if s.cap > 0.0 then s.cap else 0.0; -cap <= LegPoints(s, arrivals, a) <= cap
  {
    var previous := LatestBut(arrivals, a.team, a.checkpoint);
    if previous.Some? && s.cap > 0.0 { PointsInRange(a.at - previous.value, s); }
  }

  lemma {:induction false} TotalWithinBound(s: Settings, scans: seq<Arrival>, team: int)
    ensures var log := Run(s, scans); var bound := Bound(Visits(log.arrivals, team), s.cap);
            -bound <= Total(log.awards, team) <= bound
  {
    if scans != [] {
      var before, a := Run(s, scans[..|scans| - 1]), scans[|scans| - 1];
      TotalWithinBound(s, scans[..|scans| - 1], team);
      if !Recorded(before.arrivals, a.team, a.checkpoint) {
        TotalAfter(s, before, a, team);
        VisitsAfter(before.arrivals, a, team);
        PointsWithinCap(s, before.arrivals, a);
        BoundGrows(Visits(before.arrivals, team), s.cap);
        if a.team == team && Visits(before.arrivals, team) == 0 { NoneYet(before.arrivals, team, a.checkpoint); }
      }
    }
  }

  /** Over any run, leg times move a team's total by at most (arrivals - 1) times the cap; with no cap, not at all. */
  lemma {:induction false} LegTimesAreBounded(s: Settings, scans: seq<Arrival>, team: int)
    ensures var log := Run(s, scans); var total := Total(log.awards, team); var n := Visits(log.arrivals, team);
            if n == 0 || s.cap <= 0.0 then total == 0.0 else -((n - 1) as real * s.cap) <= total <= (n - 1) as real * s.cap
  {
    var log := Run(s, scans);
    var n := Visits(log.arrivals, team);
    assert -Bound(n, s.cap) <= Total(log.awards, team) <= Bound(n, s.cap) by { TotalWithinBound(s, scans, team); }
    if n >= 1 && s.cap > 0.0 {
      assert Bound(n, s.cap) == (n - 1) as real * s.cap by { BoundIsProduct(n, s.cap); }
    } else {
      assert Bound(n, s.cap) == 0.0;
    }
  }

  // ---- Telescoping -------------------------------------------------------------------------------------

  /** A team's legs so far: how many counted, and where the first began and the last ended. */
  datatype Legs = Legs(count: int, first: real, last: real)

  function LegsOf(arrivals: seq<Arrival>, team: int): Option<Legs> {
    if arrivals == [] then None
    else
      var before, a := LegsOf(arrivals[..|arrivals| - 1], team), arrivals[|arrivals| - 1];
      if a.team != team then before
      else
        match before
        case None => Some(Legs(0, a.at, a.at))
        case Some(l) => if a.at > l.last then Some(Legs(l.count + 1, l.first, a.at)) else Some(l)
  }

  lemma {:induction false} LegsAfter(arrivals: seq<Arrival>, a: Arrival, team: int)
    ensures LegsOf(arrivals + [a], team) ==
            if a.team != team then LegsOf(arrivals, team)
            else
              (match LegsOf(arrivals, team)
               case None => Some(Legs(0, a.at, a.at))
               case Some(l) => if a.at > l.last then Some(Legs(l.count + 1, l.first, a.at)) else Some(l))
  {
    assert (arrivals + [a])[..|arrivals|] == arrivals;
  }

  /** A post the team has not been to: the latest arrival anywhere is the latest elsewhere. */
  lemma {:induction false} LatestIsLast(arrivals: seq<Arrival>, team: int, checkpoint: int)
    requires !Recorded(arrivals, team, checkpoint)
    ensures LatestBut(arrivals, team, checkpoint) ==
            (match LegsOf(arrivals, team) case None => None case Some(l) => Some(l.last))
  {
    if arrivals != [] {
      var front := arrivals[..|arrivals| - 1];
      assert forall i | 0 <= i < |front| :: front[i] == arrivals[i];
      LatestIsLast(front, team, checkpoint);
    }
  }

  /** The leg this scan ends, if it ends one, is not capped. */
  predicate LegUncapped(s: Settings, arrivals: seq<Arrival>, a: Arrival) {
    match LatestBut(arrivals, a.team, a.checkpoint)
    case None => true
    case Some(previous) =>
      a.at > previous ==> -s.cap <= (s.target - (a.at - previous)) * s.rate <= s.cap
  }

  lemma {:induction false} UncappedPoints(s: Settings, arrivals: seq<Arrival>, a: Arrival)
    requires s.enabled && s.rate > 0.0 && s.cap > 0.0 && LegUncapped(s, arrivals, a)
    ensures LegPoints(s, arrivals, a) ==
            (match LatestBut(arrivals, a.team, a.checkpoint)
             case None => 0.0
             case Some(previous) => if a.at > previous then (s.target - (a.at - previous)) * s.rate else 0.0)
  {
  }

  function ExpectedFor(s: Settings, legs: Option<Legs>): real {
    match legs
    case None => 0.0
    case Some(l) => Expected(s, l)
  }

  predicate RunUncapped(s: Settings, scans: seq<Arrival>) {
    scans == [] || (RunUncapped(s, scans[..|scans| - 1])
                    && LegUncapped(s, Run(s, scans[..|scans| - 1]).arrivals, scans[|scans| - 1]))
  }

  function Expected(s: Settings, l: Legs): real {
    (l.count as real * s.target - (l.last - l.first)) * s.rate
  }

  lemma OneMoreLeg(s: Settings, l: Legs, at: real)
    ensures Expected(s, Legs(l.count + 1, l.first, at)) == Expected(s, l) + (s.target - (at - l.last)) * s.rate
  {
    var x, y := l.count as real * s.target - (l.last - l.first), s.target - (at - l.last);
    assert (l.count + 1) as real * s.target == l.count as real * s.target + s.target;
    assert (x + y) * s.rate == x * s.rate + y * s.rate;
  }

  lemma FirstLeg(s: Settings, at: real)
    ensures Expected(s, Legs(0, at, at)) == 0.0
  {
  }

  /** One more arrival moves what is expected by the points it is given. */
  lemma {:induction false} ExpectedAfter(s: Settings, arrivals: seq<Arrival>, a: Arrival)
    requires s.enabled && s.rate > 0.0 && s.cap > 0.0 && LegUncapped(s, arrivals, a)
    requires !Recorded(arrivals, a.team, a.checkpoint)
    ensures ExpectedFor(s, LegsOf(arrivals + [a], a.team)) ==
            ExpectedFor(s, LegsOf(arrivals, a.team)) + LegPoints(s, arrivals, a)
  {
    LegsAfter(arrivals, a, a.team);
    LatestIsLast(arrivals, a.team, a.checkpoint);
    UncappedPoints(s, arrivals, a);
    match LegsOf(arrivals, a.team)
    case None => FirstLeg(s, a.at);
    case Some(l) => OneMoreLeg(s, l, a.at);
  }

  /**
   When no leg is capped the points telescope: only how many legs counted and how long the team was
   under way matter, not where the time was spent.
   */
  lemma {:induction false} LegTimesTelescope(s: Settings, scans: seq<Arrival>, team: int)
    requires s.enabled && s.rate > 0.0 && s.cap > 0.0 && RunUncapped(s, scans)
    ensures var log := Run(s, scans); Total(log.awards, team) == ExpectedFor(s, LegsOf(log.arrivals, team))
  {
    if scans != [] {
      var before, a := Run(s, scans[..|scans| - 1]), scans[|scans| - 1];
      LegTimesTelescope(s, scans[..|scans| - 1], team);
      if !Recorded(before.arrivals, a.team, a.checkpoint) {
        TotalAfter(s, before, a, team);
        LegsAfter(before.arrivals, a, team);
        if a.team == team { ExpectedAfter(s, before.arrivals, a); }
      }
    }
  }

  /** The team's own arrivals, each later than the one before. */
  ghost predicate Increasing(arrivals: seq<Arrival>, team: int) {
    forall i, j | 0 <= i < j < |arrivals| && arrivals[i].team == team == arrivals[j].team :: arrivals[i].at < arrivals[j].at
  }

  /** The first and last times are those of arrivals of the team, and the earliest and latest of them. */
  lemma {:induction false} LegsSpanArrivals(arrivals: seq<Arrival>, team: int)
    requires Increasing(arrivals, team)
    ensures forall a | a in arrivals && a.team == team ::
              LegsOf(arrivals, team).Some? && LegsOf(arrivals, team).value.first <= a.at <= LegsOf(arrivals, team).value.last
    ensures LegsOf(arrivals, team).Some? ==>
              exists a :: a in arrivals && a.team == team && a.at == LegsOf(arrivals, team).value.first
  {
    if arrivals != [] {
      var n := |arrivals| - 1;
      var front, last := arrivals[..n], arrivals[n];
      assert arrivals == front + [last];
      LegsSpanArrivals(front, team);
      EveryArrivalIsALeg(front, team);
      LastAttained(front, team);
      assert last in arrivals && forall a :: a in arrivals <==> a in front || a == last;
    }
  }

  /** The last leg ended with an arrival of the team. */
  lemma {:induction false} LastAttained(arrivals: seq<Arrival>, team: int)
    ensures LegsOf(arrivals, team).Some? ==>
              exists a :: a in arrivals && a.team == team && a.at == LegsOf(arrivals, team).value.last
  {
    if arrivals != [] {
      var front, last := arrivals[..|arrivals| - 1], arrivals[|arrivals| - 1];
      assert arrivals == front + [last];
      LastAttained(front, team);
      assert last in arrivals && forall a | a in front :: a in arrivals;
    }
  }

  /** With increasing times every arrival after the first counts as a leg. */
  lemma {:induction false} EveryArrivalIsALeg(arrivals: seq<Arrival>, team: int)
    requires Increasing(arrivals, team)
    ensures LegsOf(arrivals, team) == None <==> Visits(arrivals, team) == 0
    ensures LegsOf(arrivals, team).Some? ==> LegsOf(arrivals, team).value.count == Visits(arrivals, team) - 1
  {
    if arrivals != [] {
      var n := |arrivals| - 1;
      var front, last := arrivals[..n], arrivals[n];
      assert arrivals == front + [last];
      EveryArrivalIsALeg(front, team);
      LastAttained(front, team);
      if LegsOf(front, team).Some? {
        var a :| a in front && a.team == team && a.at == LegsOf(front, team).value.last;
        var i :| 0 <= i < |front| && front[i] == a;
        assert arrivals[i] == a && arrivals[n] == last;
      }
    }
  }

  /** The team's earliest and latest arrivals. */
  ghost predicate Earliest(arrivals: seq<Arrival>, team: int, a: Arrival) {
    a in arrivals && a.team == team && forall b | b in arrivals && b.team == team :: a.at <= b.at
  }

  ghost predicate Latest(arrivals: seq<Arrival>, team: int, a: Arrival) {
    a in arrivals && a.team == team && forall b | b in arrivals && b.team == team :: b.at <= a.at
  }

  lemma {:induction false} LegsEnds(arrivals: seq<Arrival>, team: int, first: Arrival, last: Arrival)
    requires Increasing(arrivals, team) && Earliest(arrivals, team, first) && Latest(arrivals, team, last)
    ensures LegsOf(arrivals, team) == Some(Legs(Visits(arrivals, team) - 1, first.at, last.at))
  {
    EveryArrivalIsALeg(arrivals, team);
    LastAttained(arrivals, team);
    LegsSpanArrivals(arrivals, team);
    assert first in arrivals && last in arrivals;
    var l := LegsOf(arrivals, team).value;
    assert l.first <= first.at && last.at <= l.last;
    var a :| a in arrivals && a.team == team && a.at == l.first;
    var b :| b in arrivals && b.team == team && b.at == l.last;
  }

  lemma ExpectedOf(s: Settings, legs: Option<Legs>, count: int, first: real, last: real)
    requires legs == Some(Legs(count, first, last))
    ensures ExpectedFor(s, legs) == (count as real * s.target - (last - first)) * s.rate
  {
  }

  lemma {:induction false} InOrderLog(s: Settings, log: Log, team: int, first: Arrival, last: Arrival)
    requires Increasing(log.arrivals, team) && Earliest(log.arrivals, team, first) && Latest(log.arrivals, team, last)
    requires Total(log.awards, team) == ExpectedFor(s, LegsOf(log.arrivals, team))
    ensures Total(log.awards, team) ==
            ((Visits(log.arrivals, team) - 1) as real * s.target - (last.at - first.at)) * s.rate
  {
    LegsEnds(log.arrivals, team, first, last);
    ExpectedOf(s, LegsOf(log.arrivals, team), Visits(log.arrivals, team) - 1, first.at, last.at);
  }

  /** Arrivals in order, no leg capped: ((arrivals - 1) * target - (latest - earliest)) * rate. */
  lemma {:induction false} InOrderTelescope(s: Settings, scans: seq<Arrival>, log: Log, team: int,
                                            first: Arrival, last: Arrival)
    requires s.enabled && s.rate > 0.0 && s.cap > 0.0 && RunUncapped(s, scans) && log == Run(s, scans)
    requires Increasing(log.arrivals, team) && Earliest(log.arrivals, team, first) && Latest(log.arrivals, team, last)
    ensures Total(log.awards, team) ==
            ((Visits(log.arrivals, team) - 1) as real * s.target - (last.at - first.at)) * s.rate
  {
    assert Total(log.awards, team) == ExpectedFor(s, LegsOf(log.arrivals, team)) by { LegTimesTelescope(s, scans, team); }
    InOrderLog(s, log, team, first, last);
  }
}
