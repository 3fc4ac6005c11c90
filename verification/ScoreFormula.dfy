/**
 How one result is scored: relative ranking on completion times for timed activities, the
 activity type's own scoring otherwise, then extra shots and penalties.
 */
module ScoreFormula {
  import opened Lists
  import opened Scoring
  import opened Sorting
  import opened Wrappers

  /** The settings a score depends on; `base` is an activity's own scoring of a form, for a team of some size. */
  datatype Rules = Rules(activities: map<int, Activity>, size: map<int, nat>, bonusPerShot: real,
                         base: (int, Data, nat) -> real)

  function CountLess(times: seq<real>, t: real): (n: nat)
    ensures n <= |times|
  {
    if times == [] then 0
    else CountLess(times[..|times| - 1], t) + (if times[|times| - 1] < t then 1 else 0)
  }

  predicate IsSlowest(times: seq<real>, t: real) { forall x | x in times :: x <= t }

  /** Rank among all times: first gets the maximum, the slowest the minimum, the rest in between. */
  function RankingScore(a: Activity, times: seq<real>, t: real): real {
    if t !in times then 0.0
    else
      var faster := CountLess(times, t);
      if |times| == 1 || faster == 0 then a.maxPoints
      else if IsSlowest(times, t) then a.minPoints
      else Between(a, faster, |times|)
  }

  /** The maximum less the share of the range that the faster teams cost. */
  function Between(a: Activity, faster: nat, count: nat): real {
    if count <= 1 then a.maxPoints
    else a.maxPoints - (a.maxPoints - a.minPoints) * (faster as real / (count - 1) as real)
  }

  function PenaltySum(penalties: seq<Penalty>): int {
    if penalties == [] then 0
    else PenaltySum(penalties[..|penalties| - 1]) + penalties[|penalties| - 1].points
  }

  /** What extra shots add, less the penalties. */
  function ModifierSum(shots: int, bonusPerShot: real, penalties: seq<Penalty>): real {
    (if shots > 0 then shots as real * bonusPerShot else 0.0) - PenaltySum(penalties) as real
  }

  /** A score is never negative. */
  function Modified(base: real, shots: int, bonusPerShot: real, penalties: seq<Penalty>): real {
    var x := base + ModifierSum(shots, bonusPerShot, penalties);
    if x < 0.0 then 0.0 else x
  }

  function SizeOf(rules: Rules, team: int): nat {
    if team in rules.size && rules.size[team] > 0 then rules.size[team] else 1
  }

  predicate IsTimedEntry(rules: Rules, e: Entry) {
    e.activity in rules.activities && rules.activities[e.activity].timed && e.data.time.Some?
  }

  /** What the modifiers of a timed result are applied to. */
  function TimedBase(a: Activity, times: seq<real>, t: real): real {
    if |times| > 1 then RankingScore(a, times, t) else a.maxPoints
  }

  function BaseOf(rules: Rules, e: Entry, times: seq<real>): real {
    if IsTimedEntry(rules, e) then TimedBase(rules.activities[e.activity], times, e.data.time.value)
    else rules.base(e.activity, e.data, SizeOf(rules, e.team))
  }

  function FinalScore(rules: Rules, e: Entry, times: seq<real>): real {
    Modified(BaseOf(rules, e, times), e.shots, rules.bonusPerShot, e.penalties)
  }

  // ---- Scores depend on the times only as a multiset ------------------------------------------------

  lemma {:induction false} CountLessConcat(a: seq<real>, b: seq<real>, t: real)
    ensures CountLess(a + b, t) == CountLess(a, t) + CountLess(b, t)
  {
    if b == [] {
      assert a + b == a;
    } else {
      var front, x := b[..|b| - 1], b[|b| - 1];
      CountLessConcat(a, front, t);
      assert a + b == (a + front) + [x];
      Snoc(a + front, x);
    }
  }

  lemma {:induction false} CountLessPermutation(a: seq<real>, b: seq<real>, t: real)
    requires multiset(a) == multiset(b)
    ensures CountLess(a, t) == CountLess(b, t)
    decreases |a|
  {
    SameMembers(a, b);
    if a != [] {
      var x := a[|a| - 1];
      var left, right := Extract(a, b);
      CountLessPermutation(a[..|a| - 1], left + right, t);
      CountLessConcat(left, right, t);
      CountLessConcat(left + [x], right, t);
      Snoc(left, x);
    }
  }

  lemma ScorePermutation(rules: Rules, e: Entry, a: seq<real>, b: seq<real>)
    requires multiset(a) == multiset(b)
    ensures FinalScore(rules, e, a) == FinalScore(rules, e, b)
  {
    SameMembers(a, b);
    if e.data.time.Some? {
      CountLessPermutation(a, b, e.data.time.value);
    }
  }

  lemma {:induction false} CountLessMonotone(times: seq<real>, s: real, t: real)
    requires s <= t
    ensures CountLess(times, s) <= CountLess(times, t)
    ensures s in times && s < t ==> CountLess(times, s) < CountLess(times, t)
    ensures t in times ==> CountLess(times, t) < |times|
  {
    if times != [] {
      var front := times[..|times| - 1];
      var last := times[|times| - 1];
      CountLessMonotone(front, s, t);
      assert times == front + [last];
      assert forall x :: x in times <==> x in front || x == last;
    }
  }

  lemma ScaleMonotone(range: real, a: nat, b: nat, n: nat)
    requires range >= 0.0 && a <= b <= n && n > 0
    ensures 0.0 <= range * (a as real / n as real) <= range * (b as real / n as real) <= range
  {
    var x, y := a as real / n as real, b as real / n as real;
    assert 0.0 <= x <= y <= 1.0;
    assert range * x <= range * y;
  }

  /** More faster teams never give more, and the bounds hold. */
  lemma BetweenIsFair(a: Activity, f: nat, s: nat, count: nat)
    requires a.minPoints <= a.maxPoints && f <= s < count && count > 1
    ensures a.minPoints <= Between(a, s, count) <= Between(a, f, count) <= a.maxPoints
  {
    var range, n := a.maxPoints - a.minPoints, count - 1;
    ScaleMonotone(range, f, s, n);
    assert Between(a, f, count) == a.maxPoints - range * (f as real / n as real);
    assert Between(a, s, count) == a.maxPoints - range * (s as real / n as real);
  }

  lemma RankedBetween(a: Activity, times: seq<real>, t: real)
    requires a.minPoints <= a.maxPoints && t in times
    ensures a.minPoints <= RankingScore(a, times, t) <= a.maxPoints
  {
    CountLessMonotone(times, t, t);
    if |times| > 1 { BetweenIsFair(a, CountLess(times, t), CountLess(times, t), |times|); }
  }

  /** A faster team never scores less, and every ranked score lies between the two bounds. */
  lemma RankingIsFair(a: Activity, times: seq<real>, fast: real, slow: real)
    requires a.minPoints <= a.maxPoints && fast in times && slow in times && fast <= slow
    ensures a.minPoints <= RankingScore(a, times, slow) <= RankingScore(a, times, fast) <= a.maxPoints
  {
    RankedBetween(a, times, fast);
    RankedBetween(a, times, slow);
    CountLessMonotone(times, fast, slow);
    CountLessMonotone(times, slow, slow);
    if |times| > 1 { BetweenIsFair(a, CountLess(times, fast), CountLess(times, slow), |times|); }
    assert IsSlowest(times, fast) ==> fast == slow;
  }

  lemma {:induction false} NobodyFaster(times: seq<real>, t: real)
    ensures CountLess(times, t) == 0 <==> forall x | x in times :: t <= x
  {
    if times != [] {
      var front, last := times[..|times| - 1], times[|times| - 1];
      NobodyFaster(front, t);
      assert last in times && forall x :: x in times <==> x in front || x == last;
    }
  }

  /** The fastest get the maximum, and the slowest, if not everybody is, the minimum. */
  lemma {:induction false} RankingEnds(a: Activity, times: seq<real>, t: real)
    requires t in times
    ensures (forall x | x in times :: t <= x) ==> RankingScore(a, times, t) == a.maxPoints
    ensures (exists x :: x in times && x < t) && IsSlowest(times, t) ==> RankingScore(a, times, t) == a.minPoints
  {
    NobodyFaster(times, t);
    assert |times| == 1 ==> times == [times[0]];
  }

  /** Ranks are equally spaced: each faster team costs the same share of the range. */
  lemma RanksAreSpaced(a: Activity, f: nat, count: nat)
    requires count > 1
    ensures (a.maxPoints - Between(a, f, count)) * (count - 1) as real == (a.maxPoints - a.minPoints) * f as real
  {
    ShareScaled(a.maxPoints - a.minPoints, f, count - 1);
  }

  lemma ShareScaled(range: real, f: nat, n: nat)
    requires n > 0
    ensures range * (f as real / n as real) * n as real == range * f as real
  {
    var x := f as real / n as real;
    assert x * n as real == f as real;
    assert range * x * n as real == range * (x * n as real);
  }

  /** A score is never negative, and while it is positive each penalty point costs exactly one point. */
  lemma PenaltyIsFelt(base: real, shots: int, bonus: real, penalties: seq<Penalty>, p: Penalty)
    requires p.points >= 0
    ensures var before, after := Modified(base, shots, bonus, penalties), Modified(base, shots, bonus, penalties + [p]);
            0.0 <= after <= before && (after > 0.0 ==> before - after == p.points as real)
  {
    assert (penalties + [p])[..|penalties|] == penalties;
  }

  lemma {:induction false} PenaltySumCons(p: Penalty, rest: seq<Penalty>)
    ensures PenaltySum([p] + rest) == p.points + PenaltySum(rest)
  {
    var all := [p] + rest;
    if rest == [] {
      assert all[..|all| - 1] == [];
    } else {
      PenaltySumCons(p, rest[..|rest| - 1]);
      assert all[..|all| - 1] == [p] + rest[..|rest| - 1];
    }
  }

  /** What modifiers come to: without any, the base; negative shots add nothing, and one more adds one bonus. */
  lemma ShotsAreFelt(base: real, shots: int, bonus: real, penalties: seq<Penalty>)
    ensures Modified(base, 0, bonus, []) == if base > 0.0 then base else 0.0
    ensures shots <= 0 ==> Modified(base, shots, bonus, penalties) == Modified(base, 0, bonus, penalties)
    ensures shots >= 0 ==> ModifierSum(shots + 1, bonus, penalties) == ModifierSum(shots, bonus, penalties) + bonus
    ensures Modified(base, shots, bonus, penalties) > 0.0 ==>
              Modified(base, shots, bonus, penalties) == base + ModifierSum(shots, bonus, penalties)
  {
    assert PenaltySum([]) == 0;
    assert shots >= 0 ==> (shots + 1) as real * bonus == shots as real * bonus + bonus;
  }

  /** A result of any other type has its own score of the form, for a team of at least one. */
  lemma OwnScoring(rules: Rules, e: Entry, times: seq<real>)
    requires !(e.activity in rules.activities && rules.activities[e.activity].timed && e.data.time.Some?)
    ensures var n := if e.team in rules.size && rules.size[e.team] >= 1 then rules.size[e.team] else 1;
            FinalScore(rules, e, times) == Modified(rules.base(e.activity, e.data, n), e.shots, rules.bonusPerShot, e.penalties)
  {
  }

  /** A timed result is scored on its rank among several times, and with the maximum when it is alone. */
  lemma TimedScoring(rules: Rules, e: Entry, times: seq<real>, t: real)
    requires e.activity in rules.activities && rules.activities[e.activity].timed && e.data.time == Some(t)
    ensures var a := rules.activities[e.activity];
            && (|times| <= 1 ==> FinalScore(rules, e, times) == Modified(a.maxPoints, e.shots, rules.bonusPerShot, e.penalties))
            && (t in times ==> FinalScore(rules, e, times) ==
                               Modified(RankingScore(a, times, t), e.shots, rules.bonusPerShot, e.penalties))
            && (|times| > 1 && t !in times ==> FinalScore(rules, e, times) == Modified(0.0, e.shots, rules.bonusPerShot, e.penalties))
  {
    assert |times| == 1 && t in times ==> times == [t];
  }
}
