/**
 The rotation schedule: in round r the team at position p is sent to checkpoint (p + r) mod K.
 */
module RoundRobin {
  import opened Sets

  datatype Visit = Visit(team: int, checkpoint: int)

  function Max(a: int, b: int): int { if a < b then b else a }

  function Round(teams: seq<int>, checkpoints: seq<int>, r: nat, n: nat): (round: seq<Visit>)
    requires checkpoints != [] && n <= |teams|
    ensures |round| == n
  {
    if n == 0 then []
    else Round(teams, checkpoints, r, n - 1) + [Visit(teams[n - 1], checkpoints[(n - 1 + r) % |checkpoints|])]
  }

  function Rounds(teams: seq<int>, checkpoints: seq<int>, n: nat): (schedule: seq<seq<Visit>>)
    requires checkpoints != []
    ensures |schedule| == n
  {
    if n == 0 then [] else Rounds(teams, checkpoints, n - 1) + [Round(teams, checkpoints, n - 1, |teams|)]
  }

  function Schedule(teams: seq<int>, checkpoints: seq<int>): seq<seq<Visit>> {
    if teams == [] || checkpoints == [] then [] else Rounds(teams, checkpoints, Max(|teams|, |checkpoints|))
  }

  method GenerateSchedule(teams: seq<int>, checkpoints: seq<int>) returns (schedule: seq<seq<Visit>>)
    ensures schedule == Schedule(teams, checkpoints)
  {
    var nTeams, nCheckpoints := |teams|, |checkpoints|;
    if nTeams == 0 || nCheckpoints == 0 { return []; }
    var nRounds := Max(nTeams, nCheckpoints);
    schedule := [];
    for r := 0 to nRounds
      invariant schedule == Rounds(teams, checkpoints, r)
    {
      var assignments := [];
      for p := 0 to nTeams
        invariant assignments == Round(teams, checkpoints, r, p)
      {
        var k := (p + r) % nCheckpoints;
        assignments := assignments + [Visit(teams[p], checkpoints[k])];
      }
      schedule := schedule + [assignments];
    }
  }

  lemma {:induction false} RoundAt(teams: seq<int>, checkpoints: seq<int>, r: nat, n: nat, p: nat)
    requires checkpoints != [] && p < n <= |teams|
    ensures Round(teams, checkpoints, r, n)[p] == Visit(teams[p], checkpoints[(p + r) % |checkpoints|])
  {
    if p < n - 1 { RoundAt(teams, checkpoints, r, n - 1, p); }
  }

  lemma {:induction false} RoundsAt(teams: seq<int>, checkpoints: seq<int>, n: nat, r: nat)
    requires checkpoints != [] && r < n
    ensures Rounds(teams, checkpoints, n)[r] == Round(teams, checkpoints, r, |teams|)
  {
    if r < n - 1 { RoundsAt(teams, checkpoints, n - 1, r); }
  }

  // ---- Counting residues -----------------------------------------------------------------------

  lemma MulSign(k: int, x: int)
    requires k > 0
    ensures x >= 1 ==> k * x >= k
    ensures x <= -1 ==> k * x <= -k
  {
  }

  /** A number has one quotient and one remainder. */
  lemma Unique(k: int, a: int, m: int, b: int, d: int)
    requires k > 0 && 0 <= m < k && 0 <= d < k && k * a + m == k * b + d
    ensures a == b && m == d
  {
    assert k * (a - b) == k * a - k * b;
    MulSign(k, a - b);
  }

  lemma DivMod(x: int, k: int, q: int, m: int)
    requires k > 0 && x == k * q + m && 0 <= m < k
    ensures x / k == q && x % k == m
  {
    assert x == k * (x / k) + x % k;
    Unique(k, x / k, x % k, q, m);
  }

  /** p + r leaves remainder c exactly when p and c - r leave the same one. */
  lemma ShiftedResidue(p: int, r: int, c: int, k: int, a: int, m: int, b: int, d: int)
    requires k > 0 && 0 <= c < k && p == k * a + m && 0 <= m < k && c - r == k * b + d && 0 <= d < k
    ensures (p + r) % k == c <==> m == d
  {
    var q, e := (p + r) / k, (p + r) % k;
    assert p + r == k * q + e;
    assert k * (a - b) == k * a - k * b && k * (q + b) == k * q + k * b;
    if m == d { DivMod(p + r, k, a - b, c); }
    if e == c { Unique(k, a, m, q + b, d); }
  }

  /** The positions that meet a given checkpoint in a round are those of one residue. */
  lemma SameResidue(p: int, r: int, c: int, k: int)
    requires k > 0 && 0 <= c < k
    ensures (p + r) % k == c <==> p % k == (c - r) % k
  {
    ShiftedResidue(p, r, c, k, p / k, p % k, (c - r) / k, (c - r) % k);
  }

  /** How many of 0, ..., n - 1 leave remainder d. */
  function Residues(n: nat, k: int, d: int): nat {
    if n == 0 || k <= 0 then 0 else Residues(n - 1, k, d) + (if (n - 1) % k == d then 1 else 0)
  }

  /** One more number, the (q * k + m)-th, adds to the count of remainder m. */
  lemma {:induction false} OneMoreResidue(n: nat, q: int, m: int, k: int, d: int)
    requires 0 <= m < k && n == k * q + m
    ensures Residues(n + 1, k, d) == Residues(n, k, d) + (if m == d then 1 else 0)
  {
    DivMod(n, k, q, m);
  }

  lemma LastOfBlock(n: nat, q: int, k: int)
    requires n == k * q && n > 0 && k > 0
    ensures n - 1 == k * (q - 1) + (k - 1)
  {
    assert k * (q - 1) == k * q - k;
  }

  lemma {:induction false} ResiduesOf(n: nat, q: int, m: int, k: int, d: int)
    requires 0 <= d < k && n == k * q + m && 0 <= m < k
    ensures Residues(n, k, d) == q + (if d < m then 1 else 0)
    decreases n
  {
    if n == 0 {
      Unique(k, q, m, 0, 0);
    } else if m > 0 {
      ResiduesOf(n - 1, q, m - 1, k, d);
      OneMoreResidue(n - 1, q, m - 1, k, d);
    } else {
      LastOfBlock(n, q, k);
      ResiduesOf(n - 1, q - 1, k - 1, k, d);
      OneMoreResidue(n - 1, q - 1, k - 1, k, d);
    }
  }

  lemma {:induction false} ResiduesCount(n: nat, k: int, d: int)
    requires 0 <= d < k
    ensures Residues(n, k, d) == n / k + (if d < n % k then 1 else 0)
  {
    ResiduesOf(n, n / k, n % k, k, d);
  }

  // ---- One round -----------------------------------------------------------------------------------

  /** How many teams a round sends to the checkpoint. */
  function Hosted(round: seq<Visit>, checkpoint: int): nat {
    if round == [] then 0
    else Hosted(round[..|round| - 1], checkpoint) + (if round[|round| - 1].checkpoint == checkpoint then 1 else 0)
  }

  lemma SameCheckpoint(checkpoints: seq<int>, p: nat, r: nat, c: nat)
    requires NoDuplicates(checkpoints) && c < |checkpoints|
    ensures checkpoints[(p + r) % |checkpoints|] == checkpoints[c] <==>
            p % |checkpoints| == (c - r) % |checkpoints|
  {
    SameResidue(p, r, c, |checkpoints|);
    var k := (p + r) % |checkpoints|;
    assert 0 <= k < |checkpoints|;
  }

  lemma {:induction false} HostedIsResidues(teams: seq<int>, checkpoints: seq<int>, r: nat, n: nat, c: nat, d: int)
    requires NoDuplicates(checkpoints) && c < |checkpoints| && n <= |teams| && d == (c - r) % |checkpoints|
    ensures Hosted(Round(teams, checkpoints, r, n), checkpoints[c]) == Residues(n, |checkpoints|, d)
  {
    if n > 0 {
      HostedIsResidues(teams, checkpoints, r, n - 1, c, d);
      SameCheckpoint(checkpoints, n - 1, r, c);
      var round := Round(teams, checkpoints, r, n);
      assert round[..n - 1] == Round(teams, checkpoints, r, n - 1);
    }
  }

  /** Each round sends floor(N / K) or ceil(N / K) teams to every checkpoint. */
  lemma {:induction false} BalancedLoad(teams: seq<int>, checkpoints: seq<int>, r: nat, c: nat)
    requires NoDuplicates(checkpoints) && c < |checkpoints|
    ensures var n, k := |teams|, |checkpoints|; var load := Hosted(Round(teams, checkpoints, r, n), checkpoints[c]);
            load == n / k + (if (c - r) % k < n % k then 1 else 0)
    ensures |teams| <= |checkpoints| ==> Hosted(Round(teams, checkpoints, r, |teams|), checkpoints[c]) <= 1
  {
    var n, k := |teams|, |checkpoints|;
    HostedIsResidues(teams, checkpoints, r, n, c, (c - r) % k);
    ResiduesCount(n, k, (c - r) % k);
    if n < k { DivMod(n, k, 0, n); }
    if n == k { DivMod(n, k, 1, 0); }
  }

  /** Each team appears in each round, and only once. */
  lemma OncePerRound(teams: seq<int>, checkpoints: seq<int>, r: nat, p: nat, q: nat)
    requires NoDuplicates(teams) && p < |teams| && q < |teams|
    requires r < |Schedule(teams, checkpoints)|
    ensures |Schedule(teams, checkpoints)[r]| == |teams|
    ensures Schedule(teams, checkpoints)[r][q].team == teams[p] <==> q == p
  {
    RoundsAt(teams, checkpoints, Max(|teams|, |checkpoints|), r);
    RoundAt(teams, checkpoints, r, |teams|, q);
  }

  // ---- The whole schedule ------------------------------------------------------------------------------

  predicate MeetsIn(round: seq<Visit>, p: nat, checkpoint: int) { p < |round| && round[p].checkpoint == checkpoint }

  /** In how many of the rounds the team at position p meets the checkpoint. */
  function Meetings(schedule: seq<seq<Visit>>, p: nat, checkpoint: int): nat {
    if schedule == [] then 0
    else
      var n := |schedule| - 1;
      Meetings(schedule[..n], p, checkpoint) + (if MeetsIn(schedule[n], p, checkpoint) then 1 else 0)
  }

  lemma {:induction false} MeetsInRound(teams: seq<int>, checkpoints: seq<int>, r: nat, p: nat, c: nat)
    requires NoDuplicates(checkpoints) && c < |checkpoints| && p < |teams|
    ensures MeetsIn(Round(teams, checkpoints, r, |teams|), p, checkpoints[c]) <==>
            r % |checkpoints| == (c - p) % |checkpoints|
  {
    RoundAt(teams, checkpoints, r, |teams|, p);
    SameCheckpoint(checkpoints, r, p, c);
  }

  lemma {:induction false} MeetingsAreResidues(teams: seq<int>, checkpoints: seq<int>, n: nat, p: nat, c: nat, d: int)
    requires NoDuplicates(checkpoints) && c < |checkpoints| && p < |teams| && d == (c - p) % |checkpoints|
    ensures Meetings(Rounds(teams, checkpoints, n), p, checkpoints[c]) == Residues(n, |checkpoints|, d)
  {
    if n > 0 {
      MeetingsAreResidues(teams, checkpoints, n - 1, p, c, d);
      MeetsInRound(teams, checkpoints, n - 1, p, c);
      var schedule := Rounds(teams, checkpoints, n);
      assert schedule[..n - 1] == Rounds(teams, checkpoints, n - 1);
    }
  }

  lemma {:induction false} PairMeets(teams: seq<int>, checkpoints: seq<int>, p: nat, c: nat, n: nat, d: int)
    requires NoDuplicates(checkpoints) && c < |checkpoints| && p < |teams|
    requires n == Max(|teams|, |checkpoints|) && d == (c - p) % |checkpoints|
    ensures Meetings(Schedule(teams, checkpoints), p, checkpoints[c]) == Residues(n, |checkpoints|, d)
  {
    MeetingsAreResidues(teams, checkpoints, n, p, c, d);
  }

  lemma {:induction false} SomeResidue(n: nat, k: int, d: int)
    requires 0 <= d < k <= n
    ensures Residues(n, k, d) == n / k + (if d < n % k then 1 else 0) && Residues(n, k, d) >= 1
  {
    ResiduesCount(n, k, d);
    AtLeastOnce(n, k, n / k, n % k);
  }

  /** Each pair meets R / K times, rounded down or up, over the R rounds: at least once. */
  lemma {:induction false} EveryPairMeets(teams: seq<int>, checkpoints: seq<int>, p: nat, c: nat)
    requires NoDuplicates(checkpoints) && c < |checkpoints| && p < |teams|
    ensures var k, n := |checkpoints|, Max(|teams|, |checkpoints|);
            var met := Meetings(Schedule(teams, checkpoints), p, checkpoints[c]);
            met == n / k + (if (c - p) % k < n % k then 1 else 0) && met >= 1
  {
    var k, n := |checkpoints|, Max(|teams|, |checkpoints|);
    PairMeets(teams, checkpoints, p, c, n, (c - p) % k);
    SomeResidue(n, k, (c - p) % k);
  }

  lemma AtLeastOnce(n: int, k: int, q: int, m: int)
    requires n >= k > 0 && n == k * q + m && 0 <= m < k
    ensures q >= 1
    ensures n == k ==> q == 1 && m == 0
    ensures n > k ==> q >= 2 || m > 0
  {
    MulSign(k, q);
    if n == k { Unique(k, q, m, 1, 0); }
  }

  ghost predicate ExactlyOnce(teams: seq<int>, checkpoints: seq<int>) {
    forall p: nat, c: nat | p < |teams| && c < |checkpoints| ::
      Meetings(Schedule(teams, checkpoints), p, checkpoints[c]) == 1
  }

  lemma {:induction false} MetOnce(teams: seq<int>, checkpoints: seq<int>, p: nat, c: nat)
    requires NoDuplicates(checkpoints) && c < |checkpoints| && p < |teams| <= |checkpoints|
    ensures Meetings(Schedule(teams, checkpoints), p, checkpoints[c]) == 1
  {
    EveryPairMeets(teams, checkpoints, p, c);
    DivMod(|checkpoints|, |checkpoints|, 1, 0);
  }

  lemma MetTwice(teams: seq<int>, checkpoints: seq<int>)
    requires NoDuplicates(checkpoints) && 0 < |checkpoints| < |teams|
    ensures Meetings(Schedule(teams, checkpoints), 0, checkpoints[0]) >= 2
  {
    var k, n := |checkpoints|, |teams|;
    EveryPairMeets(teams, checkpoints, 0, 0);
    DivMod(0, k, 0, 0);
    AtLeastOnce(n, k, n / k, n % k);
  }

  /** Every team visits every checkpoint exactly once precisely when there are no more teams than checkpoints. */
  lemma ExactlyOnceIff(teams: seq<int>, checkpoints: seq<int>)
    requires NoDuplicates(checkpoints) && teams != [] && checkpoints != []
    ensures ExactlyOnce(teams, checkpoints) <==> |teams| <= |checkpoints|
  {
    if |teams| <= |checkpoints| {
      forall p: nat, c: nat | p < |teams| && c < |checkpoints|
        ensures Meetings(Schedule(teams, checkpoints), p, checkpoints[c]) == 1
      {
        MetOnce(teams, checkpoints, p, c);
      }
    } else {
      MetTwice(teams, checkpoints);
    }
  }

  // ---- The schedule, entry by entry ------------------------------------------------------------------

  /** As many rounds as the longer of the two lists; in round r the team at p goes to checkpoint p + r, counted round. */
  lemma {:induction false} ScheduleAt(teams: seq<int>, checkpoints: seq<int>, r: nat, p: nat)
    requires teams != [] && checkpoints != []
    ensures var schedule := Schedule(teams, checkpoints);
            && |schedule| == (if |teams| > |checkpoints| then |teams| else |checkpoints|)
            && (r < |schedule| && p < |teams| ==>
                  |schedule[r]| == |teams| && schedule[r][p] == Visit(teams[p], checkpoints[(p + r) % |checkpoints|]))
  {
    var schedule := Schedule(teams, checkpoints);
    if r < |schedule| && p < |teams| {
      RoundsAt(teams, checkpoints, |schedule|, r);
      RoundAt(teams, checkpoints, r, |teams|, p);
    }
  }
}
