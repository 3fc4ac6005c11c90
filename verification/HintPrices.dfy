/**
 Where the cost of a hint comes from: over every run it is a price that was set while the buying
 request was under way, and nothing is sold unless the mechanic was on meanwhile.
 */
module HintPrices {
  import opened HintLedger

  /** At some point of the run after request i began, the state was like this. */
  ghost predicate Seen(c: Config, s: State, run: seq<Action>, i: nat, p: State -> bool) {
    exists b: nat, m: nat, mid :: SeenAt(c, s, run, i, p, b, m, mid)
  }

  ghost predicate SeenAt(c: Config, s: State, run: seq<Action>, i: nat, p: State -> bool, b: nat, m: nat, mid: State) {
    b < m <= |run| && run[b] == Begin(i) && IsRun(c, s, run[..m], mid) && p(mid)
  }

  function PriceIs(cost: int): State -> bool { (s: State) => s.price == cost }

  function MechanicOn(): State -> bool { (s: State) => s.enabled }

  /** Between its beginning and its d-th step, the commit of request i, this price was set and the mechanic was on. */
  ghost predicate Paid(c: Config, s: State, run: seq<Action>, i: nat, d: nat, cost: int) {
    && d < |run| && run[d] == Commit(i)
    && Seen(c, s, run[..d], i, PriceIs(cost)) && Seen(c, s, run[..d], i, MechanicOn())
  }

  /** The commit of request i entered this reveal, at a cost paid so. */
  ghost predicate EnteredBy(c: Config, s: State, run: seq<Action>, sold: seq<Reveal>, r: Reveal, i: nat, d: nat) {
    && i < |c.requests| && c.requests[i].team == r.team && c.requests[i].checkpoint == r.checkpoint
    && Paid(c, s, run, i, d, r.cost)
    && exists pre :: IsRun(c, s, run[..d], pre) && pre.sold + [r] <= sold
  }

  // ---- What requests under way have seen --------------------------------------------------------------

  /** The cost a request has settled on, or may still settle on. */
  predicate HasCost(p: Phase) { p.Allowed? || p.Chosen? || p.Priced? || p.Inserted? || p.Billed? }

  function CostOf(p: Phase): int
    requires HasCost(p)
  {
    if p.Allowed? || p.Chosen? then p.seen else p.cost
  }

  ghost predicate Informed(c: Config, s: State, run: seq<Action>, i: nat, p: Phase) {
    && (p.Begun? ==> Begin(i) in run)
    && (HasCost(p) ==> Seen(c, s, run, i, PriceIs(CostOf(p))) && Seen(c, s, run, i, MechanicOn()))
    && (p.Granted? ==> exists d: nat :: Paid(c, s, run, i, d, p.cost))
  }

  ghost predicate AllInformed(c: Config, s: State, run: seq<Action>, t: State) {
    && Sized(c, t)
    && (forall i | 0 <= i < |t.phases| :: Informed(c, s, run, i, t.phases[i]))
    && (forall r | r in t.sold :: exists i: nat, d: nat :: EnteredBy(c, s, run, t.sold, r, i, d))
  }

  lemma {:induction false} SeenStays(c: Config, s: State, run: seq<Action>, n: nat, i: nat, p: State -> bool)
    requires n <= |run| && Seen(c, s, run[..n], i, p)
    ensures Seen(c, s, run, i, p)
  {
    var b: nat, m: nat, mid :| SeenAt(c, s, run[..n], i, p, b, m, mid);
    assert run[..n][..m] == run[..m];
    assert SeenAt(c, s, run, i, p, b, m, mid);
  }

  lemma {:induction false} PaidStays(c: Config, s: State, run: seq<Action>, n: nat, i: nat, d: nat, cost: int)
    requires n <= |run| && Paid(c, s, run[..n], i, d, cost)
    ensures Paid(c, s, run, i, d, cost)
  {
    assert run[..n][..d] == run[..d];
  }

  lemma {:induction false} EnteredStays(c: Config, s: State, run: seq<Action>, n: nat, sold: seq<Reveal>, more: seq<Reveal>,
                                        r: Reveal, i: nat, d: nat)
    requires n <= |run| && EnteredBy(c, s, run[..n], sold, r, i, d) && sold <= more
    ensures EnteredBy(c, s, run, more, r, i, d)
  {
    PaidStays(c, s, run, n, i, d, r.cost);
    assert run[..n][..d] == run[..d];
    var pre :| IsRun(c, s, run[..d], pre) && pre.sold + [r] <= sold;
  }

  lemma {:induction false} InformedStays(c: Config, s: State, run: seq<Action>, n: nat, i: nat, p: Phase)
    requires n <= |run| && Informed(c, s, run[..n], i, p)
    ensures Informed(c, s, run, i, p)
  {
    if p.Begun? { assert Begin(i) in run[..n]; }
    if HasCost(p) {
      SeenStays(c, s, run, n, i, PriceIs(CostOf(p)));
      SeenStays(c, s, run, n, i, MechanicOn());
    }
    if p.Granted? {
      var d: nat :| Paid(c, s, run[..n], i, d, p.cost);
      PaidStays(c, s, run, n, i, d, p.cost);
    }
  }

  /** Whoever has begun sees the present state. */
  lemma {:induction false} SeesNow(c: Config, s: State, run: seq<Action>, t: State, i: nat, p: State -> bool)
    requires IsRun(c, s, run, t) && Begin(i) in run && p(t)
    ensures Seen(c, s, run, i, p)
  {
    var b :| 0 <= b < |run| && run[b] == Begin(i);
    assert run[..|run|] == run;
    assert SeenAt(c, s, run, i, p, b, |run|, t);
  }

  lemma {:induction false} SeenHasBegun(c: Config, s: State, run: seq<Action>, i: nat, p: State -> bool)
    requires Seen(c, s, run, i, p)
    ensures Begin(i) in run
  {
    var b: nat, m: nat, mid :| SeenAt(c, s, run, i, p, b, m, mid);
  }

  // ---- Steps ------------------------------------------------------------------------------------------------

  /** The phase a request takes with its step, still told by what it has seen before that step. */
  lemma {:induction false} NextInformed(c: Config, s: State, front: seq<Action>, mid: State, a: Action)
    requires IsRun(c, s, front, mid) && Sized(c, mid) && Enabled(c, mid, a)
    requires !a.SetPrice? && !a.SetEnabled? && !a.Begin? && !a.Commit? && Informed(c, s, front, a.i, mid.phases[a.i])
    ensures Informed(c, s, front, a.i, Apply(c, mid, a).phases[a.i])
  {
    if a.Check? {
      SeesNow(c, s, front, mid, a.i, PriceIs(mid.price));
      SeesNow(c, s, front, mid, a.i, MechanicOn());
    }
    if a.ReadPrice? {
      SeenHasBegun(c, s, front, a.i, MechanicOn());
      SeesNow(c, s, front, mid, a.i, PriceIs(mid.price));
    }
  }

  lemma {:induction false} CommitPays(c: Config, s: State, run: seq<Action>, mid: State, i: nat)
    requires run != [] && run[|run| - 1] == Commit(i) && IsRun(c, s, run[..|run| - 1], mid)
    requires Sized(c, mid) && Enabled(c, mid, Commit(i)) && Informed(c, s, run[..|run| - 1], i, mid.phases[i])
    ensures Paid(c, s, run, i, |run| - 1, mid.phases[i].cost)
    ensures EnteredBy(c, s, run, Apply(c, mid, Commit(i)).sold, RevealOf(c, mid, i), i, |run| - 1)
  {
  }

  lemma {:induction false} PhaseInformed(c: Config, s: State, run: seq<Action>, mid: State, i: nat)
    requires run != [] && IsRun(c, s, run[..|run| - 1], mid) && AllInformed(c, s, run[..|run| - 1], mid)
    requires Enabled(c, mid, run[|run| - 1]) && i < |mid.phases|
    ensures Informed(c, s, run, i, Apply(c, mid, run[|run| - 1]).phases[i])
  {
    var n, a := |run| - 1, run[|run| - 1];
    var t := Apply(c, mid, a);
    assert Informed(c, s, run[..n], i, mid.phases[i]);
    if a.SetPrice? || a.SetEnabled? || a.i != i {
      assert t.phases[i] == mid.phases[i];
      InformedStays(c, s, run, n, i, mid.phases[i]);
    } else if a.Begin? {
      assert Begin(i) in run;
    } else if a.Commit? {
      CommitPays(c, s, run, mid, i);
    } else {
      NextInformed(c, s, run[..n], mid, a);
      InformedStays(c, s, run, n, i, t.phases[i]);
    }
  }

  lemma {:induction false} SalesEntered(c: Config, s: State, run: seq<Action>, mid: State,
                                        r: Reveal) returns (i: nat, d: nat)
    requires run != [] && IsRun(c, s, run[..|run| - 1], mid) && AllInformed(c, s, run[..|run| - 1], mid)
    requires Enabled(c, mid, run[|run| - 1]) && r in Apply(c, mid, run[|run| - 1]).sold
    ensures EnteredBy(c, s, run, Apply(c, mid, run[|run| - 1]).sold, r, i, d)
  {
    var n, a := |run| - 1, run[|run| - 1];
    var t := Apply(c, mid, a);
    if r in mid.sold {
      i, d :| EnteredBy(c, s, run[..n], mid.sold, r, i, d);
      EnteredStays(c, s, run, n, mid.sold, t.sold, r, i, d);
    } else {
      i, d := a.i, n;
      assert Informed(c, s, run[..n], i, mid.phases[i]);
      CommitPays(c, s, run, mid, i);
    }
  }

  lemma {:induction false} RunInforms(c: Config, s: State, run: seq<Action>, t: State)
    requires Initial(c, s) && IsRun(c, s, run, t)
    ensures AllInformed(c, s, run, t)
    decreases |run|
  {
    if run != [] {
      var mid :| IsRun(c, s, run[..|run| - 1], mid) && Sized(c, mid)
                 && Enabled(c, mid, run[|run| - 1]) && Apply(c, mid, run[|run| - 1]) == t;
      RunInforms(c, s, run[..|run| - 1], mid);
      forall i | 0 <= i < |t.phases| ensures Informed(c, s, run, i, t.phases[i]) { PhaseInformed(c, s, run, mid, i); }
      forall r | r in t.sold ensures exists i: nat, d: nat :: EnteredBy(c, s, run, t.sold, r, i, d) {
        var i, d := SalesEntered(c, s, run, mid, r);
      }
    }
  }

  // ---- Costs --------------------------------------------------------------------------------------------------

  /**
   Over every run, what is on record for a hint, and what its buyer was told it costs, is a price that
   was set after the buying request began and before it committed, and the mechanic was on meanwhile.
   */
  lemma {:induction false} CostsWereSet(c: Config, s: State, run: seq<Action>, t: State)
    requires Initial(c, s) && IsRun(c, s, run, t)
    ensures forall r | r in t.sold :: exists i: nat, d: nat :: EnteredBy(c, s, run, t.sold, r, i, d)
    ensures forall i: nat | i < |t.phases| && t.phases[i].Granted? :: exists d: nat :: Paid(c, s, run, i, d, t.phases[i].cost)
  {
    RunInforms(c, s, run, t);
    forall i: nat | i < |t.phases| && t.phases[i].Granted? ensures exists d: nat :: Paid(c, s, run, i, d, t.phases[i].cost) {
      assert Informed(c, s, run, i, t.phases[i]);
    }
  }

  lemma {:induction false} PriceStays(c: Config, s: State, run: seq<Action>, t: State)
    requires IsRun(c, s, run, t) && forall a | a in run :: !a.SetPrice?
    ensures t.price == s.price
    decreases |run|
  {
    if run != [] {
      var mid :| IsRun(c, s, run[..|run| - 1], mid) && Sized(c, mid)
                 && Enabled(c, mid, run[|run| - 1]) && Apply(c, mid, run[|run| - 1]) == t;
      assert run[|run| - 1] in run && forall a | a in run[..|run| - 1] :: a in run;
      PriceStays(c, s, run[..|run| - 1], mid);
    }
  }

  /** A mechanic that is on was on at the start, or was switched on. */
  lemma {:induction false} OnMeansSwitched(c: Config, s: State, run: seq<Action>, t: State)
    requires IsRun(c, s, run, t) && t.enabled
    ensures s.enabled || SetEnabled(true) in run
    decreases |run|
  {
    if run != [] && run[|run| - 1] != SetEnabled(true) {
      var mid :| IsRun(c, s, run[..|run| - 1], mid) && Sized(c, mid)
                 && Enabled(c, mid, run[|run| - 1]) && Apply(c, mid, run[|run| - 1]) == t;
      OnMeansSwitched(c, s, run[..|run| - 1], mid);
    }
  }

  lemma {:induction false} PaidMeansOn(c: Config, s: State, run: seq<Action>, i: nat, d: nat, cost: int)
    requires Paid(c, s, run, i, d, cost)
    ensures s.enabled || SetEnabled(true) in run
  {
    var b: nat, m: nat, mid :| SeenAt(c, s, run[..d], i, MechanicOn(), b, m, mid);
    assert run[..d][..m] == run[..m];
    OnMeansSwitched(c, s, run[..m], mid);
  }

  lemma {:induction false} PaidAtStart(c: Config, s: State, run: seq<Action>, i: nat, d: nat, cost: int)
    requires Paid(c, s, run, i, d, cost) && forall a | a in run :: !a.SetPrice?
    ensures cost == s.price
  {
    var b: nat, m: nat, mid :| SeenAt(c, s, run[..d], i, PriceIs(cost), b, m, mid);
    assert run[..d][..m] == run[..m] && forall a | a in run[..m] :: a in run;
    PriceStays(c, s, run[..m], mid);
  }

  /** While nobody changes the price every hint costs what it cost at the start. */
  lemma {:induction false} FixedPrice(c: Config, s: State, run: seq<Action>, t: State)
    requires Initial(c, s) && IsRun(c, s, run, t) && forall a | a in run :: !a.SetPrice?
    ensures forall r | r in t.sold :: r.cost == s.price
    ensures forall i: nat | i < |t.phases| && t.phases[i].Granted? :: t.phases[i].cost == s.price
  {
    CostsWereSet(c, s, run, t);
    forall r | r in t.sold ensures r.cost == s.price {
      var i: nat, d: nat :| EnteredBy(c, s, run, t.sold, r, i, d);
      PaidAtStart(c, s, run, i, d, r.cost);
    }
    forall i: nat | i < |t.phases| && t.phases[i].Granted? ensures t.phases[i].cost == s.price {
      var d: nat :| Paid(c, s, run, i, d, t.phases[i].cost);
      PaidAtStart(c, s, run, i, d, t.phases[i].cost);
    }
  }

  /** While the mechanic stays off nothing is sold. */
  lemma {:induction false} NothingSoldOff(c: Config, s: State, run: seq<Action>, t: State)
    requires Initial(c, s) && IsRun(c, s, run, t) && !s.enabled && SetEnabled(true) !in run
    ensures t.sold == []
  {
    CostsWereSet(c, s, run, t);
    if t.sold != [] {
      assert t.sold[0] in t.sold;
      var i: nat, d: nat :| EnteredBy(c, s, run, t.sold, t.sold[0], i, d);
      PaidMeansOn(c, s, run, i, d, t.sold[0].cost);
    }
  }
}
