/** When does the allocation never have a larger objective than the reference it is compared
    with? A test of the repository that bears this name checks one instance, on which it holds;
    the exact condition is proved here. */
module NeverWorse {
  import opened Prelude
  import opened Dicts
  import opened Schema
  import opened Separable
  import opened Greedy
  import opened BranchCost
  import opened AllocatorSpec
  import opened AllocatorTheorems

  ghost function After(c: map<string, real>, lo: map<string, int>, hi: map<string, int>, spendable: int): real
    requires lo.Keys == hi.Keys && Sum(lo) <= spendable
  {
    Objective(c, Allocation(c, lo, hi, spendable - Sum(lo)))
  }

  ghost function Before(c: map<string, real>, d: map<string, int>, lo: map<string, int>, hi: map<string, int>,
                        spendable: int): real
    requires d.Keys == lo.Keys == hi.Keys
  {
    Objective(c, Reference(d, lo, hi, spendable))
  }

  /** Bounds, defaults and budget as the allocator has them when it calls the solver. */
  ghost predicate Setting(d: map<string, int>, lo: map<string, int>, hi: map<string, int>, spendable: int) {
    && d.Keys == lo.Keys == hi.Keys
    && (forall k :: k in lo ==> 1 <= lo[k] <= hi[k] && lo[k] <= d[k])
    && Sum(lo) <= spendable <= Sum(hi)
  }

  /** The guard: the clamped defaults spend exactly the budget; or no default exceeds its cap
      and together they do not exceed the budget. */
  ghost predicate Comparable(d: map<string, int>, lo: map<string, int>, hi: map<string, int>, spendable: int)
    requires d.Keys == lo.Keys == hi.Keys
  {
    || Sum(Clamped(d, lo, hi)) == spendable
    || ((forall k :: k in d ==> d[k] <= hi[k]) && Sum(d) <= spendable)
  }

  ghost predicate NonNegative(c: map<string, real>, keys: set<string>) {
    c.Keys == keys && forall k :: k in c ==> c[k] >= 0.0
  }

  /** The objective never gets worse, whatever the dispersions, exactly under the guard. */
  lemma NeverWorseIff(d: map<string, int>, lo: map<string, int>, hi: map<string, int>, spendable: int)
    requires Setting(d, lo, hi, spendable)
    ensures Comparable(d, lo, hi, spendable) <==>
      forall c :: NonNegative(c, lo.Keys) ==> After(c, lo, hi, spendable) <= Before(c, d, lo, hi, spendable)
  {
    hide After;
    hide Before;
    hide NonNegative;
    if Comparable(d, lo, hi, spendable) {
      forall c | NonNegative(c, lo.Keys)
        ensures After(c, lo, hi, spendable) <= Before(c, d, lo, hi, spendable)
      {
        GuardSuffices(c, d, lo, hi, spendable);
      }
    } else if k :| k in d && hi[k] < d[k] {
      var c := CapsHurt(d, lo, hi, spendable, k);
    } else {
      var c := ScarcityHurts(d, lo, hi, spendable);
    }
  }

  lemma GuardSuffices(c: map<string, real>, d: map<string, int>, lo: map<string, int>, hi: map<string, int>,
                      spendable: int)
    requires Setting(d, lo, hi, spendable) && Comparable(d, lo, hi, spendable) && NonNegative(c, lo.Keys)
    ensures After(c, lo, hi, spendable) <= Before(c, d, lo, hi, spendable)
  {
    hide Objective;
    hide Allocation;
    var r := Reference(d, lo, hi, spendable);
    assert InBox(r, lo, hi);
    assert Sum(r) <= spendable;
    AllocationOptimal(c, lo, hi, spendable - Sum(lo), r);
  }

  ghost function Spike(keys: set<string>, k: string): map<string, real> {
    map j | j in keys :: if j == k then 1.0 else 0.0
  }

  lemma {:induction false} SpikeObjective(c: map<string, real>, a: map<string, int>, k: string)
    requires c.Keys >= a.Keys && forall j :: j in c ==> c[j] == if j == k then 1.0 else 0.0
    ensures Objective(c, a) == if k in a then Share(1.0, a[k]) else 0.0
    decreases |a|
  {
    if a != map[] {
      var j :| j in a;
      assert (a - {j}).Keys == a.Keys - {j};
      SplitCost(DispersionCost(c), a, j);
      SpikeObjective(c, a - {j}, k);
    }
  }

  lemma ReciprocalFalls(x: real, y: real)
    requires 0.0 < x < y
    ensures 1.0 / y < 1.0 / x
  {
    var p, q := 1.0 / x, 1.0 / y;
    assert p * x == 1.0 && q * y == 1.0;
    assert q > 0.0;
    assert q * (y - x) > 0.0;
    assert q * y - q * x > 0.0;
    assert (p - q) * x > 0.0;
  }

  lemma ShareFalls(i: int, j: int)
    requires 1 <= i < j
    ensures Share(1.0, j) < Share(1.0, i)
  {
    ReciprocalFalls(i as real, j as real);
  }

  /** A default above its cap: a dispersion concentrated on that node shows the loss. */
  lemma CapsHurt(d: map<string, int>, lo: map<string, int>, hi: map<string, int>, spendable: int, k: string)
    returns (c: map<string, real>)
    requires Setting(d, lo, hi, spendable) && Sum(Clamped(d, lo, hi)) != spendable
    requires k in d && hi[k] < d[k]
    ensures NonNegative(c, lo.Keys)
    ensures After(c, lo, hi, spendable) > Before(c, d, lo, hi, spendable)
  {
    hide Objective;
    hide Allocation;
    c := Spike(lo.Keys, k);
    var a := Allocation(c, lo, hi, spendable - Sum(lo));
    AllocationSpends(c, lo, hi, spendable - Sum(lo));
    SpikeObjective(c, a, k);
    SpikeObjective(c, d, k);
    ShareFalls(a[k], d[k]);
  }

  /** The dispersions under which the defaults d are exactly what equal marginal gains ask for. */
  ghost function Tuned(d: map<string, int>): map<string, real> {
    map k | k in d :: (d[k] * (d[k] + 1)) as real
  }

  lemma SelfQuotient(x: real)
    requires x > 0.0
    ensures x / x == 1.0
  {
  }

  lemma TunedMarginals(d: map<string, int>, k: string, n: int)
    requires k in d && 1 <= n
    ensures n == d[k] ==> Marginal(DispersionCost(Tuned(d)), k, n) == -1.0
    ensures n < d[k] ==> Marginal(DispersionCost(Tuned(d)), k, n) <= -1.0
  {
    if n <= d[k] {
      var c := Tuned(d)[k];
      assert d[k] * (d[k] + 1) >= 1;
      MarginalIsGain(Tuned(d), k, n);
      GainFalls(c, n, d[k]);
      SelfQuotient(c);
    }
  }

  lemma TunedStable(d: map<string, int>, lo: map<string, int>, hi: map<string, int>)
    requires InBox(d, lo, hi) && forall k :: k in lo ==> 1 <= lo[k]
    ensures Stable(DispersionCost(Tuned(d)), d, lo, hi)
  {
    forall p, q | p in d && q in d && lo[p] < d[p] && d[q] < hi[q]
      ensures Marginal(DispersionCost(Tuned(d)), p, d[p] - 1) <= Marginal(DispersionCost(Tuned(d)), q, d[q])
    {
      TunedMarginals(d, p, d[p] - 1);
      TunedMarginals(d, q, d[q]);
    }
  }

  /** Defaults that fit their caps but not the budget: tuned dispersions make every missing
      branch felt. */
  lemma ScarcityHurts(d: map<string, int>, lo: map<string, int>, hi: map<string, int>, spendable: int)
    returns (c: map<string, real>)
    requires Setting(d, lo, hi, spendable) && Sum(Clamped(d, lo, hi)) != spendable
    requires (forall k :: k in d ==> d[k] <= hi[k]) && spendable < Sum(d)
    ensures NonNegative(c, lo.Keys)
    ensures After(c, lo, hi, spendable) > Before(c, d, lo, hi, spendable)
  {
    hide Stable;
    hide Instance;
    hide Spend;
    hide Objective;
    c := Tuned(d);
    assert NonNegative(c, lo.Keys) by { TunedNonNegative(d, lo); }
    var a := Allocation(c, lo, hi, spendable - Sum(lo));
    AllocationSpends(c, lo, hi, spendable - Sum(lo));
    assert Reference(d, lo, hi, spendable) == d;
    MissingBranchFelt(a, d, lo, hi);
  }

  lemma TunedNonNegative(d: map<string, int>, lo: map<string, int>)
    requires d.Keys == lo.Keys && forall k :: k in lo ==> 1 <= lo[k] <= d[k]
    ensures NonNegative(Tuned(d), lo.Keys)
  {
  }

  lemma {:induction false} MissingBranchFelt(a: map<string, int>, d: map<string, int>, lo: map<string, int>,
                                             hi: map<string, int>)
    requires InBox(a, lo, hi) && InBox(d, lo, hi) && Sum(a) < Sum(d)
    requires forall k :: k in lo ==> 1 <= lo[k]
    ensures Objective(Tuned(d), d) < Objective(Tuned(d), a)
  {
    hide Stable;
    hide Convex;
    hide DispersionCost;
    hide Tuned;
    var cost := DispersionCost(Tuned(d));
    var p := KeyBelow(d, a);
    SumSet(a, p, a[p] + 1);
    SetCost(cost, a, p, a[p] + 1);
    TunedMarginals(d, p, a[p]);
    TunedNonNegative(d, lo);
    DiminishingReturns(Tuned(d), lo, hi);
    TunedStable(d, lo, hi);
    StableBeatsCheaper(cost, d, a[p := a[p] + 1], lo, hi);
  }

  lemma SettingHolds(fs: seq<Fields>, cfg: Config, s: Summary)
    requires Allocate(fs, cfg) == Ok(s) && Balanced(s, cfg.totalBudget) && Sum(s.lower) <= s.granted
    ensures Setting(s.defaults, s.lower, s.upper, s.granted)
  {
    hide Allocate;
    hide Intake;
    hide Allocation;
    hide Objective;
    hide Reference;
    AllocateSummarizes(fs, cfg);
    IntakeInOrder(fs, cfg);
    SumLeq(s.allocations, s.upper);
  }

  /** On a successful call the comparison is the one above, so under the guard the reported
      objective does not rise. */
  lemma ObjectiveDoesNotRise(fs: seq<Fields>, cfg: Config, s: Summary)
    requires Allocate(fs, cfg) == Ok(s)
    ensures Setting(s.defaults, s.lower, s.upper, s.granted)
    ensures s.objectiveAfter == After(s.dispersion, s.lower, s.upper, s.granted)
    ensures s.objectiveBefore == Before(s.dispersion, s.defaults, s.lower, s.upper, s.granted)
    ensures Comparable(s.defaults, s.lower, s.upper, s.granted) ==> s.objectiveAfter <= s.objectiveBefore
  {
    hide Allocate;
    hide Objective;
    hide Allocation;
    hide Reference;
    hide Clamped;
    hide Pruned;
    hide Expanded;
    AllocateBalanced(fs, cfg, s);
    SettingHolds(fs, cfg, s);
    if Comparable(s.defaults, s.lower, s.upper, s.granted) {
      GuardSuffices(s.dispersion, s.defaults, s.lower, s.upper, s.granted);
    }
  }
}
