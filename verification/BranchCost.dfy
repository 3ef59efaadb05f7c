/** The objective of the allocator, the sum of C/k, as a separable convex cost. */
module BranchCost {
  import opened Prelude
  import opened Dicts
  import opened Separable
  import opened Greedy

  /** _marginal_gain: what one more branch takes off C/k. */
  function Gain(c: real, k: int): real
    requires k >= 1
  {
    assert k * (k + 1) >= 1;
    c / (k * (k + 1)) as real
  }

  /** One summand of _objective. */
  function Share(c: real, k: int): real {
    c / Max(k, 1) as real
  }

  ghost function DispersionCost(c: map<string, real>): Cost {
    Cost((key: string, k: int) => if key in c then Share(c[key], k) else 0.0)
  }

  /** _objective: the sum of C/k over the nodes of an allocation. */
  ghost function Objective(c: map<string, real>, a: map<string, int>): real {
    TotalCost(DispersionCost(c), a)
  }

  lemma GainIsDrop(c: real, k: int)
    requires k >= 1
    ensures Share(c, k) - Share(c, k + 1) == Gain(c, k)
  {
    var x := k as real;
    assert (k * (k + 1)) as real == x * (x + 1.0);
    QuotientDrop(c, x);
  }

  lemma QuotientDrop(c: real, x: real)
    requires x >= 1.0
    ensures c / x - c / (x + 1.0) == c / (x * (x + 1.0))
  {
    var p, q, r := c / x, c / (x + 1.0), c / (x * (x + 1.0));
    assert p * x == c && q * (x + 1.0) == c && r * (x * (x + 1.0)) == c;
    var d := p - q - r;
    calc {
      d * (x * (x + 1.0));
      p * x * (x + 1.0) - q * (x + 1.0) * x - r * (x * (x + 1.0));
      c * (x + 1.0) - c * x - c;
      0.0;
    }
    assert x * (x + 1.0) > 0.0;
    assert d == 0.0;
  }

  lemma GainFalls(c: real, i: int, j: int)
    requires c >= 0.0 && 1 <= i <= j
    ensures 0.0 <= Gain(c, j) <= Gain(c, i)
  {
    assert 1 <= i * (i + 1) <= j * (j + 1);
    QuotientFalls(c, (i * (i + 1)) as real, (j * (j + 1)) as real);
  }

  lemma QuotientFalls(c: real, x: real, y: real)
    requires c >= 0.0 && 0.0 < x <= y
    ensures 0.0 <= c / y <= c / x
  {
    var p, q := c / x, c / y;
    assert p * x == c && q * y == c;
    if q > p {
      assert q * y >= q * x > p * x;
    }
  }

  /** The bounds admit at least one branch everywhere and the dispersions are non-negative. */
  ghost predicate WellPosed(c: map<string, real>, lo: map<string, int>, hi: map<string, int>) {
    && c.Keys == lo.Keys == hi.Keys
    && (forall k :: k in lo ==> 1 <= lo[k] <= hi[k])
    && (forall k :: k in c ==> c[k] >= 0.0)
  }

  lemma MarginalIsGain(c: map<string, real>, key: string, k: int)
    requires key in c && c[key] >= 0.0 && k >= 1
    ensures Marginal(DispersionCost(c), key, k) == -Gain(c[key], k) <= 0.0
  {
    GainIsDrop(c[key], k);
    GainFalls(c[key], k, k);
  }

  /** Diminishing returns: the objective is an instance of the convex problem, and no extra
      branch ever raises it. */
  lemma DiminishingReturns(c: map<string, real>, lo: map<string, int>, hi: map<string, int>)
    requires WellPosed(c, lo, hi)
    ensures Instance(DispersionCost(c), lo, hi)
    ensures forall k, n :: k in lo && lo[k] <= n ==> Marginal(DispersionCost(c), k, n) <= 0.0
  {
    forall k, n | k in lo && lo[k] <= n
      ensures Marginal(DispersionCost(c), k, n) <= 0.0
    {
      MarginalIsGain(c, k, n);
    }
    forall k, i, j | k in lo && lo[k] <= i <= j < hi[k]
      ensures Marginal(DispersionCost(c), k, i) <= Marginal(DispersionCost(c), k, j)
    {
      MarginalIsGain(c, k, i);
      MarginalIsGain(c, k, j);
      GainFalls(c[k], i, j);
    }
  }

  /** The greedy allocation, with t branches handed out above the lower bounds. */
  ghost function Allocation(c: map<string, real>, lo: map<string, int>, hi: map<string, int>,
                            t: nat): (a: map<string, int>)
    requires lo.Keys == hi.Keys
    ensures a.Keys == lo.Keys
  {
    Spend(DispersionCost(c), lo, hi, t)
  }

  lemma {:induction false} AllocationSpends(c: map<string, real>, lo: map<string, int>, hi: map<string, int>, t: nat)
    requires WellPosed(c, lo, hi)
    ensures InBox(Allocation(c, lo, hi, t), lo, hi)
    ensures Sum(Allocation(c, lo, hi, t)) == Min(Sum(lo) + t, Sum(hi))
  {
    hide Instance;
    hide Spend;
    hide Stable;
    DiminishingReturns(c, lo, hi);
    SpendInvariant(DispersionCost(c), lo, hi, t);
  }

  lemma {:induction false} AllocationOptimal(c: map<string, real>, lo: map<string, int>, hi: map<string, int>,
                                             t: nat, b: map<string, int>)
    requires WellPosed(c, lo, hi) && InBox(b, lo, hi) && Sum(b) <= Sum(lo) + t
    ensures Objective(c, Allocation(c, lo, hi, t)) <= Objective(c, b)
  {
    hide Instance;
    hide Spend;
    DiminishingReturns(c, lo, hi);
    SpendOptimal(DispersionCost(c), lo, hi, t, b);
  }

  method SolveBranches(c: map<string, real>, lo: map<string, int>, hi: map<string, int>, units: nat)
    returns (a: map<string, int>)
    requires WellPosed(c, lo, hi) && Sum(lo) + units <= Sum(hi)
    ensures a == Allocation(c, lo, hi, units)
  {
    var gain := (key: string, k: int) => if key in c && k >= 1 then Gain(c[key], k) else 0.0;
    DiminishingReturns(c, lo, hi);
    forall k, n | k in lo && lo[k] <= n
      ensures gain(k, n) == -Marginal(DispersionCost(c), k, n)
    {
      MarginalIsGain(c, k, n);
    }
    a := Solve(gain, DispersionCost(c), lo, hi, units);
  }

  method ComputeObjective(c: map<string, real>, a: map<string, int>) returns (total: real)
    requires c.Keys == a.Keys
    ensures total == Objective(c, a)
  {
    total := 0.0;
    ghost var done: map<string, int> := map[];
    var rest := c.Keys;
    while rest != {}
      invariant rest <= c.Keys
      invariant done == map k | k in a && k !in rest :: a[k]
      invariant total == Objective(c, done)
    {
      var key :| key in rest;
      rest := rest - {key};
      ghost var before := done;
      done := done[key := a[key]];
      SplitCost(DispersionCost(c), done, key);
      assert done - {key} == before;
      total := total + c[key] / Max(a[key], 1) as real;
    }
    assert done == a;
  }

  /** The objective of nothing is zero, and each node adds what, times its branches, is its
      dispersion, and with less than one branch its dispersion. */
  lemma {:induction false} ObjectiveByKeys(c: map<string, real>, a: map<string, int>, k: string)
    ensures Objective(c, map[]) == 0.0
    ensures k in a && k in c ==>
      (Objective(c, a) - Objective(c, a - {k})) * (if a[k] >= 1 then a[k] as real else 1.0) == c[k]
  {
    if k in a && k in c {
      SplitCost(DispersionCost(c), a, k);
    }
  }
}
