/** Allocations in proportion to weights, as two of the baselines start from: every key gets
    its rounded share of the budget, but no less than the minimum. */
module Proportions {
  import opened Prelude
  import opened Arithmetic
  import opened Dicts

  /** What one key's weight is worth: its part of the budget. Weights that add up to zero are
      taken as they are, as the original's `or 1.0` has it. */
  function FairShare(weight: real, total: real, budget: int): real {
    budget as real * weight / (if total == 0.0 then 1.0 else total)
  }

  lemma ShareTimesTotal(weight: real, total: real, budget: int)
    ensures FairShare(weight, total, budget) * (if total == 0.0 then 1.0 else total) == budget as real * weight
  {
  }

  ghost function SharesOf(weights: map<string, real>, budget: int): (shares: map<string, real>)
    ensures shares.Keys == weights.Keys
  {
    map k | k in weights :: FairShare(weights[k], SumReal(weights), budget)
  }

  ghost function ProportionalRaw(weights: map<string, real>, budget: int, nMin: int): (raw: map<string, int>)
    ensures raw.Keys == weights.Keys
  {
    map k | k in weights :: Max(HalfEven(FairShare(weights[k], SumReal(weights), budget)), nMin)
  }

  /** Near its share: at most half a branch below it, and at most half a branch above it
      unless the minimum has lifted it. */
  predicate Near(value: int, share: real, nMin: int) {
    && value >= nMin
    && share - 0.5 <= value as real
    && (value > nMin ==> value as real <= share + 0.5)
  }

  ghost predicate NearShares(raw: map<string, int>, weights: map<string, real>, budget: int, nMin: int) {
    && raw.Keys == weights.Keys
    && forall k :: k in raw ==> Near(raw[k], SharesOf(weights, budget)[k], nMin)
  }

  /** Every key is near its share. */
  lemma ProportionalNear(weights: map<string, real>, budget: int, nMin: int)
    ensures NearShares(ProportionalRaw(weights, budget, nMin), weights, budget, nMin)
  {
    hide HalfEven;
    hide FairShare;
  }

  lemma RatioOrder(a: real, x: real, y: real, t: real)
    requires a >= 0.0 && t > 0.0 && x <= y
    ensures a * x / t <= a * y / t
  {
    var p, q := a * x / t, a * y / t;
    assert p * t == a * x && q * t == a * y;
    ProductNotNegative(a, y - x, a * y - a * x);
    if q < p {
      ProductPositive(p - q, t, p * t - q * t);
    }
  }

  /** A key with no smaller weight gets no smaller allocation. */
  lemma {:induction false} ProportionalOrdered(weights: map<string, real>, budget: int, nMin: int, i: string, j: string)
    requires i in weights && j in weights && weights[i] <= weights[j]
    requires budget >= 0 && SumReal(weights) >= 0.0
    ensures ProportionalRaw(weights, budget, nMin)[i] <= ProportionalRaw(weights, budget, nMin)[j]
  {
    hide HalfEven;
    var total := if SumReal(weights) == 0.0 then 1.0 else SumReal(weights);
    RatioOrder(budget as real, weights[i], weights[j], total);
    HalfEvenMonotone(FairShare(weights[i], SumReal(weights), budget), FairShare(weights[j], SumReal(weights), budget));
  }

  lemma ScaleOnce(budget: real, weight: real, total: real, rate: real)
    requires total != 0.0 && rate == budget / total
    ensures budget * weight / total == Times(rate, weight)
  {
    var q := budget * weight / total;
    assert rate * total == budget && q * total == budget * weight;
    assert (rate * weight) * total == q * total;
    assert (rate * weight - q) * total == 0.0;
  }

  /** The shares add up to the budget. */
  lemma {:induction false} SharesAddUp(weights: map<string, real>, budget: int)
    requires SumReal(weights) != 0.0
    ensures SumReal(SharesOf(weights, budget)) == budget as real
  {
    hide SumReal;
    hide Times;
    var total := SumReal(weights);
    var rate := budget as real / total;
    forall k | k in weights ensures SharesOf(weights, budget)[k] == Times(rate, weights[k]) {
      ScaleOnce(budget as real, weights[k], total, rate);
    }
    SumRealScale(SharesOf(weights, budget), weights, rate);
    WholeRate(rate, total, budget as real);
  }

  lemma WholeRate(rate: real, total: real, budget: real)
    requires total != 0.0 && rate == budget / total
    ensures Times(rate, total) == budget
  {
  }

  function Shifted(m: map<string, real>, d: real): (r: map<string, real>)
    ensures r.Keys == m.Keys
  {
    map k | k in m :: m[k] + d
  }

  lemma {:induction false} ShiftedSum(m: map<string, real>, d: real)
    ensures SumReal(Shifted(m, d)) == SumReal(m) + Times(d, |m| as real)
  {
    hide Times;
    var ds := map k | k in m :: d;
    assert ds.Keys == m.Keys && |ds.Keys| == |ds| && |m.Keys| == |m|;
    SumRealConstant(ds, d);
    SumRealParts(Shifted(m, d), m, ds);
  }

  /** All allocations together miss the budget by at most half a branch for each key, unless
      the minimum lifts some of them beyond. */
  lemma {:induction false} ProportionalTotal(weights: map<string, real>, budget: int, nMin: int)
    requires SumReal(weights) != 0.0
    ensures 2 * Sum(ProportionalRaw(weights, budget, nMin)) >= 2 * budget - |weights|
    ensures (forall k :: k in weights ==> SharesOf(weights, budget)[k] >= nMin as real)
      ==> 2 * Sum(ProportionalRaw(weights, budget, nMin)) <= 2 * budget + |weights|
  {
    hide SumReal;
    hide Sum;
    hide HalfEven;
    hide FairShare;
    hide Times;
    var raw, shares := ProportionalRaw(weights, budget, nMin), SharesOf(weights, budget);
    SharesAddUp(weights, budget);
    FloatsSum(raw);
    ShiftedSum(shares, -0.5);
    ShiftedSum(shares, 0.5);
    HalfTimes(|shares|);
    assert |shares.Keys| == |weights.Keys|;
    SumRealLeq(Shifted(shares, -0.5), Floats(raw));
    if forall k :: k in weights ==> shares[k] >= nMin as real {
      SumRealLeq(Floats(raw), Shifted(shares, 0.5));
    }
  }

  lemma HalfTimes(n: nat)
    ensures 2.0 * Times(-0.5, n as real) == -(n as real) && 2.0 * Times(0.5, n as real) == n as real
  {
  }

  /** The starting point of the uncertainty and of the empirical-variance baseline. */
  method Proportional(weights: map<string, real>, budget: int, nMin: int) returns (raw: map<string, int>)
    ensures raw == ProportionalRaw(weights, budget, nMin)
    ensures NearShares(raw, weights, budget, nMin)
  {
    hide HalfEven;
    hide FairShare;
    hide NearShares;
    ProportionalNear(weights, budget, nMin);
    var total := SumRealValues(weights);
    raw := map k | k in weights :: Max(HalfEven(FairShare(weights[k], total, budget)), nMin);
  }
}
