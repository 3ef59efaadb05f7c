/** The two forms of the bound on a value gap, written out: what is assumed of the values, what C_s
    then bounds, and that the bound is attained. */
module GapForms {
  import opened Prelude
  import opened Arithmetic
  import opened Dicts
  import opened Dispersion

  /** Distances, tail allowance and discount within their ranges. */
  predicate Proper(g: BoundArgs) {
    0.0 <= g.epsTail <= 1.0 && g.rMax >= 0.0 && 0.0 <= g.gamma <= 1.0 - 0.00000001
  }

  /** The distance with the unseen tail counted as differing to a share of eps. */
  function Corrected(tv: real, eps: real): real {
    1.0 - (1.0 - tv) * (1.0 - eps)
  }

  /** The distance is at most what the linear form allows: the reward range times the corrected
      distance. */
  ghost predicate LinearGap(d: real, tv: real, g: BoundArgs) {
    -(g.rMax * Corrected(tv, g.epsTail)) <= d <= g.rMax * Corrected(tv, g.epsTail)
  }

  /** What discounting at rate g is worth in all. */
  function Horizon(g: real): real
    requires g < 1.0
  {
    1.0 / (1.0 - g)
  }

  /** The simulation lemma: the worth of all steps less the worth of those before the two
      futures part, which at each step they do with probability t. */
  function PartedHorizon(gamma: real, t: real): real
    requires 0.0 <= gamma < 1.0 && 0.0 <= t <= 1.0
  {
    DiscountedBelow(gamma, t);
    Horizon(gamma) - Horizon(gamma * (1.0 - t))
  }

  lemma DiscountedBelow(gamma: real, t: real)
    requires 0.0 <= gamma < 1.0 && 0.0 <= t <= 1.0
    ensures 0.0 <= gamma * (1.0 - t) < 1.0
  {
    ProductNotNegative(gamma, 1.0 - t, gamma * (1.0 - t));
    ProductNotNegative(gamma, t, gamma - gamma * (1.0 - t));
  }

  ghost predicate SimulatedGap(d: real, tv: real, g: BoundArgs)
    requires Proper(g) && 0.0 <= tv <= 1.0
  {
    CorrectedInUnit(tv, g.epsTail);
    var gap := PartedHorizon(g.gamma, Corrected(tv, g.epsTail));
    var bound := g.rMax * (if gap < 1.0 then gap else 1.0);
    -bound <= d <= bound
  }

  lemma CorrectedInUnit(tv: real, eps: real)
    requires 0.0 <= tv <= 1.0 && 0.0 <= eps <= 1.0
    ensures tv <= Corrected(tv, eps) <= 1.0
  {
    var u := 1.0 - tv;
    ProductNotNegative(u, 1.0 - eps, u * (1.0 - eps));
    ProductNotNegative(u, eps, u - u * (1.0 - eps));
  }

  lemma TailIsCorrected(tv: real, eps: real)
    requires 0.0 <= tv <= 1.0 && 0.0 <= eps <= 1.0
    ensures TailCorrection(tv, eps) == Corrected(tv, eps)
  {
  }

  /** The two ways to write the simulation-lemma gap. */
  lemma GapIsParted(t: real, gamma: real)
    requires 0.0 <= gamma <= 1.0 - 0.00000001 && 0.0 <= t <= 1.0
    ensures SimulationLemmaGap(t, gamma) == PartedHorizon(gamma, t) >= 0.0
  {
    hide Denominator;
    hide SimulationLemmaGap;
    var h, u := 1.0 - gamma, 1.0 - gamma * (1.0 - t);
    DiscountedBelow(gamma, t);
    GapGuardIdle(t, gamma);
    GapUnfolds(t, gamma, gamma, t);
    HorizonsDiffer(gamma, t, h, u, Denominator(h, gamma, t));
    GapMonotone(t, t, gamma);
  }

  lemma HorizonsDiffer(gamma: real, t: real, h: real, u: real, den: real)
    requires h == 1.0 - gamma && u == 1.0 - gamma * (1.0 - t) && h > 0.0 && u > 0.0
    requires den == Denominator(h, gamma, t) && den > 0.0
    ensures gamma * t / den == 1.0 / h - 1.0 / u
  {
    var p, q, r := 1.0 / h, 1.0 / u, gamma * t / den;
    assert u == h + gamma * t;
    assert den == h * u;
    assert p * h == 1.0 && q * u == 1.0 && r * den == gamma * t;
    DifferenceTimes(p, q, h, u, den);
    SameQuotient(r, p - q, den);
  }

  lemma DifferenceTimes(p: real, q: real, h: real, u: real, den: real)
    requires p * h == 1.0 && q * u == 1.0 && den == h * u
    ensures (p - q) * den == u - h
  {
    assert p * den == (p * h) * u;
    assert q * den == (q * u) * h;
  }

  lemma SameQuotient(r: real, s: real, den: real)
    requires den > 0.0 && r * den == s * den
    ensures r == s
  {
    if r < s {
      ProductPositive(s - r, den, s * den - r * den);
    } else if r > s {
      ProductPositive(r - s, den, r * den - s * den);
    }
  }

  lemma LinearIsBound(d: real, tv: real, g: BoundArgs)
    requires g.form == Linear && Proper(g) && 0.0 <= tv <= 1.0
    ensures GapBound(tv, g) == g.rMax * Corrected(tv, g.epsTail)
    ensures LinearGap(d, tv, g) <==> Within(d, GapBound(tv, g))
  {
    hide TailCorrection;
    TailIsCorrected(tv, g.epsTail);
    CorrectedInUnit(tv, g.epsTail);
  }

  lemma SimulatedIsBound(d: real, tv: real, g: BoundArgs)
    requires g.form == SimulationLemma && Proper(g) && 0.0 <= tv <= 1.0
    ensures SimulatedGap(d, tv, g) <==> Within(d, GapBound(tv, g))
  {
    hide TailCorrection;
    hide SimulationLemmaGap;
    hide PartedHorizon;
    TailIsCorrected(tv, g.epsTail);
    CorrectedInUnit(tv, g.epsTail);
    GapIsParted(Corrected(tv, g.epsTail), g.gamma);
  }

  predicate DistancesProper(entries: seq<Entry>) {
    forall e :: e in entries ==> 0.0 <= e.tv <= 1.0
  }

  /** The linear form: if values differ by no more than the reward range times the corrected
      distance of any entry for their pair, their variance is at most C_s. */
  lemma VarianceLinear(entries: seq<Entry>, v: seq<real>, g: BoundArgs)
    requires g.form == Linear && Proper(g) && DistancesProper(entries)
    requires v != [] && Covers(entries, |v|)
    requires forall e, i, j :: e in entries && 0 <= i < j < |v| && Names(e, (i, j)) ==> LinearGap(v[i] - v[j], e.tv, g)
    ensures Variance(v) <= DispersionBound(entries, |v|, g)
  {
    hide GapBound;
    hide Covers;
    hide LinearGap;
    forall e, i, j | e in entries && 0 <= i < j < |v| && Names(e, (i, j))
      ensures Within(v[i] - v[j], GapBound(e.tv, g))
    {
      LinearIsBound(v[i] - v[j], e.tv, g);
    }
    BoundsVariance(entries, v, g);
  }

  /** The simulation-lemma form likewise, with the horizons at the clamped discount. */
  lemma VarianceSimulated(entries: seq<Entry>, v: seq<real>, g: BoundArgs)
    requires g.form == SimulationLemma && Proper(g) && DistancesProper(entries)
    requires v != [] && Covers(entries, |v|)
    requires forall e, i, j :: e in entries && 0 <= i < j < |v| && Names(e, (i, j)) ==>
      SimulatedGap(v[i] - v[j], e.tv, g)
    ensures Variance(v) <= DispersionBound(entries, |v|, g)
  {
    hide GapBound;
    hide Covers;
    hide SimulatedGap;
    forall e, i, j | e in entries && 0 <= i < j < |v| && Names(e, (i, j))
      ensures Within(v[i] - v[j], GapBound(e.tv, g))
    {
      SimulatedIsBound(v[i] - v[j], e.tv, g);
    }
    BoundsVariance(entries, v, g);
  }

  /** The entry is off the diagonal, and none before it is for the same two children. */
  predicate New(entries: seq<Entry>, e: Entry) {
    && e.pair.0 != e.pair.1
    && forall d :: d in entries ==> d.pair != e.pair && d.pair != (e.pair.1, e.pair.0)
  }

  lemma {:induction false} NewIsMissing(entries: seq<Entry>, e: Entry)
    requires e.pair.0 != e.pair.1
    ensures New(entries, e) <==> Canonical(e.pair) !in Canonicalize(entries)
  {
    var p := Canonical(e.pair);
    if p in Canonicalize(entries) {
      var d := CanonicalOrigin(entries, p);
    } else {
      forall d | d in entries ensures d.pair != e.pair && d.pair != (e.pair.1, e.pair.0) {
        if d.pair.0 != d.pair.1 {
          CanonicalKeeps(entries, d);
        }
      }
    }
  }

  /** C_s from its entries, one by one: every new pair adds its squared bound over n^2, and
      nothing else counts. */
  lemma {:induction false} EntryAdds(entries: seq<Entry>, e: Entry, n: int, g: BoundArgs)
    ensures DispersionBound([], n, g) == 0.0
    ensures n <= 1 ==> DispersionBound(entries, n, g) == 0.0
    ensures n >= 2 ==>
      (DispersionBound(entries + [e], n, g) == DispersionBound(entries, n, g) +
         if New(entries, e) then GapBound(e.tv, g) * GapBound(e.tv, g) / (n as real * n as real) else 0.0)
  {
    hide GapBound;
    hide New;
    assert SquaredBounds(map[], g) == map[];
    EmptySum();
    var all := entries + [e];
    assert all[..|all| - 1] == entries && all[|all| - 1] == e;
    var m, p := Canonicalize(entries), Canonical(e.pair);
    if e.pair.0 == e.pair.1 {
      assert !New(entries, e) by { DiagonalIsOld(entries, e); }
    } else {
      NewIsMissing(entries, e);
      if p !in m {
        SquaredBoundsWithout(m[p := e.tv], p, g);
        assert m[p := e.tv] - {p} == m;
        if n >= 2 {
          SumOverSquare(Square(GapBound(e.tv, g)), SumReal(SquaredBounds(m, g)), n as real);
        }
      }
    }
  }

  lemma DiagonalIsOld(entries: seq<Entry>, e: Entry)
    requires e.pair.0 == e.pair.1
    ensures !New(entries, e)
  {
  }

  lemma SumOverSquare(a: real, b: real, n: real)
    requires n > 0.0
    ensures Square(n) == n * n > 0.0 && (a + b) / Square(n) == b / Square(n) + a / (n * n)
  {
    var d := Square(n);
    assert d == n * n && d > 0.0;
    SumOver(a, b, d, a / d, b / d);
  }

  lemma SumOver(a: real, b: real, d: real, p: real, q: real)
    requires d > 0.0 && p == a / d && q == b / d
    ensures (a + b) / d == p + q
  {
    assert p * d == a && q * d == b;
    assert (p + q) * d == a + b;
  }

  lemma {:induction false} OnePairBound(e: Entry, g: BoundArgs)
    requires e.pair == (0, 1)
    ensures DispersionBound([e], 2, g) == Square(GapBound(e.tv, g)) / 4.0
  {
    hide GapBound;
    hide DispersionBound;
    assert [] + [e] == [e] && New([], e);
    EntryAdds([], e, 2, g);
  }

  lemma {:induction false} TwoValueVariance(b: real)
    ensures Variance([b, 0.0]) == Square(b) / 4.0
  {
    var v := [b, 0.0];
    assert v[..1] == [b] && v[..1][..0] == [];
    assert SumOf(v[..1]) == b && SumOf(v) == b;
    HalvesSquared(b, Mean(v));
    assert SquaredDeviations(v[..1], Mean(v)) == Square(b - Mean(v));
    assert SquaredDeviations(v, Mean(v)) == Square(b - Mean(v)) + Square(0.0 - Mean(v));
  }

  lemma HalvesSquared(b: real, m: real)
    requires m == b / 2.0
    ensures (Square(b - m) + Square(0.0 - m)) / 2.0 == Square(b) / 4.0
  {
  }

  /** The bound is attained: for two children, values that differ by as much as their one entry
      allows have exactly C_s for variance. */
  lemma LinearAttained(tv: real, g: BoundArgs) returns (v: seq<real>)
    requires g.form == Linear && Proper(g) && 0.0 <= tv <= 1.0
    ensures |v| == 2 && v[0] - v[1] == g.rMax * Corrected(tv, g.epsTail) && LinearGap(v[0] - v[1], tv, g)
    ensures Variance(v) == DispersionBound([Entry((0, 1), tv)], 2, g) == (v[0] - v[1]) * (v[0] - v[1]) / 4.0
  {
    hide GapBound;
    hide Variance;
    hide DispersionBound;
    v := [GapBound(tv, g), 0.0];
    LinearIsBound(v[0], tv, g);
    LinearNotNegative(tv, g);
    OnePairBound(Entry((0, 1), tv), g);
    TwoValueVariance(v[0]);
  }

  lemma LinearNotNegative(tv: real, g: BoundArgs)
    requires Proper(g) && 0.0 <= tv <= 1.0
    ensures GapBound(tv, g) >= 0.0
  {
    hide ValueGapBound;
    BoundMonotone(tv, tv, g.gamma, g.rMax, g.epsTail, g.epsTail, g.form);
  }

  lemma SimulatedAttained(tv: real, g: BoundArgs) returns (v: seq<real>)
    requires g.form == SimulationLemma && Proper(g) && 0.0 <= tv <= 1.0
    ensures |v| == 2 && SimulatedGap(v[0] - v[1], tv, g)
    ensures forall d :: SimulatedGap(d, tv, g) ==> d <= v[0] - v[1]
    ensures Variance(v) == DispersionBound([Entry((0, 1), tv)], 2, g) == (v[0] - v[1]) * (v[0] - v[1]) / 4.0
  {
    hide GapBound;
    hide Variance;
    hide DispersionBound;
    hide SimulatedGap;
    v := [GapBound(tv, g), 0.0];
    LinearNotNegative(tv, g);
    forall d ensures SimulatedGap(d, tv, g) <==> Within(d, GapBound(tv, g)) {
      SimulatedIsBound(d, tv, g);
    }
    OnePairBound(Entry((0, 1), tv), g);
    TwoValueVariance(v[0]);
  }

  /** x moved into [lo, hi]. */
  predicate Moved(x: real, lo: real, hi: real, y: real) {
    && lo <= y <= hi
    && (lo <= x <= hi ==> y == x) && (x < lo ==> y == lo) && (x > hi ==> y == hi)
  }

  /** Arguments out of their ranges count as the nearest that are in them. */
  lemma OutOfRange(tv: real, tv': real, g: BoundArgs, g': BoundArgs)
    requires Moved(tv, 0.0, 1.0, tv') && Moved(g.epsTail, 0.0, 1.0, g'.epsTail)
    requires Moved(g.gamma, 0.0, 1.0 - 0.00000001, g'.gamma) && g'.form == g.form
    requires g'.rMax == if g.rMax >= 0.0 then g.rMax else 0.0
    ensures Proper(g') && GapBound(tv, g) == GapBound(tv', g')
  {
    hide ClampReal;
    hide MinReal;
    hide Denominator;
    ClampIs(tv, 0.0, 1.0, tv');
    ClampIs(g.epsTail, 0.0, 1.0, g'.epsTail);
    ClampIs(g.gamma, 0.0, 1.0 - 0.00000001, g'.gamma);
    assert TailCorrection(tv, g.epsTail) == TailCorrection(tv', g'.epsTail);
    SameGap(TailCorrection(tv, g.epsTail), g.gamma, g'.gamma);
  }

  lemma ClampIs(x: real, lo: real, hi: real, y: real)
    requires lo <= hi && Moved(x, lo, hi, y)
    ensures ClampReal(x, lo, hi) == y && ClampReal(y, lo, hi) == y
  {
  }

  lemma SameGap(t: real, gamma: real, gamma': real)
    requires ClampReal(gamma, 0.0, 1.0 - 0.00000001) == ClampReal(gamma', 0.0, 1.0 - 0.00000001)
    ensures SimulationLemmaGap(t, gamma) == SimulationLemmaGap(t, gamma')
  {
    hide ClampReal;
    hide Denominator;
  }

  lemma {:induction false} NoneNamed(entries: seq<Entry>, p: Pair)
    requires forall e :: e in entries ==> !Names(e, p)
    ensures p !in Canonicalize(entries)
  {
    if p in Canonicalize(entries) {
      var e := CanonicalOrigin(entries, p);
    }
  }

  /** Of several entries for one pair, in either orientation, the first counts. */
  lemma {:induction false} FirstEntryCounts(entries: seq<Entry>, k: nat, p: Pair)
    requires k < |entries| && Names(entries[k], p)
    requires forall m :: 0 <= m < k ==> !Names(entries[m], p)
    ensures p in Canonicalize(entries) && Canonicalize(entries)[p] == entries[k].tv
    decreases |entries|
  {
    var n := |entries| - 1;
    if k < n {
      FirstEntryCounts(entries[..n], k, p);
    } else {
      forall e | e in entries[..n] ensures !Names(e, p) {
        var m :| 0 <= m < n && entries[..n][m] == e;
      }
      NoneNamed(entries[..n], p);
    }
  }
}
