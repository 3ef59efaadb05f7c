/** The dispersion bound C_s from pairwise total-variation distances, and why it bounds the
    variance of the children's values. */
module Dispersion {
  import opened Prelude
  import opened Arithmetic
  import opened Dicts

  datatype BoundForm = Linear | SimulationLemma

  function ClampReal(x: real, lo: real, hi: real): real {
    MinReal(MaxReal(x, lo), hi)
  }

  function TailCorrection(tv: real, epsTail: real): real {
    var t := ClampReal(tv, 0.0, 1.0);
    t + (1.0 - t) * ClampReal(epsTail, 0.0, 1.0)
  }

  /** (1 - gamma) * (1 - gamma + gamma * tv), with h for 1 - gamma. */
  function Denominator(h: real, g: real, t: real): real {
    h * (h + g * t)
  }

  function SimulationLemmaGap(tv: real, gamma: real): real {
    var g := ClampReal(gamma, 0.0, 1.0 - 0.00000001);
    var t := MaxReal(tv, 0.0);
    var denom := Denominator(1.0 - g, g, t);
    if denom <= 0.0 then 0.0 else g * t / denom
  }

  function Scaled(rMax: real, gap: real): real {
    MaxReal(rMax, 0.0) * MinReal(gap, 1.0)
  }

  function ValueGapBound(tv: real, gamma: real, rMax: real, epsTail: real, form: BoundForm): real {
    var t := TailCorrection(tv, epsTail);
    var gap := match form case Linear => t case SimulationLemma => SimulationLemmaGap(t, gamma);
    Scaled(rMax, gap)
  }

  lemma PortionWithin(a: real, b: real)
    requires 0.0 <= a && 0.0 <= b <= 1.0
    ensures 0.0 <= a * b <= a
  {
    assert a * b <= a * 1.0;
  }

  lemma MixMonotone(t: real, t': real, e: real, e': real)
    requires 0.0 <= t <= t' <= 1.0 && 0.0 <= e <= e' <= 1.0
    ensures t + (1.0 - t) * e <= t' + (1.0 - t') * e'
  {
    calc {
      t' + (1.0 - t') * e' - t - (1.0 - t) * e;
      (t' - t) * (1.0 - e) + (1.0 - t') * (e' - e);
    }
    assert (t' - t) * (1.0 - e) >= 0.0;
    assert (1.0 - t') * (e' - e) >= 0.0;
  }

  lemma TailInUnit(tv: real, epsTail: real)
    ensures ClampReal(tv, 0.0, 1.0) <= TailCorrection(tv, epsTail) <= 1.0
  {
    var t, e := ClampReal(tv, 0.0, 1.0), ClampReal(epsTail, 0.0, 1.0);
    assert TailCorrection(tv, epsTail) == t + (1.0 - t) * e;
    PortionWithin(1.0 - t, e);
  }

  /** The correction can only widen the bound: it is monotone in both arguments. */
  lemma TailMonotone(tv: real, tv': real, epsTail: real, epsTail': real)
    requires tv <= tv' && epsTail <= epsTail'
    ensures TailCorrection(tv, epsTail) <= TailCorrection(tv', epsTail')
  {
    MixMonotone(ClampReal(tv, 0.0, 1.0), ClampReal(tv', 0.0, 1.0), ClampReal(epsTail, 0.0, 1.0),
      ClampReal(epsTail', 0.0, 1.0));
  }

  lemma DenominatorPositive(h: real, g: real, t: real)
    requires h > 0.0 && g >= 0.0 && t >= 0.0
    ensures g * t >= 0.0 && Denominator(h, g, t) > 0.0
  {
    var u := h + g * t;
    assert u > 0.0;
    assert h * u > 0.0;
  }

  lemma DiscountBelowOne(gamma: real)
    ensures 0.0 <= ClampReal(gamma, 0.0, 1.0 - 0.00000001) < 1.0
  {
  }

  /** The guard against a vanishing denominator never fires. */
  lemma GapGuardIdle(tv: real, gamma: real)
    ensures var g := ClampReal(gamma, 0.0, 1.0 - 0.00000001);
      Denominator(1.0 - g, g, MaxReal(tv, 0.0)) > 0.0
  {
    hide ClampReal;
    hide Denominator;
    DiscountBelowOne(gamma);
    var g := ClampReal(gamma, 0.0, 1.0 - 0.00000001);
    DenominatorPositive(1.0 - g, g, MaxReal(tv, 0.0));
  }

  /** The simulation-lemma form is monotone in the distance. */
  lemma GapMonotone(tv: real, tv': real, gamma: real)
    requires tv <= tv'
    ensures 0.0 <= SimulationLemmaGap(tv, gamma) <= SimulationLemmaGap(tv', gamma)
  {
    hide ClampReal;
    hide Denominator;
    hide SimulationLemmaGap;
    DiscountBelowOne(gamma);
    var g, t, t' := ClampReal(gamma, 0.0, 1.0 - 0.00000001), MaxReal(tv, 0.0), MaxReal(tv', 0.0);
    RatioMonotone(1.0 - g, g, t, t');
    GapUnfolds(tv, gamma, g, t);
    GapUnfolds(tv', gamma, g, t');
  }

  lemma GapUnfolds(tv: real, gamma: real, g: real, t: real)
    requires g == ClampReal(gamma, 0.0, 1.0 - 0.00000001) && t == MaxReal(tv, 0.0)
    requires Denominator(1.0 - g, g, t) > 0.0
    ensures SimulationLemmaGap(tv, gamma) == g * t / Denominator(1.0 - g, g, t)
  {
    hide ClampReal;
    hide Denominator;
    hide MaxReal;
  }

  lemma RatioMonotone(h: real, g: real, t: real, t': real)
    requires h > 0.0 && g >= 0.0 && 0.0 <= t <= t'
    ensures Denominator(h, g, t) > 0.0 && Denominator(h, g, t') > 0.0
    ensures 0.0 <= g * t / Denominator(h, g, t) <= g * t' / Denominator(h, g, t')
  {
    DenominatorPositive(h, g, t);
    DenominatorPositive(h, g, t');
    ProductMonotone(g, t, t');
    CrossMultiply(g * t, Denominator(h, g, t), g * t', Denominator(h, g, t'), h);
  }

  lemma ProductMonotone(g: real, t: real, t': real)
    requires g >= 0.0 && t <= t'
    ensures g * t <= g * t'
  {
  }

  lemma CrossMultiply(x: real, d: real, x': real, d': real, h: real)
    requires 0.0 <= x <= x' && h > 0.0
    requires d == h * (h + x) && d' == h * (h + x') && d > 0.0 && d' > 0.0
    ensures 0.0 <= x / d <= x' / d'
  {
    var s, gain := h * h, (h * h) * (x' - x);
    ProductPositive(h, h, s);
    ProductNotNegative(s, x' - x, gain);
    CrossGain(x, d, x', d', h, gain);
    QuotientOrder(x, d, x', d', x * d', x' * d);
    QuotientNotNegative(x, d);
  }

  lemma CrossGain(x: real, d: real, x': real, d': real, h: real, gain: real)
    requires d == h * (h + x) && d' == h * (h + x') && gain == (h * h) * (x' - x)
    ensures x' * d - x * d' == gain
  {
  }

  /** A larger distance or a larger tail allowance never gives a smaller bound, and the
      bound stays between zero and the reward range. */
  lemma BoundMonotone(tv: real, tv': real, gamma: real, rMax: real, epsTail: real, epsTail': real, form: BoundForm)
    requires tv <= tv' && epsTail <= epsTail'
    ensures 0.0 <= ValueGapBound(tv, gamma, rMax, epsTail, form) <=
      ValueGapBound(tv', gamma, rMax, epsTail', form) <= MaxReal(rMax, 0.0)
  {
    hide TailCorrection;
    hide SimulationLemmaGap;
    hide Scaled;
    var t, t' := TailCorrection(tv, epsTail), TailCorrection(tv', epsTail');
    TailPositive(tv, epsTail);
    TailMonotone(tv, tv', epsTail, epsTail');
    GapMonotone(t, t', gamma);
    var gap := match form case Linear => t case SimulationLemma => SimulationLemmaGap(t, gamma);
    var gap' := match form case Linear => t' case SimulationLemma => SimulationLemmaGap(t', gamma);
    ScaledMonotone(rMax, gap, gap');
  }

  lemma TailPositive(tv: real, epsTail: real)
    ensures 0.0 <= TailCorrection(tv, epsTail)
  {
    TailInUnit(tv, epsTail);
  }

  lemma ScaledMonotone(rMax: real, gap: real, gap': real)
    requires 0.0 <= gap <= gap'
    ensures 0.0 <= Scaled(rMax, gap) <= Scaled(rMax, gap') <= MaxReal(rMax, 0.0)
  {
    hide MaxReal;
    hide MinReal;
    hide Scaled;
    var r, a, b := MaxReal(rMax, 0.0), MinReal(gap, 1.0), MinReal(gap', 1.0);
    ClipFacts(rMax, gap, gap');
    ScaledUnfolds(rMax, gap);
    ScaledUnfolds(rMax, gap');
    ProductsWithin(r, a, b, Scaled(rMax, gap), Scaled(rMax, gap'));
  }

  lemma ProductsWithin(r: real, a: real, b: real, ra: real, rb: real)
    requires 0.0 <= r && 0.0 <= a <= b <= 1.0 && ra == r * a && rb == r * b
    ensures 0.0 <= ra <= rb <= r
  {
    PortionWithin(r, a);
    PortionWithin(r, b);
    ProductMonotone(r, a, b);
  }

  lemma ClipFacts(rMax: real, gap: real, gap': real)
    requires 0.0 <= gap <= gap'
    ensures 0.0 <= MaxReal(rMax, 0.0) && 0.0 <= MinReal(gap, 1.0) <= MinReal(gap', 1.0) <= 1.0
  {
  }

  lemma ScaledUnfolds(rMax: real, gap: real)
    ensures Scaled(rMax, gap) == MaxReal(rMax, 0.0) * MinReal(gap, 1.0)
  {
  }

  type Pair = (int, int)

  /** The items of the pair dictionary, in iteration order; its keys are distinct. */
  datatype Entry = Entry(pair: Pair, tv: real)

  function Canonical(p: Pair): Pair {
    if p.0 < p.1 then p else (p.1, p.0)
  }

  /** The canonicalisation loop: diagonal entries are dropped, and of two orientations of one
      pair the first is kept. */
  function Canonicalize(entries: seq<Entry>): map<Pair, real> {
    if entries == [] then map[]
    else
      var m := Canonicalize(entries[..|entries| - 1]);
      var e := entries[|entries| - 1];
      if e.pair.0 == e.pair.1 || Canonical(e.pair) in m then m else m[Canonical(e.pair) := e.tv]
  }

  /** The sum over all pairs i < j < n that are in m, column by column. */
  ghost function PairSum(m: map<Pair, real>, n: nat): real {
    if n == 0 then 0.0 else PairSum(m, n - 1) + ColumnSum(m, n - 1, n - 1)
  }

  ghost function ColumnSum(m: map<Pair, real>, j: nat, i: nat): real {
    if i == 0 then 0.0 else ColumnSum(m, j, i - 1) + ValueAt(m, (i - 1, j))
  }

  function ValueAt(m: map<Pair, real>, p: Pair): real {
    if p in m then m[p] else 0.0
  }

  predicate InRange(p: Pair, n: int) {
    0 <= p.0 < p.1 < n
  }

  lemma {:induction false} ColumnAfterAdd(m: map<Pair, real>, p: Pair, v: real, j: nat, i: nat)
    requires p !in m
    ensures ColumnSum(m[p := v], j, i) == ColumnSum(m, j, i) + if p.1 == j && 0 <= p.0 < i then v else 0.0
  {
    if i > 0 {
      ColumnAfterAdd(m, p, v, j, i - 1);
    }
  }

  lemma {:induction false} PairSumAfterAdd(m: map<Pair, real>, p: Pair, v: real, n: nat)
    requires p !in m
    ensures PairSum(m[p := v], n) == PairSum(m, n) + if InRange(p, n) then v else 0.0
  {
    if n > 0 {
      PairSumAfterAdd(m, p, v, n - 1);
      ColumnAfterAdd(m, p, v, n - 1, n - 1);
    }
  }

  datatype BoundArgs = BoundArgs(gamma: real, rMax: real, epsTail: real, form: BoundForm)

  function GapBound(tv: real, g: BoundArgs): real {
    ValueGapBound(tv, g.gamma, g.rMax, g.epsTail, g.form)
  }

  function Square(x: real): (y: real)
    ensures y >= 0.0 && (x > 0.0 ==> y > 0.0)
  {
    var y := x * x;
    SquareSign(x, y);
    y
  }

  lemma SquareSign(x: real, y: real)
    requires y == x * x
    ensures y >= 0.0 && (x > 0.0 ==> y > 0.0)
  {
    if x > 0.0 {
      ProductPositive(x, x, y);
    } else if x < 0.0 {
      ProductPositive(-x, -x, y);
    }
  }

  function SquaredBounds(m: map<Pair, real>, g: BoundArgs): map<Pair, real> {
    map p | p in m :: Square(GapBound(m[p], g))
  }

  /** C_s: the sum of the squared bounds over the canonical pairs, divided by n squared. */
  ghost function DispersionBound(entries: seq<Entry>, n: int, g: BoundArgs): real {
    if n <= 1 then 0.0 else SumReal(SquaredBounds(Canonicalize(entries), g)) / Square(n as real)
  }

  method CanonicalPairs(entries: seq<Entry>) returns (canonical: map<Pair, real>)
    ensures canonical == Canonicalize(entries)
  {
    canonical := map[];
    for k := 0 to |entries|
      invariant canonical == Canonicalize(entries[..k])
    {
      assert entries[..k + 1][..k] == entries[..k];
      var e := entries[k];
      if e.pair.0 == e.pair.1 {
        continue;
      }
      var p := Canonical(e.pair);
      if p !in canonical {
        canonical := canonical[p := e.tv];
      }
    }
    assert entries[..|entries|] == entries;
  }

  lemma SquaredBoundsWithout(m: map<Pair, real>, p: Pair, g: BoundArgs)
    requires p in m
    ensures SumReal(SquaredBounds(m, g)) == Square(GapBound(m[p], g)) + SumReal(SquaredBounds(m - {p}, g))
  {
    hide GapBound;
    hide Square;
    SumRealSplit(SquaredBounds(m, g), p);
    assert SquaredBounds(m, g) - {p} == SquaredBounds(m - {p}, g);
  }

  method SumOfSquaredBounds(canonical: map<Pair, real>, g: BoundArgs) returns (total: real)
    ensures total == SumReal(SquaredBounds(canonical, g))
  {
    hide GapBound;
    hide SumReal;
    total := 0.0;
    var rest := canonical;
    while rest != map[]
      invariant total + SumReal(SquaredBounds(rest, g)) == SumReal(SquaredBounds(canonical, g))
      decreases |rest|
    {
      var p :| p in rest;
      SquaredBoundsWithout(rest, p, g);
      assert (rest - {p}).Keys == rest.Keys - {p};
      var bound := GapBound(rest[p], g);
      total := total + bound * bound;
      rest := rest - {p};
    }
    assert SquaredBounds(rest, g) == map[];
    EmptySum();
  }

  lemma EmptySum()
    ensures SumReal<Pair>(map[]) == 0.0
  {
  }

  method DispersionBoundFromPairTvs(entries: seq<Entry>, n: int, g: BoundArgs) returns (c: real)
    ensures c == DispersionBound(entries, n, g)
  {
    hide SquaredBounds;
    hide Canonicalize;
    hide SumReal;
    if n <= 1 {
      return 0.0;
    }
    var canonical := CanonicalPairs(entries);
    var total := SumOfSquaredBounds(canonical, g);
    c := total / Square(n as real);
  }

  lemma {:induction false} NoPairs(n: nat, j: nat, i: nat)
    ensures PairSum(map[], n) == 0.0 && ColumnSum(map[], j, i) == 0.0
    decreases n, i
  {
    if i > 0 {
      NoPairs(n, j, i - 1);
    }
    if n > 0 {
      NoPairs(n - 1, n - 1, n - 1);
    }
  }

  /** Keys outside the range only add to the sum. */
  lemma {:induction false} PairSumBelow(w: map<Pair, real>, n: nat)
    requires forall p :: p in w ==> w[p] >= 0.0
    ensures PairSum(w, n) <= SumReal(w)
    ensures (forall p :: p in w ==> InRange(p, n)) ==> PairSum(w, n) == SumReal(w)
    decreases |w|
  {
    hide PairSum;
    if w == map[] {
      NoPairs(n, 0, 0);
    } else {
      var p :| p in w;
      var rest := w - {p};
      assert rest.Keys == w.Keys - {p};
      assert w == rest[p := w[p]];
      PairSumAfterAdd(rest, p, w[p], n);
      SumRealSplit(w, p);
      PairSumBelow(rest, n);
    }
  }

  ghost function SumOf(v: seq<real>): real {
    if v == [] then 0.0 else SumOf(v[..|v| - 1]) + v[|v| - 1]
  }

  ghost function SumOfSquares(v: seq<real>): real {
    if v == [] then 0.0 else SumOfSquares(v[..|v| - 1]) + Square(v[|v| - 1])
  }

  ghost function Mean(v: seq<real>): real
    requires v != []
  {
    SumOf(v) / |v| as real
  }

  ghost function SquaredDeviations(v: seq<real>, centre: real): real {
    if v == [] then 0.0 else SquaredDeviations(v[..|v| - 1], centre) + Square(v[|v| - 1] - centre)
  }

  /** (1/n) * the sum of (v_i - mean)^2. */
  ghost function Variance(v: seq<real>): real
    requires v != []
  {
    SquaredDeviations(v, Mean(v)) / |v| as real
  }

  ghost function PairwiseDifferences(v: seq<real>): real {
    if v == [] then 0.0
    else PairwiseDifferences(v[..|v| - 1]) + SquaredDeviations(v[..|v| - 1], v[|v| - 1])
  }

  lemma ExpandDeviation(a: real, x: real, n: real, s: real, q: real)
    ensures q - 2.0 * x * s + n * Square(x) + Square(a - x)
         == (q + Square(a)) - 2.0 * x * (s + a) + (n + 1.0) * Square(x)
  {
    assert Square(a - x) == Square(a) - 2.0 * x * a + Square(x);
    assert 2.0 * x * (s + a) == 2.0 * x * s + 2.0 * x * a;
    assert (n + 1.0) * Square(x) == n * Square(x) + Square(x);
  }

  lemma {:induction false} DeviationsExpand(v: seq<real>, x: real)
    ensures SquaredDeviations(v, x) == SumOfSquares(v) - 2.0 * x * SumOf(v) + |v| as real * Square(x)
  {
    hide Square;
    if v != [] {
      var w, a := v[..|v| - 1], v[|v| - 1];
      DeviationsExpand(w, x);
      ExpandDeviation(a, x, |w| as real, SumOf(w), SumOfSquares(w));
    }
  }

  lemma SquareOfZero()
    ensures Square(0.0) == 0.0
  {
  }

  lemma ExpandPairs(n: real, s: real, q: real, a: real)
    ensures n * q - Square(s) + (q - 2.0 * a * s + n * Square(a)) == (n + 1.0) * (q + Square(a)) - Square(s + a)
  {
    assert Square(s + a) == Square(s) + 2.0 * a * s + Square(a);
    assert (n + 1.0) * (q + Square(a)) == n * q + n * Square(a) + q + Square(a);
  }

  /** The pairwise identity: the squared differences over all pairs add up to
      n * (sum of squares) - (sum)^2. */
  lemma {:induction false} PairwiseIdentity(v: seq<real>)
    ensures PairwiseDifferences(v) == |v| as real * SumOfSquares(v) - Square(SumOf(v))
  {
    hide Square;
    if v == [] {
      SquareOfZero();
    } else {
      var w, a := v[..|v| - 1], v[|v| - 1];
      PairwiseIdentity(w);
      DeviationsExpand(w, a);
      ExpandPairs(|w| as real, SumOf(w), SumOfSquares(w), a);
    }
  }

  lemma MeanTimes(n: real, s: real, q: real, m: real)
    requires s == m * n
    ensures n * (q - 2.0 * m * s + n * Square(m)) == n * q - Square(s)
  {
    assert n * Square(m) == m * s;
    assert n * (m * s) == Square(s);
  }

  lemma DivideTwice(d: real, e: real, n: real)
    requires n > 0.0 && n * d == e
    ensures d / n == e / Square(n)
  {
    var r := d / n;
    assert r * n == d;
    assert r * Square(n) == (r * n) * n;
  }

  lemma {:induction false} VarianceUnfolds(v: seq<real>)
    requires v != []
    ensures Variance(v) == SquaredDeviations(v, Mean(v)) / |v| as real
  {
  }

  lemma {:induction false} VarianceByPairs(v: seq<real>)
    requires v != []
    ensures Variance(v) == PairwiseDifferences(v) / Square(|v| as real)
  {
    hide Square;
    hide SquaredDeviations;
    hide PairwiseDifferences;
    hide Variance;
    hide SumOf;
    hide SumOfSquares;
    PairwiseIdentity(v);
    DeviationsExpand(v, Mean(v));
    var n := |v| as real;
    MeanTimes(n, SumOf(v), SumOfSquares(v), Mean(v));
    DivideTwice(SquaredDeviations(v, Mean(v)), PairwiseDifferences(v), n);
    VarianceUnfolds(v);
  }

  /** The entry is for this pair, in either orientation. */
  predicate Names(e: Entry, p: Pair) {
    p.0 < p.1 && (e.pair == p || e.pair == (p.1, p.0))
  }

  /** Every kept value is the distance of some entry for that pair. */
  lemma {:induction false} CanonicalOrigin(entries: seq<Entry>, p: Pair) returns (e: Entry)
    requires p in Canonicalize(entries)
    ensures e in entries && Names(e, p) && e.tv == Canonicalize(entries)[p]
  {
    var m := Canonicalize(entries[..|entries| - 1]);
    e := entries[|entries| - 1];
    if p in m {
      e := CanonicalOrigin(entries[..|entries| - 1], p);
    }
  }

  lemma {:induction false} CanonicalKeeps(entries: seq<Entry>, e: Entry)
    requires e in entries && e.pair.0 != e.pair.1
    ensures Canonical(e.pair) in Canonicalize(entries)
  {
    if e in entries[..|entries| - 1] {
      CanonicalKeeps(entries[..|entries| - 1], e);
    } else {
      assert e == entries[|entries| - 1];
    }
  }

  predicate Within(d: real, bound: real) {
    -bound <= d <= bound
  }

  lemma SquareWithin(d: real, bound: real)
    requires Within(d, bound)
    ensures Square(d) <= Square(bound)
  {
    assert (bound - d) * (bound + d) >= 0.0;
    assert (bound - d) * (bound + d) == bound * bound - d * d;
  }

  /** Entry by entry the distances bound the differences of the values. */
  ghost predicate Explains(entries: seq<Entry>, v: seq<real>, g: BoundArgs) {
    forall e, i, j :: e in entries && 0 <= i < j < |v| && Names(e, (i, j)) ==> Within(v[i] - v[j], GapBound(e.tv, g))
  }

  /** Every pair is there, in either orientation. */
  ghost predicate Covers(entries: seq<Entry>, n: nat) {
    forall i, j :: 0 <= i < j < n ==> Listed(entries, (i, j))
  }

  ghost predicate Listed(entries: seq<Entry>, p: Pair) {
    exists e :: e in entries && Names(e, p)
  }

  lemma {:induction false} EntryBounds(entries: seq<Entry>, v: seq<real>, g: BoundArgs, i: nat, j: nat)
    requires Covers(entries, |v|) && Explains(entries, v, g) && i < j < |v|
    ensures Square(v[i] - v[j]) <= ValueAt(SquaredBounds(Canonicalize(entries), g), (i, j))
  {
    hide GapBound;
    hide Canonicalize;
    hide Square;
    assert Listed(entries, (i, j));
    var e :| e in entries && Names(e, (i, j));
    CanonicalKeeps(entries, e);
    var f := CanonicalOrigin(entries, (i, j));
    SquareWithin(v[i] - v[j], GapBound(f.tv, g));
  }

  lemma {:induction false} ColumnBounds(w: map<Pair, real>, v: seq<real>, j: nat, i: nat)
    requires i <= j < |v|
    requires forall a, b :: 0 <= a < b < |v| ==> Square(v[a] - v[b]) <= ValueAt(w, (a, b))
    ensures SquaredDeviations(v[..i], v[j]) <= ColumnSum(w, j, i)
  {
    hide Square;
    if i > 0 {
      ColumnBounds(w, v, j, i - 1);
      assert v[..i][..i - 1] == v[..i - 1];
      assert Square(v[i - 1] - v[j]) <= ValueAt(w, (i - 1, j));
    }
  }

  lemma {:induction false} PairBounds(w: map<Pair, real>, v: seq<real>, n: nat)
    requires n <= |v|
    requires forall a, b :: 0 <= a < b < |v| ==> Square(v[a] - v[b]) <= ValueAt(w, (a, b))
    ensures PairwiseDifferences(v[..n]) <= PairSum(w, n)
  {
    hide Square;
    hide ColumnSum;
    if n > 0 {
      PairBounds(w, v, n - 1);
      ColumnBounds(w, v, n - 1, n - 1);
      assert v[..n][..n - 1] == v[..n - 1];
    }
  }

  lemma SquaresNonNegative(m: map<Pair, real>, g: BoundArgs)
    ensures forall p :: p in SquaredBounds(m, g) ==> SquaredBounds(m, g)[p] >= 0.0
  {
    hide GapBound;
  }

  lemma DivideMonotone(x: real, y: real, d: real)
    requires x <= y && d > 0.0
    ensures x / d <= y / d
  {
    ProductMonotone(d, x, y);
    QuotientOrder(x, d, y, d, x * d, y * d);
  }

  lemma SquarePositive(n: nat)
    requires n > 0
    ensures Square(n as real) > 0.0
  {
  }

  /** The bound bounds: with every pair covered, and every value gap within the bound of each
      of its entries, the variance of the values is at most C_s. */
  lemma BoundsVariance(entries: seq<Entry>, v: seq<real>, g: BoundArgs)
    requires v != [] && Covers(entries, |v|) && Explains(entries, v, g)
    ensures Variance(v) <= DispersionBound(entries, |v|, g)
  {
    hide GapBound;
    hide Canonicalize;
    hide Square;
    hide Variance;
    hide Covers;
    hide Explains;
    var w := SquaredBounds(Canonicalize(entries), g);
    VarianceByPairs(v);
    forall i, j | 0 <= i < j < |v| ensures Square(v[i] - v[j]) <= ValueAt(w, (i, j)) {
      EntryBounds(entries, v, g, i, j);
    }
    PairBounds(w, v, |v|);
    assert v[..|v|] == v;
    SquaresNonNegative(Canonicalize(entries), g);
    PairSumBelow(w, |v|);
    SquarePositive(|v|);
    DivideMonotone(PairwiseDifferences(v), SumReal(w), Square(|v| as real));
    if |v| == 1 {
      assert PairwiseDifferences(v) == 0.0;
    }
  }

  /** n (n - 1) times top. */
  function PairsTimes(n: nat, top: real): real {
    (n as real * (n as real - 1.0)) * top
  }

  lemma PairsTimesIs(n: nat, top: real)
    ensures PairsTimes(n, top) == (n as real * (n as real - 1.0)) * top
  {
  }

  lemma PairsTimesNext(n: nat, top: real)
    ensures PairsTimes(n + 1, top) == PairsTimes(n, top) + 2.0 * Times(n as real, top) && PairsTimes(0, top) == 0.0
  {
    var x := n as real;
    assert (n + 1) as real == x + 1.0;
    assert ((x + 1.0) * ((x + 1.0) - 1.0)) * top == (x * (x - 1.0)) * top + 2.0 * (x * top);
  }

  lemma {:induction false} ColumnAtMost(w: map<Pair, real>, top: real, j: nat, i: nat)
    requires top >= 0.0 && forall p :: p in w ==> w[p] <= top
    ensures ColumnSum(w, j, i) <= Times(i as real, top)
  {
    hide Times;
    if i == 0 {
      TimesNext(0, top);
    } else {
      ColumnAtMost(w, top, j, i - 1);
      TimesNext(i - 1, top);
    }
  }

  lemma TimesNext(n: nat, top: real)
    ensures Times((n + 1) as real, top) == Times(n as real, top) + top && Times(0.0, top) == 0.0
  {
    var x := n as real;
    assert (n + 1) as real == x + 1.0;
  }

  lemma {:induction false} PairsAtMost(w: map<Pair, real>, top: real, n: nat)
    requires top >= 0.0 && forall p :: p in w ==> w[p] <= top
    ensures 2.0 * PairSum(w, n) <= PairsTimes(n, top)
  {
    hide ColumnSum;
    hide PairsTimes;
    hide Times;
    if n == 0 {
      PairsTimesNext(0, top);
    } else {
      PairsAtMost(w, top, n - 1);
      ColumnAtMost(w, top, n - 1, n - 1);
      PairsTimesNext(n - 1, top);
    }
  }

  lemma {:induction false} PairSumAtMost(w: map<Pair, real>, top: real, n: nat)
    requires top >= 0.0 && forall p :: p in w ==> w[p] <= top
    ensures 2.0 * PairSum(w, n) <= (n as real * (n as real - 1.0)) * top
  {
    hide ColumnSum;
    hide PairsTimes;
    PairsAtMost(w, top, n);
    PairsTimesIs(n, top);
  }

  lemma HalfBound(n: real, s: real, r2: real, most: real)
    requires n > 0.0 && 2.0 * s <= (n * (n - 1.0)) * r2 && most == r2 * (n - 1.0) / (2.0 * n)
    ensures s / Square(n) <= most
  {
    var slack := (n * (n - 1.0)) * r2 - 2.0 * s;
    ProductPositive(n, n, n * n);
    ProductNotNegative(n, slack, n * slack);
    SlackIs(n, s, r2, slack, n * slack);
    QuotientOrder(s, Square(n), r2 * (n - 1.0), 2.0 * n, s * (2.0 * n), (r2 * (n - 1.0)) * Square(n));
  }

  lemma SlackIs(n: real, s: real, r2: real, slack: real, t: real)
    requires slack == (n * (n - 1.0)) * r2 - 2.0 * s && t == n * slack
    ensures (r2 * (n - 1.0)) * Square(n) - s * (2.0 * n) == t
  {
  }

  lemma BoundWithin(entries: seq<Entry>, n: nat, g: BoundArgs, top: real, most: real)
    requires n >= 1 && top == Square(MaxReal(g.rMax, 0.0))
    requires most == top * (n as real - 1.0) / (2.0 * n as real)
    requires forall e :: e in entries && e.pair.0 != e.pair.1 ==> InRange(Canonical(e.pair), n)
    ensures 0.0 <= DispersionBound(entries, n, g) <= most
  {
    hide GapBound;
    hide Canonicalize;
    hide Square;
    hide MaxReal;
    hide PairSum;
    hide SumReal;
    var m := Canonicalize(entries);
    var w := SquaredBounds(m, g);
    TopNonNegative(MaxReal(g.rMax, 0.0));
    forall p | p in w ensures w[p] <= top && InRange(p, n) {
      var e := CanonicalOrigin(entries, p);
      SquareOfBound(m[p], g);
    }
    SquaresNonNegative(m, g);
    PairSumBelow(w, n);
    PairSumAtMost(w, top, n);
    SumNonNegative(w);
    SquarePositive(n);
    QuotientNotNegative(SumReal(w), Square(n as real));
    if n == 1 {
      NoPairBound(n as real, top, most);
    } else {
      HalfBound(n as real, SumReal(w), top, most);
    }
  }

  lemma NoPairBound(n: real, r2: real, most: real)
    requires n == 1.0 && most == r2 * (n - 1.0) / (2.0 * n)
    ensures most == 0.0
  {
  }

  /** With all keys in range the bound is at most r_max^2 (n - 1) / (2n). */
  lemma BoundAtMost(entries: seq<Entry>, n: nat, g: BoundArgs)
    requires n >= 1
    requires forall e :: e in entries && e.pair.0 != e.pair.1 ==> InRange(Canonical(e.pair), n)
    ensures 0.0 <= DispersionBound(entries, n, g) <=
      Square(MaxReal(g.rMax, 0.0)) * (n as real - 1.0) / (2.0 * n as real)
  {
    hide DispersionBound;
    hide Square;
    hide MaxReal;
    var top := Square(MaxReal(g.rMax, 0.0));
    BoundWithin(entries, n, g, top, top * (n as real - 1.0) / (2.0 * n as real));
  }

  lemma TopNonNegative(x: real)
    ensures Square(x) >= 0.0
  {
  }

  lemma SquareOfBound(tv: real, g: BoundArgs)
    ensures Square(GapBound(tv, g)) <= Square(MaxReal(g.rMax, 0.0))
  {
    hide ValueGapBound;
    BoundMonotone(tv, tv, g.gamma, g.rMax, g.epsTail, g.epsTail, g.form);
    SquareWithin(GapBound(tv, g), MaxReal(g.rMax, 0.0));
  }

  lemma {:induction false} SumNonNegative(w: map<Pair, real>)
    requires forall p :: p in w ==> w[p] >= 0.0
    ensures SumReal(w) >= 0.0
    decreases |w|
  {
    if w != map[] {
      var p :| p in w;
      SumRealSplit(w, p);
      assert (w - {p}).Keys == w.Keys - {p};
      SumNonNegative(w - {p});
    }
  }
}
