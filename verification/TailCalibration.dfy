/** Calibrating the tail allowance: a quantile of divergence ratios, and the coverage that it
    guarantees on the sample it was taken from. */
module TailCalibration {
  import opened Prelude
  import opened Arithmetic
  import opened Dispersion

  ghost predicate Ascending(xs: seq<real>) {
    forall i, j :: 0 <= i < j < |xs| ==> xs[i] <= xs[j]
  }

  function Insert(x: real, xs: seq<real>): (r: seq<real>)
    ensures |r| == |xs| + 1 && multiset(r) == multiset(xs) + multiset{x}
    ensures Ascending(xs) ==> Ascending(r)
  {
    if xs == [] || x <= xs[0] then
      [x] + xs
    else
      assert xs == [xs[0]] + xs[1..];
      InsertKeepsOrder(x, xs, Insert(x, xs[1..]));
      [xs[0]] + Insert(x, xs[1..])
  }

  lemma InsertKeepsOrder(x: real, xs: seq<real>, tail: seq<real>)
    requires xs != [] && x > xs[0]
    requires multiset(tail) == multiset(xs[1..]) + multiset{x}
    requires Ascending(xs[1..]) ==> Ascending(tail)
    ensures Ascending(xs) ==> Ascending([xs[0]] + tail)
  {
    if Ascending(xs) {
      forall j | 0 <= j < |tail| ensures xs[0] <= tail[j] {
        assert tail[j] in multiset(tail);
        assert tail[j] == x || tail[j] in xs[1..];
      }
    }
  }

  /** Python's sorted(values). */
  function Sort(xs: seq<real>): (r: seq<real>)
    ensures |r| == |xs| && multiset(r) == multiset(xs) && Ascending(r)
  {
    if xs == [] then []
    else
      assert xs == xs[..|xs| - 1] + [xs[|xs| - 1]];
      Insert(xs[|xs| - 1], Sort(xs[..|xs| - 1]))
  }

  function Ceil(x: real): int {
    if x == x.Floor as real then x.Floor else x.Floor + 1
  }

  /** The place of the quantile in the sorted sample. */
  function Position(n: nat, q: real): real {
    ClampReal(q, 0.0, 1.0) * (n as real - 1.0)
  }

  lemma PositionInRange(n: nat, q: real)
    requires n > 0
    ensures 0.0 <= Position(n, q) <= n as real - 1.0
    ensures 0 <= Position(n, q).Floor <= Ceil(Position(n, q)) <= n - 1
  {
    hide ClampReal;
    ClampedUnit(q);
    ProductWithin(ClampReal(q, 0.0, 1.0), n as real - 1.0, Position(n, q));
  }

  lemma ProductWithin(b: real, a: real, p: real)
    requires 0.0 <= a && 0.0 <= b <= 1.0 && p == b * a
    ensures 0.0 <= p <= a
  {
    ProductNotNegative(b, a, p);
    ProductNotNegative(1.0 - b, a, a - p);
  }

  lemma ClampedUnit(q: real)
    ensures 0.0 <= ClampReal(q, 0.0, 1.0) <= 1.0
  {
  }

  /** quantile: linear interpolation between the two neighbours of the position. */
  function Quantile(values: seq<real>, q: real): Option<real> {
    if values == [] then None
    else
      var xs := Sort(values);
      var pos := Position(|xs|, q);
      var lo, hi := pos.Floor, Ceil(pos);
      PositionInRange(|xs|, q);
      if lo == hi then Some(xs[lo])
      else
        var frac := pos - lo as real;
        Some(Interpolate(xs[lo], xs[hi], frac))
  }

  lemma WithoutLast(xs: seq<real>, n: nat)
    requires |xs| == n + 1
    ensures multiset(xs[..n]) == multiset(xs) - multiset{xs[n]}
  {
    assert xs == xs[..n] + [xs[n]];
  }

  lemma SameLength(xs: seq<real>, ys: seq<real>)
    requires multiset(xs) == multiset(ys)
    ensures |xs| == |ys|
  {
    assert |xs| == |multiset(xs)| == |multiset(ys)| == |ys|;
  }

  lemma LastIsGreatest(xs: seq<real>, ys: seq<real>)
    requires xs != [] && ys != [] && Ascending(ys) && multiset(xs) == multiset(ys)
    ensures xs[|xs| - 1] <= ys[|ys| - 1]
  {
    assert xs[|xs| - 1] in multiset(ys);
    var j :| 0 <= j < |ys| && ys[j] == xs[|xs| - 1];
  }

  lemma SameBeforeLast(xs: seq<real>, ys: seq<real>, n: nat)
    requires Ascending(xs) && Ascending(ys) && multiset(xs) == multiset(ys) && |xs| == |ys| == n + 1
    ensures xs[n] == ys[n] && multiset(xs[..n]) == multiset(ys[..n]) && Ascending(xs[..n]) && Ascending(ys[..n])
  {
    LastIsGreatest(xs, ys);
    LastIsGreatest(ys, xs);
    WithoutLast(xs, n);
    WithoutLast(ys, n);
  }

  /** A sample has one order. */
  lemma {:induction false} AscendingUnique(xs: seq<real>, ys: seq<real>)
    requires Ascending(xs) && Ascending(ys) && multiset(xs) == multiset(ys)
    ensures xs == ys
  {
    hide Ascending;
    SameLength(xs, ys);
    if xs != [] {
      var n := |xs| - 1;
      SameBeforeLast(xs, ys, n);
      AscendingUnique(xs[..n], ys[..n]);
      assert xs == xs[..n] + [xs[n]] && ys == ys[..n] + [ys[n]];
    }
  }

  lemma FloorOf(pos: real, i: nat, f: real)
    requires pos == i as real + f && 0.0 <= f <= 1.0
    ensures f < 1.0 ==> pos.Floor == i
    ensures f == 1.0 ==> pos.Floor == i + 1
  {
  }

  lemma Whole(a: real, b: real, f: real)
    ensures f == 0.0 ==> a + (b - a) * f == a
    ensures f == 1.0 ==> a + (b - a) * f == b
  {
  }

  lemma InterpolateIs(a: real, b: real, f: real)
    ensures Interpolate(a, b, f) == a + (b - a) * f
  {
  }

  lemma MixedAt(xs: seq<real>, i: nat, f: real, pos: real)
    requires i + 1 < |xs| && 0.0 <= f <= 1.0 && pos == i as real + f
    ensures 0 <= pos.Floor <= Ceil(pos) < |xs|
    ensures (if pos.Floor == Ceil(pos) then xs[pos.Floor]
             else Interpolate(xs[pos.Floor], xs[Ceil(pos)], pos - pos.Floor as real)) == xs[i] + (xs[i + 1] - xs[i]) * f
  {
    hide Interpolate;
    FloorOf(pos, i, f);
    Whole(xs[i], xs[i + 1], f);
    InterpolateIs(xs[i], xs[i + 1], f);
  }

  /** The quantile at a share q of the way through the sample, put in order: where that is a
      share f of the way from place i to the next, it is that share of the way between the two. */
  lemma {:induction false} QuantileAt(values: seq<real>, xs: seq<real>, q: real, i: nat, f: real)
    requires Ascending(xs) && multiset(xs) == multiset(values) && i + 1 < |xs| && 0.0 <= f <= 1.0
    requires 0.0 <= q <= 1.0 && q * (|xs| as real - 1.0) == i as real + f
    ensures Quantile(values, q) == Some(xs[i] + (xs[i + 1] - xs[i]) * f)
  {
    hide Sort;
    hide Ascending;
    hide Interpolate;
    AscendingUnique(xs, Sort(values));
    SameLength(xs, values);
    MixedAt(xs, i, f, Position(|xs|, q));
  }

  /** Out of range it is the least or the greatest value. */
  lemma {:induction false} QuantileEnds(values: seq<real>, q: real)
    requires values != [] && (q <= 0.0 || q >= 1.0)
    ensures Quantile(values, q).Some? && Quantile(values, q).value in values
    ensures forall x :: x in values ==>
      if q <= 0.0 then Quantile(values, q).value <= x else x <= Quantile(values, q).value
  {
    hide Sort;
    var xs := Sort(values);
    var r := Quantile(values, q).value;
    assert r == if q <= 0.0 then xs[0] else xs[|xs| - 1];
    assert r in multiset(xs);
    forall x | x in values ensures if q <= 0.0 then r <= x else x <= r {
      assert x in multiset(xs);
      var j :| 0 <= j < |xs| && xs[j] == x;
    }
  }

  lemma Mix(a: real, b: real, f: real, m: real)
    requires a <= b && 0.0 <= f <= 1.0 && m == a * (1.0 - f) + b * f
    ensures a <= m <= b
  {
    var x := (b - a) * f;
    ProductWithin(f, b - a, x);
    assert m == a + x;
  }

  function Interpolate(a: real, b: real, f: real): real {
    a * (1.0 - f) + b * f
  }

  /** The quantile lies between the sorted neighbours of its position. */
  lemma {:induction false} QuantileBetween(values: seq<real>, q: real)
    requires values != []
    ensures Quantile(values, q).Some?
    ensures var xs, pos := Sort(values), Position(|values|, q);
      && 0 <= pos.Floor <= Ceil(pos) < |values|
      && xs[pos.Floor] <= Quantile(values, q).value <= xs[Ceil(pos)]
  {
    hide Sort;
    hide Position;
    hide Interpolate;
    var xs, pos := Sort(values), Position(|values|, q);
    PositionInRange(|values|, q);
    var lo, hi := pos.Floor, Ceil(pos);
    assert xs[lo] <= xs[hi];
    InterpolateBetween(xs[lo], xs[hi], pos - lo as real);
  }

  lemma InterpolateBetween(a: real, b: real, f: real)
    requires a <= b && 0.0 <= f <= 1.0
    ensures a <= Interpolate(a, b, f) <= b
  {
    Mix(a, b, f, Interpolate(a, b, f));
  }

  /** How many values are at most e. */
  function CountAtMost(xs: seq<real>, e: real): nat {
    if xs == [] then 0 else CountAtMost(xs[..|xs| - 1], e) + if xs[|xs| - 1] <= e then 1 else 0
  }

  lemma {:induction false} CountConcat(xs: seq<real>, ys: seq<real>, e: real)
    ensures CountAtMost(xs + ys, e) == CountAtMost(xs, e) + CountAtMost(ys, e)
  {
    if ys == [] {
      assert xs + ys == xs;
    } else {
      var n := |ys| - 1;
      assert (xs + ys)[..|xs + ys| - 1] == xs + ys[..n];
      CountConcat(xs, ys[..n], e);
    }
  }

  lemma {:induction false} CountInsert(x: real, xs: seq<real>, e: real)
    ensures CountAtMost(Insert(x, xs), e) == CountAtMost(xs, e) + if x <= e then 1 else 0
  {
    var one := if x <= e then 1 else 0;
    assert CountAtMost([x], e) == one;
    if xs == [] || x <= xs[0] {
      CountConcat([x], xs, e);
    } else {
      CountInsert(x, xs[1..], e);
      assert xs == [xs[0]] + xs[1..];
      CountConcat([xs[0]], xs[1..], e);
      CountConcat([xs[0]], Insert(x, xs[1..]), e);
    }
  }

  lemma {:induction false} CountSort(xs: seq<real>, e: real)
    ensures CountAtMost(Sort(xs), e) == CountAtMost(xs, e)
  {
    hide Insert;
    if xs != [] {
      CountSort(xs[..|xs| - 1], e);
      CountInsert(xs[|xs| - 1], Sort(xs[..|xs| - 1]), e);
    }
  }

  lemma {:induction false} CountPrefix(xs: seq<real>, n: nat, e: real)
    requires n <= |xs| && forall i :: 0 <= i < n ==> xs[i] <= e
    ensures CountAtMost(xs, e) >= n
  {
    if |xs| > 0 {
      CountPrefix(xs[..|xs| - 1], if n == |xs| then n - 1 else n, e);
    }
  }

  /** At least floor(q (n - 1)) + 1 of the values are at most the quantile. */
  lemma {:induction false} QuantileCounts(values: seq<real>, q: real)
    requires values != []
    ensures Quantile(values, q).Some?
    ensures CountAtMost(values, Quantile(values, q).value) >= Position(|values|, q).Floor + 1
  {
    hide Sort;
    hide Position;
    hide Quantile;
    QuantileBetween(values, q);
    var e, xs, lo := Quantile(values, q).value, Sort(values), Position(|values|, q).Floor;
    forall i | 0 <= i < lo + 1 ensures xs[i] <= e {
      assert xs[i] <= xs[lo];
    }
    CountPrefix(xs, lo + 1, e);
    CountSort(values, e);
  }

  /** The short-horizon and the long-horizon divergence of one pair. */
  datatype Divergence = Divergence(dM: real, dL: real)

  datatype Record = Record(depth: int, pairs: seq<Divergence>)

  predicate Defined(d: Divergence, delta: real) {
    1.0 - d.dM + delta != 0.0
  }

  function Ratio(d: Divergence, delta: real): real
    requires Defined(d, delta)
  {
    MaxReal(d.dL - d.dM, 0.0) / (1.0 - d.dM + delta)
  }

  function Ratios(pairs: seq<Divergence>, delta: real): (rs: seq<real>)
    requires forall d :: d in pairs ==> Defined(d, delta)
    ensures |rs| == |pairs|
    ensures forall i :: 0 <= i < |pairs| ==> rs[i] == Ratio(pairs[i], delta)
  {
    seq(|pairs|, i requires 0 <= i < |pairs| && pairs[i] in pairs => Ratio(pairs[i], delta))
  }

  /** The inequality that _coverage counts. */
  predicate Covered(d: Divergence, eps: real, delta: real) {
    d.dL <= d.dM + (1.0 - d.dM) * eps + delta
  }

  function CountCovered(pairs: seq<Divergence>, eps: real, delta: real): nat {
    if pairs == [] then 0
    else CountCovered(pairs[..|pairs| - 1], eps, delta) + if Covered(pairs[|pairs| - 1], eps, delta) then 1 else 0
  }

  /** _coverage */
  function Coverage(pairs: seq<Divergence>, eps: Option<real>, delta: real): Option<real> {
    if eps.None? || pairs == [] then None
    else Some(CountCovered(pairs, eps.value, delta) as real / |pairs| as real)
  }

  predicate InUnit(d: Divergence) {
    0.0 <= d.dM <= 1.0 && 0.0 <= d.dL <= 1.0
  }

  lemma RatioInUnit(d: Divergence, delta: real)
    requires InUnit(d) && delta > 0.0
    ensures Defined(d, delta) && 0.0 <= Ratio(d, delta) <= 1.0
  {
    FractionInUnit(MaxReal(d.dL - d.dM, 0.0), 1.0 - d.dM + delta);
  }

  lemma FractionInUnit(x: real, y: real)
    requires 0.0 <= x <= y && y > 0.0
    ensures 0.0 <= x / y <= 1.0
  {
    assert (x / y) * y == x;
  }

  /** A pair whose ratio is at most an allowance in [0, 1] is covered by it. */
  lemma RatioCovers(d: Divergence, eps: real, delta: real)
    requires InUnit(d) && delta > 0.0 && Defined(d, delta)
    requires Ratio(d, delta) <= eps <= 1.0
    ensures Covered(d, eps, delta)
  {
    RatioInUnit(d, delta);
    var x, y := MaxReal(d.dL - d.dM, 0.0), 1.0 - d.dM + delta;
    QuotientAtMost(x, y, eps);
    SplitAllowance(1.0 - d.dM, delta, eps, eps * y, (1.0 - d.dM) * eps);
  }

  lemma SplitAllowance(rest: real, delta: real, eps: real, z: real, x: real)
    requires 0.0 <= eps <= 1.0 && delta >= 0.0 && z == eps * (rest + delta) && x == rest * eps
    ensures z <= x + delta
  {
    var w := eps * delta;
    ProductWithin(eps, delta, w);
    assert z == x + w;
  }

  lemma QuotientAtMost(x: real, y: real, e: real)
    requires y > 0.0 && x / y <= e
    ensures x <= e * y
  {
    var r := x / y;
    assert r * y == x;
    assert (e - r) * y >= 0.0;
  }

  lemma {:induction false} CountsCover(pairs: seq<Divergence>, eps: real, delta: real)
    requires delta > 0.0 && eps <= 1.0 && forall d :: d in pairs ==> InUnit(d) && Defined(d, delta)
    ensures CountCovered(pairs, eps, delta) >= CountAtMost(Ratios(pairs, delta), eps)
  {
    hide Covered;
    hide Ratio;
    hide InUnit;
    hide Defined;
    if pairs != [] {
      var n := |pairs| - 1;
      CountsCover(pairs[..n], eps, delta);
      assert Ratios(pairs, delta)[..n] == Ratios(pairs[..n], delta);
      assert pairs[n] in pairs;
      if Ratio(pairs[n], delta) <= eps {
        RatioCovers(pairs[n], eps, delta);
      }
    }
  }

  lemma AllDefined(pairs: seq<Divergence>, delta: real)
    requires delta > 0.0 && forall d :: d in pairs ==> InUnit(d)
    ensures forall d :: d in pairs ==> Defined(d, delta)
  {
  }

  /** The sample guarantee: with all divergences in [0, 1], the allowance taken as the
      q-quantile of the ratios covers at least floor(q (n - 1)) + 1 of the n pairs. */
  lemma {:induction false} CalibrationCovers(pairs: seq<Divergence>, delta: real, q: real)
    requires pairs != [] && delta > 0.0 && forall d :: d in pairs ==> InUnit(d)
    ensures forall d :: d in pairs ==> Defined(d, delta)
    ensures var eps := Quantile(Ratios(pairs, delta), q);
      && eps.Some? && 0.0 <= eps.value <= 1.0
      && CountCovered(pairs, eps.value, delta) >= Position(|pairs|, q).Floor + 1
  {
    hide Sort;
    hide Position;
    hide Quantile;
    hide InUnit;
    hide Ratio;
    hide Defined;
    AllDefined(pairs, delta);
    var rs := Ratios(pairs, delta);
    forall i | 0 <= i < |rs| ensures 0.0 <= rs[i] <= 1.0 {
      RatioInUnit(pairs[i], delta);
    }
    QuantileCounts(rs, q);
    QuantileBetween(rs, q);
    SortedWithin(rs);
    CountsCover(pairs, Quantile(rs, q).value, delta);
  }

  lemma {:induction false} SortedWithin(rs: seq<real>)
    requires forall i :: 0 <= i < |rs| ==> 0.0 <= rs[i] <= 1.0
    ensures forall i :: 0 <= i < |rs| ==> 0.0 <= Sort(rs)[i] <= 1.0
  {
    hide Sort;
    var xs := Sort(rs);
    forall i | 0 <= i < |xs| ensures 0.0 <= xs[i] <= 1.0 {
      assert xs[i] in multiset(xs);
      assert xs[i] in rs;
    }
  }

  /** Hence the reported coverage falls short of q by less than one pair. */
  lemma CoverageNearQuantile(pairs: seq<Divergence>, delta: real, q: real)
    requires pairs != [] && delta > 0.0 && 0.0 <= q <= 1.0 && forall d :: d in pairs ==> InUnit(d)
    ensures forall d :: d in pairs ==> Defined(d, delta)
    ensures var c := Coverage(pairs, Quantile(Ratios(pairs, delta), q), delta);
      c.Some? && q - 1.0 / |pairs| as real < c.value
  {
    hide Sort;
    hide Quantile;
    hide InUnit;
    hide Ratio;
    hide Defined;
    hide Covered;
    CalibrationCovers(pairs, delta, q);
    var eps := Quantile(Ratios(pairs, delta), q).value;
    ShareAbove(CountCovered(pairs, eps, delta) as real, |pairs| as real, q);
  }

  lemma ShareAbove(count: real, n: real, q: real)
    requires n >= 1.0 && 0.0 <= q <= 1.0 && count > q * (n - 1.0)
    ensures q - 1.0 / n < count / n
  {
    var a, b := 1.0 / n, count / n;
    assert a * n == 1.0 && b * n == count;
    assert (b + a - q) * n == count + 1.0 - q * n;
    assert count + 1.0 - q * n > 0.0;
    PositiveFactor(b + a - q, n);
  }

  lemma PositiveFactor(x: real, n: real)
    requires n > 0.0 && x * n > 0.0
    ensures x > 0.0
  {
  }

  /** A covered pair's long divergence is within delta of the corrected short divergence that
      the dispersion bound is computed from. */
  lemma CoveredIsCorrected(d: Divergence, eps: real, delta: real)
    requires InUnit(d) && 0.0 <= eps <= 1.0
    ensures Covered(d, eps, delta) <==> d.dL <= TailCorrection(d.dM, eps) + delta
  {
  }

  /** A pair together with the depth of its record. */
  datatype Sample = Sample(depth: int, d: Divergence)

  function Tagged(depth: int, pairs: seq<Divergence>): (samples: seq<Sample>)
    ensures |samples| == |pairs|
    ensures forall i :: 0 <= i < |pairs| ==> samples[i] == Sample(depth, pairs[i])
  {
    seq(|pairs|, i requires 0 <= i < |pairs| => Sample(depth, pairs[i]))
  }

  /** All pairs of all records, in the order of the loops. */
  function Samples(records: seq<Record>): seq<Sample> {
    if records == [] then []
    else
      var n := |records| - 1;
      Samples(records[..n]) + Tagged(records[n].depth, records[n].pairs)
  }

  function Untagged(samples: seq<Sample>): (pairs: seq<Divergence>)
    ensures |pairs| == |samples|
    ensures forall i :: 0 <= i < |samples| ==> pairs[i] == samples[i].d
  {
    seq(|samples|, i requires 0 <= i < |samples| => samples[i].d)
  }

  /** The pairs of one depth. */
  function PairsAt(samples: seq<Sample>, depth: int): seq<Divergence> {
    if samples == [] then []
    else
      var n := |samples| - 1;
      PairsAt(samples[..n], depth) + if samples[n].depth == depth then [samples[n].d] else []
  }

  ghost predicate Calibratable(samples: seq<Sample>, delta: real) {
    forall i :: 0 <= i < |samples| ==> Defined(samples[i].d, delta)
  }

  lemma {:induction false} PairsDefined(samples: seq<Sample>, delta: real, depth: int)
    requires Calibratable(samples, delta)
    ensures forall d :: d in PairsAt(samples, depth) ==> Defined(d, delta)
  {
    hide Defined;
    if samples != [] {
      PairsDefined(samples[..|samples| - 1], delta, depth);
    }
  }

  /** The lists that the loop fills. */
  datatype Lists = Lists(dMs: seq<real>, dLs: seq<real>, ratios: seq<real>, byDepth: map<int, seq<real>>)

  ghost predicate RatiosAt(rs: seq<real>, samples: seq<Sample>, depth: int, delta: real)
    requires Calibratable(samples, delta)
  {
    PairsDefined(samples, delta, depth);
    rs == Ratios(PairsAt(samples, depth), delta)
  }

  /** The lists hold every pair once, in order, and every ratio once more under its depth. */
  ghost predicate Tabulates(t: Lists, samples: seq<Sample>, delta: real)
    requires Calibratable(samples, delta)
  {
    && |t.dMs| == |t.dLs| == |t.ratios| == |samples|
    && (forall i :: 0 <= i < |samples| ==>
          Divergence(t.dMs[i], t.dLs[i]) == samples[i].d && t.ratios[i] == Ratio(samples[i].d, delta))
    && (forall depth :: depth in t.byDepth <==> PairsAt(samples, depth) != [])
    && (forall depth :: depth in t.byDepth ==> RatiosAt(t.byDepth[depth], samples, depth, delta))
  }

  /** What one turn of the loop adds. */
  function AddSample(t: Lists, x: Sample, delta: real): Lists
    requires Defined(x.d, delta)
  {
    var ratio := Ratio(x.d, delta);
    Lists(t.dMs + [x.d.dM], t.dLs + [x.d.dL], t.ratios + [ratio],
          t.byDepth[x.depth := (if x.depth in t.byDepth then t.byDepth[x.depth] else []) + [ratio]])
  }

  lemma {:induction false} AtOneMore(rs: seq<real>, samples: seq<Sample>, x: Sample, delta: real)
    requires Calibratable(samples, delta) && Defined(x.d, delta) && Calibratable(samples + [x], delta)
    requires RatiosAt(rs, samples, x.depth, delta)
    ensures PairsAt(samples + [x], x.depth) != []
    ensures RatiosAt(rs + [Ratio(x.d, delta)], samples + [x], x.depth, delta)
  {
    hide Ratio;
    hide Defined;
    assert (samples + [x])[..|samples|] == samples;
    PairsDefined(samples + [x], delta, x.depth);
  }

  lemma {:induction false} AtOthers(samples: seq<Sample>, x: Sample, depth: int)
    requires depth != x.depth
    ensures PairsAt(samples + [x], depth) == PairsAt(samples, depth)
  {
    assert (samples + [x])[..|samples|] == samples;
  }

  lemma TabulatesOneMore(t: Lists, samples: seq<Sample>, x: Sample, delta: real)
    requires Calibratable(samples, delta) && Defined(x.d, delta) && Tabulates(t, samples, delta)
    ensures Calibratable(samples + [x], delta) && Tabulates(AddSample(t, x, delta), samples + [x], delta)
  {
    hide Ratio;
    hide Defined;
    hide PairsAt;
    var all, t' := samples + [x], AddSample(t, x, delta);
    var old' := if x.depth in t.byDepth then t.byDepth[x.depth] else [];
    AtOneMore(old', samples, x, delta);
    forall depth ensures depth in t'.byDepth <==> PairsAt(all, depth) != [] {
      if depth != x.depth { AtOthers(samples, x, depth); }
    }
    forall depth | depth in t'.byDepth ensures RatiosAt(t'.byDepth[depth], all, depth, delta) {
      if depth != x.depth { AtOthers(samples, x, depth); }
    }
  }

  lemma {:induction false} SamplesPrefix(records: seq<Record>, k: nat)
    requires k <= |records|
    ensures Samples(records[..k]) <= Samples(records)
  {
    if k < |records| {
      var n := |records| - 1;
      assert records[..n][..k] == records[..k];
      SamplesPrefix(records[..n], k);
    } else {
      assert records[..k] == records;
    }
  }

  /** The inner loop: the pairs of one record join the lists. */
  method AddRecord(r: Record, delta: real, start: Lists, ghost before: seq<Sample>) returns (t: Lists)
    requires Calibratable(before + Tagged(r.depth, r.pairs), delta)
    requires Calibratable(before, delta) && Tabulates(start, before, delta)
    ensures Tabulates(t, before + Tagged(r.depth, r.pairs), delta)
  {
    hide Defined;
    hide Tabulates;
    ghost var all := before + Tagged(r.depth, r.pairs);
    t := start;
    assert all[..|before|] == before;
    for i := 0 to |r.pairs|
      invariant Calibratable(all[..|before| + i], delta) && Tabulates(t, all[..|before| + i], delta)
    {
      ghost var n := |before| + i;
      assert all[n] == Sample(r.depth, r.pairs[i]) && all[..n + 1] == all[..n] + [all[n]];
      TabulatesOneMore(t, all[..n], all[n], delta);
      t := AddSample(t, Sample(r.depth, r.pairs[i]), delta);
    }
    assert all[..|all|] == all;
  }

  /** The ratio loop of summarize. */
  method CollectRatios(records: seq<Record>, delta: real) returns (t: Lists)
    requires Calibratable(Samples(records), delta)
    ensures Tabulates(t, Samples(records), delta)
  {
    hide Defined;
    hide Tabulates;
    hide AddSample;
    t := Lists([], [], [], map[]);
    NothingTabulated(delta);
    for k := 0 to |records|
      invariant Calibratable(Samples(records[..k]), delta) && Tabulates(t, Samples(records[..k]), delta)
    {
      assert records[..k + 1][..k] == records[..k];
      SamplesPrefix(records, k + 1);
      t := AddRecord(records[k], delta, t, Samples(records[..k]));
    }
    assert records[..|records|] == records;
  }

  lemma NothingTabulated(delta: real)
    ensures Tabulates(Lists([], [], [], map[]), [], delta)
  {
  }

  /** The guarantee as summarize reports it, for the whole sample and for each depth: the
      allowance taken from the collected ratios covers what the quantile promises. */
  lemma {:induction false} TabulatedCovers(t: Lists, samples: seq<Sample>, delta: real, q: real)
    requires samples != [] && delta > 0.0 && forall i :: 0 <= i < |samples| ==> InUnit(samples[i].d)
    requires Calibratable(samples, delta) && Tabulates(t, samples, delta)
    ensures var eps := Quantile(t.ratios, q);
      eps.Some? && CountCovered(Untagged(samples), eps.value, delta) >= Position(|samples|, q).Floor + 1
    ensures forall depth :: depth in t.byDepth ==>
      var eps, pairs := Quantile(t.byDepth[depth], q), PairsAt(samples, depth);
      eps.Some? && CountCovered(pairs, eps.value, delta) >= Position(|pairs|, q).Floor + 1
  {
    hide Quantile;
    hide Position;
    hide InUnit;
    hide Ratio;
    hide PairsAt;
    hide CountCovered;
    CalibrationCovers(Untagged(samples), delta, q);
    assert t.ratios == Ratios(Untagged(samples), delta);
    forall depth | depth in t.byDepth
      ensures var eps, pairs := Quantile(t.byDepth[depth], q), PairsAt(samples, depth);
        eps.Some? && CountCovered(pairs, eps.value, delta) >= Position(|pairs|, q).Floor + 1
    {
      PairsAtInUnit(samples, depth);
      CalibrationCovers(PairsAt(samples, depth), delta, q);
    }
  }

  lemma {:induction false} PairsAtInUnit(samples: seq<Sample>, depth: int)
    requires forall i :: 0 <= i < |samples| ==> InUnit(samples[i].d)
    ensures forall d :: d in PairsAt(samples, depth) ==> InUnit(d)
  {
    if samples != [] {
      PairsAtInUnit(samples[..|samples| - 1], depth);
    }
  }
}
