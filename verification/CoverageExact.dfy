/** When does the q-quantile allowance cover a share q of every sample? Exactly: what can be
    read off the sample size, q and delta. */
module CoverageExact {
  import opened Prelude
  import opened Arithmetic
  import opened Dispersion
  import opened TailCalibration

  /** How far the position of the quantile lies beyond its lower neighbour. */
  function Beyond(n: nat, q: real): real {
    Position(n, q) - Position(n, q).Floor as real
  }

  /** q as the quantile takes it. */
  function Wanted(q: real): real {
    ClampReal(q, 0.0, 1.0)
  }

  /** The condition: the guaranteed pairs are enough already, or the slack delta carries the
      interpolated allowance to every pair up to the upper neighbour. */
  predicate Suffices(n: nat, q: real, delta: real) {
    Beyond(n, q) + Wanted(q) <= 1.0 || Beyond(n, q) + delta * delta >= 1.0
  }

  predicate AllInUnit(pairs: seq<Divergence>) {
    forall d :: d in pairs ==> InUnit(d)
  }

  /** The coverage reported for the allowance that was taken from the sample itself. */
  function SampleCoverage(pairs: seq<Divergence>, q: real, delta: real): Option<real>
    requires delta > 0.0 && AllInUnit(pairs)
  {
    AllDefined(pairs, delta);
    Coverage(pairs, Quantile(Ratios(pairs, delta), q), delta)
  }

  /** Every sample of n pairs is covered to a share of q at least. */
  ghost predicate CoversAlways(n: nat, q: real, delta: real)
    requires delta > 0.0
  {
    forall pairs :: |pairs| == n && AllInUnit(pairs) ==> CoversShare(pairs, q, delta)
  }

  predicate CoversShare(pairs: seq<Divergence>, q: real, delta: real)
    requires delta > 0.0 && AllInUnit(pairs)
  {
    SampleCoverage(pairs, q, delta).Some? && SampleCoverage(pairs, q, delta).value >= Wanted(q)
  }

  lemma PositionParts(n: nat, q: real)
    requires n > 0
    ensures 0 <= Position(n, q).Floor < n && 0.0 <= Beyond(n, q) < 1.0
    ensures Beyond(n, q) > 0.0 ==> Ceil(Position(n, q)) == Position(n, q).Floor + 1 < n
    ensures Wanted(q) * n as real == Position(n, q).Floor as real + Beyond(n, q) + Wanted(q)
  {
    hide ClampReal;
    PositionInRange(n, q);
    SplitProduct(Wanted(q), n as real, Position(n, q), Wanted(q) * n as real);
  }

  lemma SplitProduct(c: real, n: real, p: real, t: real)
    requires p == c * (n - 1.0) && t == c * n
    ensures t == p + c
  {
  }

  /** A count is a share of at least c exactly if it is at least c n. */
  lemma ShareAtLeast(count: real, n: real, c: real)
    requires n > 0.0
    ensures count / n >= c <==> count >= c * n
  {
    var r := count / n;
    assert r * n == count;
    if r >= c {
      ProductNotNegative(r - c, n, count - c * n);
    } else {
      ProductPositive(c - r, n, c * n - count);
    }
  }

  /** Below the square of delta the slack makes up for what interpolation leaves out: a pair
      with a ratio up to the upper neighbour hi is covered by any allowance from hi f on. */
  lemma RatioCoversNext(d: Divergence, eps: real, delta: real, hi: real, f: real)
    requires InUnit(d) && delta > 0.0 && Defined(d, delta)
    requires Ratio(d, delta) <= hi && Part(hi, f) <= eps
    requires 0.0 <= f <= 1.0 && f + delta * delta >= 1.0
    ensures Covered(d, eps, delta)
  {
    RatioInUnit(d, delta);
    var x, y, r := MaxReal(d.dL - d.dM, 0.0), 1.0 - d.dM, Ratio(d, delta);
    assert r * (y + delta) == x;
    ProductNotNegative(f, hi - r, f * hi - f * r);
    ProductNotNegative(y, eps - f * r, y * eps - y * (f * r));
    SlackSuffices(x, y, delta, f, r, y * (f * r));
  }

  lemma SlackSuffices(x: real, y: real, delta: real, f: real, r: real, t: real)
    requires 0.0 <= x <= y <= 1.0 && delta > 0.0 && 0.0 <= f <= 1.0 && f + delta * delta >= 1.0
    requires r * (y + delta) == x && t == y * (f * r)
    ensures x <= t + delta
  {
    var v, u, w := y * (1.0 - f), y * (1.0 - f) + delta, y + delta;
    ShortfallIs(x, y, delta, f, r, t, r * u);
    CrossTerms(r, w, u, x, r * u);
    ProductNotNegative(y, 1.0 - f, v);
    ProductNotNegative(y - x, u, y * u - x * u);
    SquareBelow(y, f, delta, v, y * v);
    SlackTerms(y, v, delta, u, w, y * u, delta * w);
    SignOf(delta - r * u, w, delta * w - (r * u) * w);
  }

  lemma ShortfallIs(x: real, y: real, delta: real, f: real, r: real, t: real, z: real)
    requires r * (y + delta) == x && t == y * (f * r) && z == r * (y * (1.0 - f) + delta)
    ensures z == x - t
  {
    assert r * (y * (1.0 - f) + delta) == r * (y + delta) - y * (f * r);
  }

  lemma CrossTerms(r: real, w: real, u: real, x: real, z: real)
    requires r * w == x && z == r * u
    ensures z * w == x * u
  {
    assert z * w == (r * w) * u;
  }

  lemma SlackTerms(y: real, v: real, delta: real, u: real, w: real, yu: real, dw: real)
    requires u == v + delta && w == y + delta && yu == y * u && dw == delta * w
    ensures yu == y * v + y * delta && dw == y * delta + delta * delta
  {
  }

  lemma SquareBelow(y: real, f: real, delta: real, v: real, yv: real)
    requires 0.0 <= y <= 1.0 && f <= 1.0 && v == y * (1.0 - f) && v >= 0.0 && yv == y * v
    requires f + delta * delta >= 1.0
    ensures yv <= delta * delta
  {
    ProductNotNegative(1.0 - y, v, v - yv);
    ProductNotNegative(1.0 - y, 1.0 - f, 1.0 - f - v);
  }

  lemma SignOf(x: real, w: real, p: real)
    requires w > 0.0 && p == x * w && p >= 0.0
    ensures x >= 0.0
  {
    if x < 0.0 {
      ProductPositive(-x, w, -p);
    }
  }

  /** Pairs are covered when those with a ratio of at most e are. */
  lemma {:induction false} CountsCoverUpTo(pairs: seq<Divergence>, e: real, eps: real, delta: real)
    requires forall d :: d in pairs ==> Defined(d, delta)
    requires forall d :: d in pairs && Ratio(d, delta) <= e ==> Covered(d, eps, delta)
    ensures CountCovered(pairs, eps, delta) >= CountAtMost(Ratios(pairs, delta), e)
  {
    hide Covered;
    hide Ratio;
    hide Defined;
    if pairs != [] {
      var n := |pairs| - 1;
      CountsCoverUpTo(pairs[..n], e, eps, delta);
      assert Ratios(pairs, delta)[..n] == Ratios(pairs[..n], delta);
      assert pairs[n] in pairs;
    }
  }

  /** Up to the upper neighbour there is one value more. */
  lemma {:induction false} NeighbourCounts(values: seq<real>, q: real)
    requires values != [] && Ceil(Position(|values|, q)) < |values| && 0 <= Position(|values|, q).Floor
    requires Ceil(Position(|values|, q)) == Position(|values|, q).Floor + 1
    ensures CountAtMost(values, Sort(values)[Ceil(Position(|values|, q))]) >= Position(|values|, q).Floor + 2
  {
    hide Sort;
    hide Position;
    hide Ceil;
    var xs, hi := Sort(values), Ceil(Position(|values|, q));
    forall i | 0 <= i < hi + 1 ensures xs[i] <= xs[hi] {
    }
    CountPrefix(xs, hi + 1, xs[hi]);
    CountSort(values, xs[hi]);
  }

  function Part(b: real, f: real): real {
    b * f
  }

  lemma {:induction false} QuantileIs(values: seq<real>, q: real)
    requires values != [] && Beyond(|values|, q) > 0.0
    ensures var xs, pos := Sort(values), Position(|values|, q);
      && 0 <= pos.Floor < Ceil(pos) < |values|
      && Quantile(values, q) == Some(Interpolate(xs[pos.Floor], xs[Ceil(pos)], Beyond(|values|, q)))
  {
    hide Sort;
    hide Position;
    hide Interpolate;
    PositionInRange(|values|, q);
  }

  lemma {:induction false} QuantileAbove(values: seq<real>, q: real)
    requires values != [] && Beyond(|values|, q) > 0.0
    requires forall i :: 0 <= i < |values| ==> 0.0 <= values[i] <= 1.0
    ensures 0 <= Position(|values|, q).Floor < Ceil(Position(|values|, q)) < |values|
    ensures Quantile(values, q).Some?
    ensures Part(Sort(values)[Ceil(Position(|values|, q))], Beyond(|values|, q)) <= Quantile(values, q).value
  {
    hide Sort;
    hide Position;
    hide Interpolate;
    hide Quantile;
    hide Ceil;
    hide Part;
    PositionParts(|values|, q);
    QuantileIs(values, q);
    SortedWithin(values);
    var xs, pos := Sort(values), Position(|values|, q);
    InterpolateAbove(xs[pos.Floor], xs[Ceil(pos)], Beyond(|values|, q));
  }

  lemma InterpolateAbove(a: real, b: real, f: real)
    requires 0.0 <= a && 0.0 <= f <= 1.0
    ensures Part(b, f) <= Interpolate(a, b, f)
  {
    ProductNotNegative(a, 1.0 - f, a * (1.0 - f));
  }

  /** With enough slack one pair more is covered than the quantile guarantees. */
  lemma {:induction false} SlackCovers(pairs: seq<Divergence>, q: real, delta: real)
    requires pairs != [] && delta > 0.0 && AllInUnit(pairs)
    requires Beyond(|pairs|, q) > 0.0 && Beyond(|pairs|, q) + delta * delta >= 1.0
    ensures forall d :: d in pairs ==> Defined(d, delta)
    ensures Quantile(Ratios(pairs, delta), q).Some?
    ensures CountCovered(pairs, Quantile(Ratios(pairs, delta), q).value, delta) >= Position(|pairs|, q).Floor + 2
  {
    hide Sort;
    hide Position;
    hide Quantile;
    hide InUnit;
    hide Ratio;
    hide Defined;
    hide Covered;
    AllDefined(pairs, delta);
    var rs := Ratios(pairs, delta);
    forall i | 0 <= i < |rs| ensures 0.0 <= rs[i] <= 1.0 {
      RatioInUnit(pairs[i], delta);
    }
    PositionParts(|pairs|, q);
    QuantileAbove(rs, q);
    NeighbourCounts(rs, q);
    var eps, top := Quantile(rs, q).value, Sort(rs)[Ceil(Position(|rs|, q))];
    forall d | d in pairs && Ratio(d, delta) <= top ensures Covered(d, eps, delta) {
      RatioCoversNext(d, eps, delta, top, Beyond(|pairs|, q));
    }
    CountsCoverUpTo(pairs, top, eps, delta);
  }

  lemma SufficesCovers(pairs: seq<Divergence>, q: real, delta: real)
    requires pairs != [] && delta > 0.0 && AllInUnit(pairs) && Suffices(|pairs|, q, delta)
    ensures CoversShare(pairs, q, delta)
  {
    hide Sort;
    hide Position;
    hide Quantile;
    hide InUnit;
    hide Ratio;
    hide Defined;
    hide Covered;
    hide ClampReal;
    hide Beyond;
    var n := |pairs|;
    CalibrationCovers(pairs, delta, q);
    PositionParts(n, q);
    ClampedUnit(q);
    var count := CountCovered(pairs, Quantile(Ratios(pairs, delta), q).value, delta);
    if Beyond(n, q) + Wanted(q) > 1.0 {
      SlackCovers(pairs, q, delta);
    }
    assert count as real >= Wanted(q) * n as real;
    ShareAtLeast(count as real, n as real, Wanted(q));
    assert SampleCoverage(pairs, q, delta) == Some(count as real / n as real);
  }

  /** A sample in which the first m pairs agree and the others differ as much as they can. */
  function AgreeingFirst(n: nat, m: nat): (pairs: seq<Divergence>)
    requires m <= n
    ensures |pairs| == n && AllInUnit(pairs)
  {
    seq(n, i requires 0 <= i < n => Divergence(0.0, if i < m then 0.0 else 1.0))
  }

  lemma {:induction false} InsertLast(x: real, xs: seq<real>)
    requires Ascending(xs) && forall i :: 0 <= i < |xs| ==> xs[i] <= x
    ensures Insert(x, xs) == xs + [x]
  {
    if xs != [] {
      if x <= xs[0] {
        assert forall i :: 0 <= i < |xs| ==> xs[i] == x;
        assert [x] + xs == xs + [x];
      } else {
        InsertLast(x, xs[1..]);
        assert xs == [xs[0]] + xs[1..];
      }
    }
  }

  lemma {:induction false} SortIdle(xs: seq<real>)
    requires Ascending(xs)
    ensures Sort(xs) == xs
  {
    hide Insert;
    if xs != [] {
      var n := |xs| - 1;
      SortIdle(xs[..n]);
      InsertLast(xs[n], xs[..n]);
      assert xs == xs[..n] + [xs[n]];
    }
  }

  lemma {:induction false} CountFirst(pairs: seq<Divergence>, m: nat, eps: real, delta: real)
    requires m <= |pairs|
    requires forall i :: 0 <= i < |pairs| ==> (Covered(pairs[i], eps, delta) <==> i < m)
    ensures CountCovered(pairs, eps, delta) == m
  {
    hide Covered;
    if pairs != [] {
      var n := |pairs| - 1;
      CountFirst(pairs[..n], if m <= n then m else n, eps, delta);
    }
  }

  lemma SplitQuantile(n: nat, q: real, delta: real)
    requires n > 0 && delta > 0.0 && Beyond(n, q) > 0.0
    ensures var m := Position(n, q).Floor + 1;
      && 0 <= m <= n
      && (forall d :: d in AgreeingFirst(n, m) ==> Defined(d, delta))
      && Quantile(Ratios(AgreeingFirst(n, m), delta), q) == Some(Beyond(n, q) / (1.0 + delta))
  {
    hide Sort;
    hide Position;
    hide Quantile;
    hide Interpolate;
    hide InUnit;
    hide Ratio;
    hide Defined;
    PositionParts(n, q);
    var lo, f := Position(n, q).Floor, Beyond(n, q);
    AllDefined(AgreeingFirst(n, lo + 1), delta);
    var rs, top := Ratios(AgreeingFirst(n, lo + 1), delta), 1.0 / (1.0 + delta);
    forall i | 0 <= i < n ensures rs[i] == if i <= lo then 0.0 else top {
      ExtremeRatios(delta);
    }
    OneOverPositive(1.0 + delta, f, top);
    SortIdle(rs);
    QuantileIs(rs, q);
    InterpolateZero(top, f);
  }

  lemma ExtremeRatios(delta: real)
    requires delta > 0.0
    ensures Defined(Divergence(0.0, 0.0), delta) && Ratio(Divergence(0.0, 0.0), delta) == 0.0
    ensures Defined(Divergence(0.0, 1.0), delta) && Ratio(Divergence(0.0, 1.0), delta) == 1.0 / (1.0 + delta)
  {
  }

  lemma OneOverPositive(d: real, f: real, top: real)
    requires d > 0.0 && top == 1.0 / d
    ensures top > 0.0 && top * f == f / d
  {
    assert top * d == 1.0;
    assert (top * f) * d == f;
  }

  lemma InterpolateZero(top: real, f: real)
    ensures Interpolate(0.0, top, f) == top * f
  {
  }

  /** Where the condition fails, the split sample is covered to one pair less than q asks. */
  lemma ShortSample(n: nat, q: real, delta: real)
    requires n > 0 && delta > 0.0 && !Suffices(n, q, delta)
    ensures 0 <= Position(n, q).Floor + 1 <= n
    ensures var m := Position(n, q).Floor + 1;
      && SampleCoverage(AgreeingFirst(n, m), q, delta) == Some(m as real / n as real)
      && m as real / n as real < Wanted(q)
  {
    hide Position;
    hide Quantile;
    hide Ratio;
    hide ClampReal;
    PositionParts(n, q);
    ClampedUnit(q);
    SplitQuantile(n, q, delta);
    var m, f := Position(n, q).Floor + 1, Beyond(n, q);
    var pairs, eps := AgreeingFirst(n, m), f / (1.0 + delta);
    OnlyFirstCovered(eps, f, delta);
    forall i | 0 <= i < n ensures Covered(pairs[i], eps, delta) <==> i < m {
    }
    CountFirst(pairs, m, eps, delta);
    ShareAtLeast(m as real, n as real, Wanted(q));
  }

  lemma OnlyFirstCovered(eps: real, f: real, delta: real)
    requires delta > 0.0 && 0.0 <= f && f + delta * delta < 1.0 && eps == f / (1.0 + delta)
    ensures Covered(Divergence(0.0, 0.0), eps, delta)
    ensures !Covered(Divergence(0.0, 1.0), eps, delta)
  {
    assert eps * (1.0 + delta) == f;
    SignOf(eps, 1.0 + delta, f);
    if eps >= 1.0 - delta {
      ProductNotNegative(eps - (1.0 - delta), 1.0 + delta, f - (1.0 - delta * delta));
    }
  }

  /** The exact condition, for every sample size, q and delta. */
  lemma CoversAlwaysIff(n: nat, q: real, delta: real)
    requires n > 0 && delta > 0.0
    ensures CoversAlways(n, q, delta) <==> Suffices(n, q, delta)
  {
    hide Suffices;
    hide CoversShare;
    if Suffices(n, q, delta) {
      forall pairs | |pairs| == n && AllInUnit(pairs) ensures CoversShare(pairs, q, delta) {
        SufficesCovers(pairs, q, delta);
      }
    } else {
      ShortSample(n, q, delta);
      NotCovered(AgreeingFirst(n, Position(n, q).Floor + 1), q, delta);
    }
  }

  lemma NotCovered(pairs: seq<Divergence>, q: real, delta: real)
    requires delta > 0.0 && AllInUnit(pairs)
    requires SampleCoverage(pairs, q, delta).Some? && SampleCoverage(pairs, q, delta).value < Wanted(q)
    ensures !CoversShare(pairs, q, delta)
  {
  }

  /** So the share can fall short: of these two pairs the 0.9-quantile covers one. */
  lemma CoverageBelowQuantile()
    ensures SampleCoverage(AgreeingFirst(2, 1), 0.9, 0.000001) == Some(0.5)
    ensures !CoversAlways(2, 0.9, 0.000001)
  {
    hide SampleCoverage;
    hide CoversAlways;
    assert Position(2, 0.9) == 0.9 && Position(2, 0.9).Floor + 1 == 1;
    ShortSample(2, 0.9, 0.000001);
    CoversAlwaysIff(2, 0.9, 0.000001);
  }
}
