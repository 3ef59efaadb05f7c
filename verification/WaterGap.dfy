/** How much the continuous allocation can lose by stopping the bisection after 160 turns: a
    bound that is known before the call. */
module WaterGap {
  import opened Prelude
  import opened Arithmetic
  import opened Dicts
  import opened WaterFilling

  /** The unclamped levels for two lambdas, the smaller one first. */
  lemma RootsClose(c: real, lo: real, hi: real, r: real, s: real)
    requires 0.0 < lo <= hi && r >= 0.0 && s > 0.0 && lo * (r * r) == c && hi * (s * s) == c
    ensures s <= r && lo * (r - s) <= (hi - lo) * s
  {
    RootsOrdered(c, lo, hi, r, s);
    var left, right := lo * (r - s), (hi - lo) * s;
    ProductNotNegative(lo, r - s, left);
    ProductNotNegative(left, r, left * r);
    RootsBalance(c, lo, hi, r, s, left, right);
    if left > right {
      ProductPositive(left - right, s, left * s - right * s);
    }
  }

  lemma RootsOrdered(c: real, lo: real, hi: real, r: real, s: real)
    requires 0.0 < lo <= hi && r >= 0.0 && s > 0.0 && lo * (r * r) == c && hi * (s * s) == c
    ensures s <= r
  {
    if r < s {
      SquaresGrow(r, s, r * r, s * s);
      ProductPositive(lo, s * s - r * r, lo * (s * s) - c);
      ProductNotNegative(hi - lo, s * s, c - lo * (s * s));
    }
  }

  lemma RootsBalance(c: real, lo: real, hi: real, r: real, s: real, left: real, right: real)
    requires lo * (r * r) == c && hi * (s * s) == c && left == lo * (r - s) && right == (hi - lo) * s
    ensures left * r + left * s == right * s
  {
  }

  lemma RootTimes(root: Root, c: real, dual: real)
    requires IsRoot(root) && c > 0.0 && dual > 0.0
    ensures root.Of(c / dual) > 0.0
    ensures dual * (root.Of(c / dual) * root.Of(c / dual)) == c
  {
    var x := c / dual;
    assert x * dual == c;
    QuotientNotNegative(c, dual);
    var s := root.Of(x);
    assert s * s == x;
    assert s != 0.0;
  }

  /** One level: between two lambdas it moves by no more than its cap times their distance,
      over the smaller one. */
  lemma LevelsClose(root: Root, c: real, base: int, cap: int, lo: real, hi: real)
    requires IsRoot(root) && 0 <= base <= cap && 0.0 < lo <= hi
    ensures Times(lo, Level(root, c, base, cap, lo)) <=
      Times(lo, Level(root, c, base, cap, hi)) + Times(hi - lo, cap as real)
  {
    hide IsRoot;
    hide Times;
    hide MinReal;
    hide MaxReal;
    var v, w, top := Level(root, c, base, cap, lo), Level(root, c, base, cap, hi), cap as real;
    if c > 0.0 {
      RootTimes(root, c, lo);
      RootTimes(root, c, hi);
      var r, s := root.Of(c / lo), root.Of(c / hi);
      RootsClose(c, lo, hi, r, s);
      ClampsClose(lo, hi, r, s, base as real, top, v, w, Times(lo, v), Times(lo, w), Times(hi - lo, top));
    } else {
      WidthPositive(hi - lo, top);
    }
  }

  lemma WidthPositive(width: real, top: real)
    requires width >= 0.0 && top >= 0.0
    ensures Times(width, top) >= 0.0
  {
    ProductNotNegative(width, top, Times(width, top));
  }

  lemma ClampsClose(lo: real, hi: real, r: real, s: real, base: real, cap: real, v: real, w: real,
                    lv: real, lw: real, most: real)
    requires 0.0 < lo <= hi && 0.0 < s <= r && lo * (r - s) <= (hi - lo) * s && 0.0 <= base <= cap
    requires v == MinReal(MaxReal(r, base), cap) && w == MinReal(MaxReal(s, base), cap)
    requires lv == Times(lo, v) && lw == Times(lo, w) && most == Times(hi - lo, cap)
    ensures lv <= lw + most
  {
    if s < cap {
      ProductNotNegative(hi - lo, cap - s, most - (hi - lo) * s);
      ProductNotNegative(lo, (r - s) - (v - w), lo * (r - s) - (lv - lw));
    } else {
      ProductNotNegative(hi - lo, cap, most);
    }
  }

  /** All levels together. */
  lemma {:induction false} TotalsClose(root: Root, c: map<string, real>, base: map<string, int>,
                                       cap: map<string, int>, lo: real, hi: real)
    requires IsRoot(root) && Vessels(c, base, cap) && 0.0 < lo <= hi
    ensures Times(lo, TotalFor(root, c, base, cap, lo)) <=
      Times(lo, TotalFor(root, c, base, cap, hi)) + Times(hi - lo, Sum(cap) as real)
  {
    hide IsRoot;
    hide SumReal;
    hide Sum;
    hide Times;
    hide Level;
    var v, w := Water(root, c, base, cap, lo), Water(root, c, base, cap, hi);
    var most := map k | k in c :: Times(lo, w[k]) + Times(hi - lo, Floats(cap)[k]);
    forall k | k in c ensures Prices(v, lo)[k] <= most[k] {
      LevelsClose(root, c[k], base[k], cap[k], lo, hi);
    }
    SumRealLeq(Prices(v, lo), most);
    SumRealParts(most, Prices(w, lo), Prices(Floats(cap), hi - lo));
    PricesSum(v, lo);
    PricesSum(w, lo);
    PricesSum(Floats(cap), hi - lo);
    FloatsSum(cap);
  }

  /** What is known beforehand of the loss: with the width of the last bracket, what the caps and
      the target amount to over it, and the target at the price where the bisection starts. */
  function Loss(width: real, caps: int, target: int): real {
    width * (caps as real + target as real) + 0.000000000000000001 * target as real
  }

  lemma UnspentWithin(dual: real, lo: real, width: real, spent: real, atLow: real, caps: real, target: real)
    requires LOWEST <= lo <= dual && dual == lo + width && 0.0 <= spent <= target && caps >= 0.0
    requires lo == LOWEST || (atLow > target && lo * atLow <= lo * spent + width * caps)
    ensures dual * (target - spent) <= width * (caps + target) + LOWEST * target
  {
    ProductNotNegative(width, spent, width * spent);
    ProductNotNegative(width, caps, width * caps);
    if lo == LOWEST {
      assert LOWEST * spent >= 0.0;
      UnspentParts(dual, lo, width, spent, target);
    } else {
      ProductNotNegative(lo, atLow - target, lo * atLow - lo * target);
      UnspentParts(dual, lo, width, spent, target);
    }
  }

  lemma UnspentParts(dual: real, lo: real, width: real, spent: real, target: real)
    requires dual == lo + width
    ensures dual * (target - spent) == (lo * target - lo * spent) + (width * target - width * spent)
  {
  }

  lemma {:induction false} UnspentBound(root: Root, c: map<string, real>, base: map<string, int>,
                                        cap: map<string, int>, target: int, lo: real, dual: real)
    requires IsRoot(root) && Vessels(c, base, cap) && Brackets(root, c, base, cap, target, lo, dual)
    ensures Unspent(dual, target, TotalFor(root, c, base, cap, dual)) <= Loss(dual - lo, Sum(cap), target)
  {
    hide IsRoot;
    hide Sum;
    hide TotalFor;
    var spent, atLow := TotalFor(root, c, base, cap, dual), TotalFor(root, c, base, cap, lo);
    TotalsClose(root, c, base, cap, lo, dual);
    TotalInRange(root, c, base, cap, dual);
    UnspentWithin(dual, lo, dual - lo, spent, atLow, Sum(cap) as real, target as real);
  }

  lemma {:induction false} TotalInRange(root: Root, c: map<string, real>, base: map<string, int>,
                                        cap: map<string, int>, dual: real)
    requires Vessels(c, base, cap) && dual > 0.0
    ensures 0.0 <= TotalFor(root, c, base, cap, dual) <= Sum(cap) as real
  {
    hide Sum;
    hide SumReal;
    hide Level;
    WaterWithin(root, c, base, cap, dual);
    WithinSum(Water(root, c, base, cap, dual), base, cap);
    var zeros := map k | k in base :: 0;
    SumConstant(zeros, 0);
    SumLeq(zeros, base);
  }

  lemma LossGrows(width: real, wider: real, caps: int, target: int)
    requires width <= wider && caps + target >= 0
    ensures Loss(width, caps, target) <= Loss(wider, caps, target)
  {
    var all := caps as real + target as real;
    ProductNotNegative(wider - width, all, wider * all - width * all);
  }

  lemma WidthAtMost(width: real, p: real, reach: real)
    requires p > 0.0 && width * p <= reach
    ensures width <= reach / p
  {
    var q := reach / p;
    assert q * p == reach;
    if width > q {
      ProductPositive(width - q, p, width * p - q * p);
    }
  }

  /** The allocation that is returned costs at most Loss more than any real allocation within the
      bounds that spends at most the target. Nothing in Loss needs the run: the reach of the
      doubling loop depends on the number of nodes and any bound on their dispersions. */
  lemma {:induction false} ResultWithinLoss(root: Root, c: map<string, real>, base: map<string, int>,
                                            cap: map<string, int>, target: int, raw: map<string, real>, dual: real,
                                            x: map<string, real>, top: real)
    requires IsRoot(root) && Vessels(c, base, cap) && AnyPositive(c) && AtMost(c, top) && target > Sum(base)
    requires forall k :: k in base ==> base[k] >= 1 && c[k] >= 0.0
    requires Filled(root, c, base, cap, target, raw, Some(dual))
    requires Within(x, base, cap) && SumReal(x) <= target as real
    ensures raw.Keys == x.Keys == c.Keys && forall k :: k in c ==> raw[k] > 0.0 && x[k] > 0.0
    ensures SumReal(Costs(c, raw)) <=
      SumReal(Costs(c, x)) + Loss(DoublingLimit(|c|, top) / Pow2(160), Sum(cap), target)
  {
    hide IsRoot;
    hide Within;
    hide SumReal;
    hide Sum;
    hide Costs;
    hide Filled;
    hide AnyPositive;
    hide AtMost;
    hide DoublingLimit;
    hide Pow2;
    hide Loss;
    hide Unspent;
    hide TotalFor;
    hide Brackets;
    ResultNearOptimal(root, c, base, cap, target, raw, dual, x);
    var lo := FilledBracket(root, c, base, cap, target, raw, dual);
    UnspentBound(root, c, base, cap, target, lo, dual);
    WidthAtMost(dual - lo, Pow2(160), DoublingLimit(|c|, top));
    CapsNotNegative(c, base, cap);
    LossGrows(dual - lo, DoublingLimit(|c|, top) / Pow2(160), Sum(cap), target);
  }

  lemma {:induction false} CapsNotNegative(c: map<string, real>, base: map<string, int>, cap: map<string, int>)
    requires Vessels(c, base, cap)
    ensures 0 <= Sum(base) <= Sum(cap)
  {
    hide Sum;
    var zeros := map k | k in base :: 0;
    SumConstant(zeros, 0);
    SumLeq(zeros, base);
    SumLeq(base, cap);
  }

  lemma FilledBracket(root: Root, c: map<string, real>, base: map<string, int>, cap: map<string, int>, target: int,
                      raw: map<string, real>, dual: real)
    returns (lo: real)
    requires c.Keys == base.Keys == cap.Keys && AnyPositive(c) && Filled(root, c, base, cap, target, raw, Some(dual))
    ensures Brackets(root, c, base, cap, target, lo, dual) && Narrow(c, lo, dual)
  {
    hide Brackets;
    hide Narrow;
    lo :| Brackets(root, c, base, cap, target, lo, dual) && Narrow(c, lo, dual);
  }
}
