/** Minimising a separable convex cost over integer vectors inside a box.

    The allocator minimises the sum of C/k, the rounders the sum of (raw - k)^2. Both move
    one unit at a time, always along the cheapest admissible step. Here it is proved once
    that a vector from which no unit can profitably be moved is a global minimum, that
    every minimum is of this kind, and that the unit steps never leave this class. */
module Separable {
  import opened Dicts

  /** What n units cost at a key. */
  datatype Cost = Cost(of: (string, int) -> real)
  {
    function At(k: string, n: int): real {
      of(k, n)
    }
  }

  /** What the unit from n to n + 1 costs at key k. */
  ghost function Marginal(cost: Cost, k: string, n: int): real {
    cost.At(k, n + 1) - cost.At(k, n)
  }

  ghost function TotalCost(cost: Cost, a: map<string, int>): real {
    SumReal(map k | k in a :: cost.At(k, a[k]))
  }

  ghost predicate InBox(a: map<string, int>, lo: map<string, int>, hi: map<string, int>) {
    && a.Keys == lo.Keys == hi.Keys
    && forall k :: k in a ==> lo[k] <= a[k] <= hi[k]
  }

  /** Inside the box the marginal costs never fall. */
  ghost predicate Convex(cost: Cost, lo: map<string, int>, hi: map<string, int>)
    requires lo.Keys == hi.Keys
  {
    forall k, i, j :: k in lo && lo[k] <= i <= j < hi[k] ==> Marginal(cost, k, i) <= Marginal(cost, k, j)
  }

  /** No unit costs more where it is than it would cost at another key with room. */
  ghost predicate Stable(cost: Cost, a: map<string, int>, lo: map<string, int>, hi: map<string, int>)
    requires InBox(a, lo, hi)
  {
    forall p, q :: p in a && q in a && lo[p] < a[p] && a[q] < hi[q]
      ==> Marginal(cost, p, a[p] - 1) <= Marginal(cost, q, a[q])
  }

  lemma SplitCost(cost: Cost, a: map<string, int>, k: string)
    requires k in a
    ensures TotalCost(cost, a) == cost.At(k, a[k]) + TotalCost(cost, a - {k})
  {
    var m := map j | j in a :: cost.At(j, a[j]);
    SumRealSplit(m, k);
    assert m - {k} == map j | j in a - {k} :: cost.At(j, (a - {k})[j]);
  }

  lemma SetCost(cost: Cost, a: map<string, int>, k: string, v: int)
    requires k in a
    ensures TotalCost(cost, a[k := v]) == TotalCost(cost, a) + cost.At(k, v) - cost.At(k, a[k])
  {
    SplitCost(cost, a, k);
    SplitCost(cost, a[k := v], k);
    assert a[k := v] - {k} == a - {k};
  }

  ghost function Gaps(a: map<string, int>, b: map<string, int>): map<string, int>
    requires a.Keys == b.Keys
  {
    map k | k in a :: if a[k] < b[k] then b[k] - a[k] else a[k] - b[k]
  }

  lemma CloserAt(a: map<string, int>, b: map<string, int>, k: string, v: int)
    requires a.Keys == b.Keys && k in a
    requires a[k] <= v < b[k] || b[k] < v <= a[k]
    ensures 0 <= Sum(Gaps(a, b[k := v])) < Sum(Gaps(a, b))
  {
    var gap := if a[k] < v then v - a[k] else a[k] - v;
    SumSet(Gaps(a, b), k, gap);
    assert Gaps(a, b)[k := gap] == Gaps(a, b[k := v]);
    var zeros := map j | j in a :: 0;
    SumLeq(zeros, Gaps(a, b[k := v]));
    SumConstant(zeros, 0);
  }

  lemma KeyBelow(a: map<string, int>, b: map<string, int>) returns (p: string)
    requires a.Keys == b.Keys && Sum(b) <= Sum(a) && a != b
    ensures p in a && b[p] < a[p]
  {
    if forall k :: k in a ==> a[k] <= b[k] {
      SumLeq(a, b);
    }
    p :| p in a && b[p] < a[p];
  }

  lemma ExchangePays(cost: Cost, a: map<string, int>, b: map<string, int>, lo: map<string, int>,
                     hi: map<string, int>, p: string, q: string)
    requires InBox(a, lo, hi) && InBox(b, lo, hi) && Convex(cost, lo, hi) && Stable(cost, a, lo, hi)
    requires p in a && b[p] < a[p] && q in a && a[q] < b[q]
    ensures Marginal(cost, p, b[p]) <= Marginal(cost, q, b[q] - 1)
    ensures InBox(b[q := b[q] - 1][p := b[p] + 1], lo, hi)
  {
    assert Marginal(cost, p, b[p]) <= Marginal(cost, p, a[p] - 1);
    assert Marginal(cost, q, a[q]) <= Marginal(cost, q, b[q] - 1);
  }

  lemma CloserBySwap(a: map<string, int>, b: map<string, int>, p: string, q: string)
    requires a.Keys == b.Keys && p in a && b[p] < a[p] && q in a && a[q] < b[q]
    ensures 0 <= Sum(Gaps(a, b[q := b[q] - 1][p := b[p] + 1])) < Sum(Gaps(a, b))
  {
    CloserAt(a, b, q, b[q] - 1);
    CloserAt(a, b[q := b[q] - 1], p, b[p] + 1);
  }

  /** Exchange-stable implies globally optimal: any rival that spends the same is brought
      towards a, one exchanged unit at a time, and never gets dearer on the way. */
  lemma {:induction false} StableIsOptimal(cost: Cost, a: map<string, int>, b: map<string, int>,
                                           lo: map<string, int>, hi: map<string, int>)
    requires InBox(a, lo, hi) && InBox(b, lo, hi) && Convex(cost, lo, hi) && Stable(cost, a, lo, hi)
    requires Sum(b) == Sum(a)
    ensures TotalCost(cost, a) <= TotalCost(cost, b)
    decreases Sum(Gaps(a, b))
  {
    if a != b {
      var p := KeyBelow(a, b);
      var q := KeyBelow(b, a);
      ExchangePays(cost, a, b, lo, hi, p, q);
      SwapTotals(cost, b, q, p);
      CloserBySwap(a, b, p, q);
      var b' := b[q := b[q] - 1][p := b[p] + 1];
      StableIsOptimal(cost, a, b', lo, hi);
    }
  }

  /** When no unit ever hurts, a stable vector also beats those that spend less. */
  lemma {:induction false} StableBeatsCheaper(cost: Cost, a: map<string, int>, b: map<string, int>,
                                              lo: map<string, int>, hi: map<string, int>)
    requires InBox(a, lo, hi) && InBox(b, lo, hi) && Convex(cost, lo, hi) && Stable(cost, a, lo, hi)
    requires forall k, n :: k in a && lo[k] <= n < hi[k] ==> Marginal(cost, k, n) <= 0.0
    requires Sum(b) <= Sum(a)
    ensures TotalCost(cost, a) <= TotalCost(cost, b)
    decreases Sum(a) - Sum(b)
  {
    if Sum(b) == Sum(a) {
      StableIsOptimal(cost, a, b, lo, hi);
    } else {
      var p := KeyBelow(a, b);
      SetCost(cost, b, p, b[p] + 1);
      SumSet(b, p, b[p] + 1);
      assert Marginal(cost, p, b[p]) <= 0.0;
      var b' := b[p := b[p] + 1];
      assert InBox(b', lo, hi);
      StableBeatsCheaper(cost, a, b', lo, hi);
    }
  }

  ghost predicate Optimal(cost: Cost, a: map<string, int>, lo: map<string, int>, hi: map<string, int>) {
    && InBox(a, lo, hi)
    && forall b :: InBox(b, lo, hi) && Sum(b) == Sum(a) ==> TotalCost(cost, a) <= TotalCost(cost, b)
  }

  /** Both directions: the local test decides global optimality. */
  lemma OptimalIffStable(cost: Cost, a: map<string, int>, lo: map<string, int>, hi: map<string, int>)
    requires InBox(a, lo, hi) && Convex(cost, lo, hi)
    ensures Optimal(cost, a, lo, hi) <==> Stable(cost, a, lo, hi)
  {
    if Stable(cost, a, lo, hi) {
      forall b | InBox(b, lo, hi) && Sum(b) == Sum(a)
        ensures TotalCost(cost, a) <= TotalCost(cost, b)
      {
        StableIsOptimal(cost, a, b, lo, hi);
      }
    }
    if Optimal(cost, a, lo, hi) {
      forall p, q | p in a && q in a && lo[p] < a[p] && a[q] < hi[q]
        ensures Marginal(cost, p, a[p] - 1) <= Marginal(cost, q, a[q])
      {
        OptimalNoSwap(cost, a, lo, hi, p, q);
      }
    }
  }

  lemma OptimalNoSwap(cost: Cost, a: map<string, int>, lo: map<string, int>, hi: map<string, int>, p: string, q: string)
    requires InBox(a, lo, hi) && Convex(cost, lo, hi) && Optimal(cost, a, lo, hi)
    requires p in a && q in a && lo[p] < a[p] && a[q] < hi[q]
    ensures Marginal(cost, p, a[p] - 1) <= Marginal(cost, q, a[q])
  {
    if p != q {
      var c := a[p := a[p] - 1];
      var b := c[q := a[q] + 1];
      assert InBox(b, lo, hi);
      SwapTotals(cost, a, p, q);
      assert TotalCost(cost, a) <= TotalCost(cost, b);
    }
  }

  lemma SwapTotals(cost: Cost, a: map<string, int>, p: string, q: string)
    requires p in a && q in a && p != q
    ensures var b := a[p := a[p] - 1][q := a[q] + 1];
      && Sum(b) == Sum(a)
      && TotalCost(cost, b) == TotalCost(cost, a) - Marginal(cost, p, a[p] - 1) + Marginal(cost, q, a[q])
  {
    var c := a[p := a[p] - 1];
    SumSet(a, p, a[p] - 1);
    SumSet(c, q, a[q] + 1);
    SetCost(cost, a, p, a[p] - 1);
    SetCost(cost, c, q, a[q] + 1);
  }

  /** Adding the cheapest admissible unit keeps stability. */
  lemma RaiseKeepsStable(cost: Cost, a: map<string, int>, lo: map<string, int>, hi: map<string, int>, m: string)
    requires InBox(a, lo, hi) && Convex(cost, lo, hi) && Stable(cost, a, lo, hi)
    requires m in a && a[m] < hi[m]
    requires forall q :: q in a && a[q] < hi[q] ==> Marginal(cost, m, a[m]) <= Marginal(cost, q, a[q])
    ensures InBox(a[m := a[m] + 1], lo, hi) && Stable(cost, a[m := a[m] + 1], lo, hi)
  {
  }

  /** Taking back the dearest unit keeps stability. */
  lemma LowerKeepsStable(cost: Cost, a: map<string, int>, lo: map<string, int>, hi: map<string, int>, m: string)
    requires InBox(a, lo, hi) && Convex(cost, lo, hi) && Stable(cost, a, lo, hi)
    requires m in a && lo[m] < a[m]
    requires forall p :: p in a && lo[p] < a[p] ==> Marginal(cost, p, a[p] - 1) <= Marginal(cost, m, a[m] - 1)
    ensures InBox(a[m := a[m] - 1], lo, hi) && Stable(cost, a[m := a[m] - 1], lo, hi)
  {
  }
}
