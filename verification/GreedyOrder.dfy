/** What the unit steps end with, without the steps: the one vector with its sum in which every
    unit that was placed goes before every unit that was not, by cost and then by name. */
module GreedyOrder {
  import opened Prelude
  import opened Dicts
  import opened Separable
  import opened Greedy

  /** Equal costs are told apart by the names, in either order. */
  predicate Before(reversed: bool, p: string, q: string) {
    if reversed then StrLt(q, p) else StrLt(p, q)
  }

  /** Unit i of p goes before unit j of q. */
  ghost predicate Sooner(reversed: bool, cost: Cost, p: string, i: int, q: string, j: int) {
    var here, there := Marginal(cost, p, i), Marginal(cost, q, j);
    here < there || (here == there && Before(reversed, p, q))
  }

  /** The last unit of each key goes before the next unit of every other. */
  ghost predicate Settled(reversed: bool, cost: Cost, lo: map<string, int>, hi: map<string, int>, a: map<string, int>) {
    && InBox(a, lo, hi)
    && forall p, q :: p in a && q in a && p != q && lo[p] < a[p] && a[q] < hi[q] ==>
      Sooner(reversed, cost, p, a[p] - 1, q, a[q])
  }

  lemma PairSettled(reversed: bool, cost: Cost, lo: map<string, int>, hi: map<string, int>, a: map<string, int>,
                    p: string, q: string)
    requires Settled(reversed, cost, lo, hi, a) && p in a && q in a && p != q && lo[p] < a[p] && a[q] < hi[q]
    ensures Sooner(reversed, cost, p, a[p] - 1, q, a[q])
  {
    hide Sooner;
  }

  lemma {:induction false} OnlyOneBefore(reversed: bool, p: string, q: string)
    ensures !(Before(reversed, p, q) && Before(reversed, q, p))
  {
    hide StrLt;
    if StrLt(p, q) {
      StrLtAsymmetric(p, q);
    }
  }

  /** If one of them has more at some key, the other has more nowhere. */
  lemma NotBoth(reversed: bool, cost: Cost, lo: map<string, int>, hi: map<string, int>, a: map<string, int>,
                b: map<string, int>, p: string, q: string)
    requires Settled(reversed, cost, lo, hi, a) && Settled(reversed, cost, lo, hi, b) && Convex(cost, lo, hi)
    requires p in a && b[p] < a[p] && q in a
    ensures b[q] <= a[q]
  {
    hide Before;
    hide Marginal;
    OnlyOneBefore(reversed, p, q);
    if a[q] < b[q] {
      PairSettled(reversed, cost, lo, hi, a, p, q);
      PairSettled(reversed, cost, lo, hi, b, q, p);
    }
  }

  /** There is one such vector for each sum. */
  lemma {:induction false} SettledUnique(reversed: bool, cost: Cost, lo: map<string, int>, hi: map<string, int>,
                                         a: map<string, int>, b: map<string, int>)
    requires Settled(reversed, cost, lo, hi, a) && Settled(reversed, cost, lo, hi, b) && Convex(cost, lo, hi)
    requires Sum(a) == Sum(b)
    ensures a == b
  {
    hide Sooner;
    if a != b {
      var p := KeyBelow(a, b);
      var q := KeyBelow(b, a);
      NotBoth(reversed, cost, lo, hi, a, b, p, q);
    }
  }

  lemma DearerLater(reversed: bool, cost: Cost, lo: map<string, int>, hi: map<string, int>, p: string, i: int,
                    q: string, j: int)
    requires lo.Keys == hi.Keys && Convex(cost, lo, hi) && q in lo && lo[q] <= j && j + 1 < hi[q]
    requires Sooner(reversed, cost, p, i, q, j)
    ensures Sooner(reversed, cost, p, i, q, j + 1)
  {
    hide Marginal;
    hide Before;
    assert Marginal(cost, q, j) <= Marginal(cost, q, j + 1);
  }

  lemma SettledBox(reversed: bool, cost: Cost, lo: map<string, int>, hi: map<string, int>, a: map<string, int>)
    requires Settled(reversed, cost, lo, hi, a)
    ensures InBox(a, lo, hi)
  {
    hide Sooner;
  }

  lemma SettledByPairs(reversed: bool, cost: Cost, lo: map<string, int>, hi: map<string, int>, b: map<string, int>)
    requires InBox(b, lo, hi)
    requires forall p, q :: p in b && q in b && p != q && lo[p] < b[p] && b[q] < hi[q] ==>
      Sooner(reversed, cost, p, b[p] - 1, q, b[q])
    ensures Settled(reversed, cost, lo, hi, b)
  {
    hide Sooner;
  }

  lemma RaisedPair(reversed: bool, cost: Cost, lo: map<string, int>, hi: map<string, int>, a: map<string, int>,
                   k: string, p: string, q: string)
    requires Settled(reversed, cost, lo, hi, a) && Convex(cost, lo, hi) && k in a && p in a && q in a && p != q
    requires q != k && a[q] < hi[q] ==> Sooner(reversed, cost, k, a[k], q, a[q])
    ensures var b := a[k := a[k] + 1];
      lo[p] < b[p] && b[q] < hi[q] ==> Sooner(reversed, cost, p, b[p] - 1, q, b[q])
  {
    hide Sooner;
    hide Convex;
    var b := a[k := a[k] + 1];
    if p != k && lo[p] < b[p] && b[q] < hi[q] {
      PairSettled(reversed, cost, lo, hi, a, p, q);
      if q == k {
        DearerLater(reversed, cost, lo, hi, p, a[p] - 1, k, a[k]);
      }
    }
  }

  /** One unit at the key that goes first keeps it so. */
  lemma RaiseSettles(reversed: bool, cost: Cost, lo: map<string, int>, hi: map<string, int>, a: map<string, int>,
                     k: string)
    requires Settled(reversed, cost, lo, hi, a) && Convex(cost, lo, hi) && k in a && a[k] < hi[k]
    requires forall q :: q in a && q != k && a[q] < hi[q] ==> Sooner(reversed, cost, k, a[k], q, a[q])
    ensures Settled(reversed, cost, lo, hi, a[k := a[k] + 1])
  {
    hide Sooner;
    hide Convex;
    hide Settled;
    SettledBox(reversed, cost, lo, hi, a);
    var b := a[k := a[k] + 1];
    forall p, q | p in b && q in b && p != q && lo[p] < b[p] && b[q] < hi[q]
      ensures Sooner(reversed, cost, p, b[p] - 1, q, b[q])
    {
      RaisedPair(reversed, cost, lo, hi, a, k, p, q);
    }
    SettledByPairs(reversed, cost, lo, hi, b);
  }

  lemma CheaperSooner(reversed: bool, cost: Cost, lo: map<string, int>, hi: map<string, int>, p: string, i: int,
                      q: string, j: int)
    requires lo.Keys == hi.Keys && Convex(cost, lo, hi) && p in lo && lo[p] < i < hi[p]
    requires Sooner(reversed, cost, p, i, q, j)
    ensures Sooner(reversed, cost, p, i - 1, q, j)
  {
    hide Marginal;
    hide Before;
    assert Marginal(cost, p, i - 1) <= Marginal(cost, p, i);
  }

  lemma LoweredPair(reversed: bool, cost: Cost, lo: map<string, int>, hi: map<string, int>, a: map<string, int>,
                    k: string, p: string, q: string)
    requires Settled(reversed, cost, lo, hi, a) && Convex(cost, lo, hi) && k in a && p in a && q in a && p != q
    requires p != k && lo[p] < a[p] ==> Sooner(reversed, cost, p, a[p] - 1, k, a[k] - 1)
    ensures var b := a[k := a[k] - 1];
      lo[p] < b[p] && b[q] < hi[q] ==> Sooner(reversed, cost, p, b[p] - 1, q, b[q])
  {
    hide Sooner;
    hide Convex;
    var b := a[k := a[k] - 1];
    if q != k && lo[p] < b[p] && b[q] < hi[q] {
      PairSettled(reversed, cost, lo, hi, a, p, q);
      if p == k {
        CheaperSooner(reversed, cost, lo, hi, k, a[k] - 1, q, a[q]);
      }
    }
  }

  /** And so does taking back the unit that goes last. */
  lemma LowerSettles(reversed: bool, cost: Cost, lo: map<string, int>, hi: map<string, int>, a: map<string, int>,
                     k: string)
    requires Settled(reversed, cost, lo, hi, a) && Convex(cost, lo, hi) && k in a && lo[k] < a[k]
    requires forall p :: p in a && p != k && lo[p] < a[p] ==> Sooner(reversed, cost, p, a[p] - 1, k, a[k] - 1)
    ensures Settled(reversed, cost, lo, hi, a[k := a[k] - 1])
  {
    hide Sooner;
    hide Convex;
    hide Settled;
    SettledBox(reversed, cost, lo, hi, a);
    var b := a[k := a[k] - 1];
    forall p, q | p in b && q in b && p != q && lo[p] < b[p] && b[q] < hi[q]
      ensures Sooner(reversed, cost, p, b[p] - 1, q, b[q])
    {
      assert p != k ==> b[p] == a[p];
      LoweredPair(reversed, cost, lo, hi, a, k, p, q);
    }
    SettledByPairs(reversed, cost, lo, hi, b);
  }

  lemma LowSettled(cost: Cost, lo: map<string, int>, hi: map<string, int>)
    requires InBox(lo, lo, hi)
    ensures Settled(false, cost, lo, hi, lo)
  {
  }

  /** What the heap offers first goes before all else. */
  lemma FirstIsSoonest(cost: Cost, hi: map<string, int>, a: map<string, int>, q: string)
    requires a.Keys == hi.Keys && q in a && a[q] < hi[q] && Offers(cost, hi, a) != map[]
    ensures var k := First(Offers(cost, hi, a));
      k in a && a[k] < hi[k] && (q != k ==> Sooner(false, cost, k, a[k], q, a[q]))
  {
    hide StrLt;
    hide Marginal;
    var offers := Offers(cost, hi, a);
    assert q in offers && Leads(offers, First(offers), q);
  }

  lemma {:induction false} RaisedSettled(cost: Cost, lo: map<string, int>, hi: map<string, int>, a: map<string, int>)
    requires a.Keys == lo.Keys == hi.Keys && Settled(false, cost, lo, hi, a) && Convex(cost, lo, hi)
    ensures Settled(false, cost, lo, hi, Raise(cost, hi, a))
  {
    hide Convex;
    hide Sooner;
    hide Settled;
    hide IsFirst;
    hide Offers;
    if Offers(cost, hi, a) != map[] {
      var k := First(Offers(cost, hi, a));
      OfferedKey(cost, hi, a, k);
      forall q | q in a && q != k && a[q] < hi[q] ensures Sooner(false, cost, k, a[k], q, a[q]) {
        FirstIsSoonest(cost, hi, a, q);
      }
      RaiseSettles(false, cost, lo, hi, a, k);
    }
  }

  lemma OfferedKey(cost: Cost, hi: map<string, int>, a: map<string, int>, k: string)
    requires a.Keys == hi.Keys && k in Offers(cost, hi, a)
    ensures k in a && a[k] < hi[k]
  {
  }

  /** The solver loop. */
  lemma {:induction false} SpendSettled(cost: Cost, lo: map<string, int>, hi: map<string, int>, t: nat)
    requires Instance(cost, lo, hi)
    ensures Settled(false, cost, lo, hi, Spend(cost, lo, hi, t))
  {
    hide Convex;
    hide Sooner;
    hide Settled;
    hide Raise;
    if t == 0 {
      LowSettled(cost, lo, hi);
    } else {
      SpendSettled(cost, lo, hi, t - 1);
      RaisedSettled(cost, lo, hi, Spend(cost, lo, hi, t - 1));
    }
  }
}
