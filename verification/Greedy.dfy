/** Spending a number of units one at a time, each where it is cheapest: the solver loop of
    the allocator, for any separable convex cost. */
module Greedy {
  import opened Prelude
  import opened Dicts
  import opened Separable

  /** The bounds are in order and the cost is convex between them. */
  ghost predicate Instance(cost: Cost, lo: map<string, int>, hi: map<string, int>) {
    && InBox(lo, lo, hi)
    && Convex(cost, lo, hi)
  }

  /** The entries of the heap: every key below its cap, scored by its next unit's cost. */
  ghost function Offers(cost: Cost, hi: map<string, int>, a: map<string, int>): map<string, real>
    requires a.Keys == hi.Keys
  {
    map k | k in a && a[k] < hi[k] :: Marginal(cost, k, a[k])
  }

  ghost function Raise(cost: Cost, hi: map<string, int>, a: map<string, int>): (b: map<string, int>)
    requires a.Keys == hi.Keys
    ensures b.Keys == hi.Keys
  {
    var offers := Offers(cost, hi, a);
    if offers == map[] then a
    else
      var k := First(offers);
      a[k := a[k] + 1]
  }

  /** The vector after t units. No order of the keys enters its definition. */
  ghost function Spend(cost: Cost, lo: map<string, int>, hi: map<string, int>, t: nat): (a: map<string, int>)
    requires lo.Keys == hi.Keys
    ensures a.Keys == lo.Keys
  {
    if t == 0 then lo else Raise(cost, hi, Spend(cost, lo, hi, t - 1))
  }

  /** One unit: it goes to a cheapest key with room, and with no key left the caps are full. */
  lemma {:induction false} RaiseStep(cost: Cost, lo: map<string, int>, hi: map<string, int>, a: map<string, int>)
    requires Instance(cost, lo, hi) && InBox(a, lo, hi) && Stable(cost, a, lo, hi)
    ensures InBox(Raise(cost, hi, a), lo, hi) && Stable(cost, Raise(cost, hi, a), lo, hi)
    ensures Sum(Raise(cost, hi, a)) == Min(Sum(a) + 1, Sum(hi))
    ensures Offers(cost, hi, a) == map[] <==> a == hi
    ensures Offers(cost, hi, a) == map[] <==> Sum(a) == Sum(hi)
  {
    hide Stable;
    hide Convex;
    var offers := Offers(cost, hi, a);
    SumLeq(a, hi);
    if offers != map[] {
      var m := First(offers);
      forall q | q in a && a[q] < hi[q]
        ensures Marginal(cost, m, a[m]) <= Marginal(cost, q, a[q])
      {
        assert q in offers && Leads(offers, m, q);
      }
      RaiseKeepsStable(cost, a, lo, hi, m);
      SumSet(a, m, a[m] + 1);
      assert Raise(cost, hi, a) == a[m := a[m] + 1];
      assert a[m] != hi[m] && a != hi;
    } else {
      forall k | k in a ensures a[k] == hi[k] {
        assert k !in offers;
      }
      assert a == hi;
    }
  }

  lemma LowStable(cost: Cost, lo: map<string, int>, hi: map<string, int>)
    requires InBox(lo, lo, hi)
    ensures Stable(cost, lo, lo, hi)
  {
  }

  /** The result stays in the box, is exchange-stable, and spends every unit that fits. */
  lemma {:induction false} SpendInvariant(cost: Cost, lo: map<string, int>, hi: map<string, int>, t: nat)
    requires Instance(cost, lo, hi)
    ensures InBox(Spend(cost, lo, hi, t), lo, hi)
    ensures Stable(cost, Spend(cost, lo, hi, t), lo, hi)
    ensures Sum(Spend(cost, lo, hi, t)) == Min(Sum(lo) + t, Sum(hi))
  {
    hide Raise;
    hide Stable;
    hide Convex;
    hide Offers;
    SumLeq(lo, hi);
    if t == 0 {
      LowStable(cost, lo, hi);
    } else {
      SpendInvariant(cost, lo, hi, t - 1);
      RaiseStep(cost, lo, hi, Spend(cost, lo, hi, t - 1));
    }
  }

  /** Global optimality: when no unit ever hurts, no vector in the box that spends at most
      as much costs less. */
  lemma {:induction false} SpendOptimal(cost: Cost, lo: map<string, int>, hi: map<string, int>, t: nat,
                                        b: map<string, int>)
    requires Instance(cost, lo, hi)
    requires forall k, n :: k in lo && lo[k] <= n < hi[k] ==> Marginal(cost, k, n) <= 0.0
    requires InBox(b, lo, hi) && Sum(b) <= Sum(lo) + t
    ensures TotalCost(cost, Spend(cost, lo, hi, t)) <= TotalCost(cost, b)
  {
    hide Spend;
    hide Stable;
    hide Convex;
    SpendInvariant(cost, lo, hi, t);
    SumLeq(b, hi);
    StableBeatsCheaper(cost, Spend(cost, lo, hi, t), b, lo, hi);
  }

  /** One more unit raises exactly one key by one and lowers none. */
  lemma SpendOneMore(cost: Cost, lo: map<string, int>, hi: map<string, int>, t: nat) returns (k: string)
    requires Instance(cost, lo, hi) && Sum(lo) + t < Sum(hi)
    ensures k in lo && Spend(cost, lo, hi, t)[k] < hi[k]
    ensures Spend(cost, lo, hi, t + 1) == Spend(cost, lo, hi, t)[k := Spend(cost, lo, hi, t)[k] + 1]
  {
    hide Stable;
    hide Convex;
    hide Raise;
    hide Offers;
    SpendInvariant(cost, lo, hi, t);
    RaiseStep(cost, lo, hi, Spend(cost, lo, hi, t));
    k := RaisedKey(cost, hi, Spend(cost, lo, hi, t));
  }

  lemma RaisedKey(cost: Cost, hi: map<string, int>, a: map<string, int>) returns (k: string)
    requires a.Keys == hi.Keys && Offers(cost, hi, a) != map[]
    ensures k in a && a[k] < hi[k] && Raise(cost, hi, a) == a[k := a[k] + 1]
  {
    hide IsFirst;
    k := First(Offers(cost, hi, a));
  }

  /** After a pop, at most the popped key has to be pushed again. */
  lemma OffersAfterRaise(cost: Cost, hi: map<string, int>, a: map<string, int>, k: string)
    requires a.Keys == hi.Keys && k in Offers(cost, hi, a)
    ensures var b := a[k := a[k] + 1];
      var rest := Offers(cost, hi, a) - {k};
      Offers(cost, hi, b) == if b[k] < hi[k] then rest[k := Marginal(cost, k, b[k])] else rest
  {
  }

  /** heapify: an entry for every key below its cap. */
  method FillHeap(gain: (string, int) -> real, ghost cost: Cost, hi: map<string, int>, a: map<string, int>)
    returns (heap: map<string, real>)
    requires a.Keys == hi.Keys
    requires forall k :: k in a ==> gain(k, a[k]) == -Marginal(cost, k, a[k])
    ensures heap == Offers(cost, hi, a)
  {
    hide Increasing;
    hide SortedKeys;
    hide Marginal;
    heap := map[];
    var order := SortedKeys(a.Keys);
    for i := 0 to |order|
      invariant forall k :: k in heap <==> k in order[..i] && a[k] < hi[k]
      invariant forall k :: k in heap ==> heap[k] == -gain(k, a[k])
    {
      var key := order[i];
      IncreasingDistinct(order);
      if a[key] < hi[key] {
        heap := heap[key := -gain(key, a[key])];
      }
    }
    assert order[..|order|] == order;
  }

  /** One turn of the solver loop. heapq is used through what it promises: pop takes the
      entry that is least as the pair (negated gain, key). */
  method PopRaisePush(gain: (string, int) -> real, ghost cost: Cost, hi: map<string, int>, a: map<string, int>,
                      heap: map<string, real>)
    returns (b: map<string, int>, rest: map<string, real>)
    requires a.Keys == hi.Keys && heap == Offers(cost, hi, a) && heap != map[]
    requires forall k :: k in a ==> gain(k, a[k] + 1) == -Marginal(cost, k, a[k] + 1)
    ensures b == Raise(cost, hi, a)
    ensures rest == Offers(cost, hi, b)
  {
    hide IsFirst;
    hide Marginal;
    var key := First(heap);
    OffersAfterRaise(cost, hi, a, key);
    rest := heap - {key};
    b := a[key := a[key] + 1];
    if b[key] < hi[key] {
      assert key !in rest;
      rest := rest[key := -gain(key, b[key])];
    }
  }

  /** While the caps are not spent, the heap offers something, at or above the lower bounds. */
  lemma {:induction false} StillRoom(cost: Cost, lo: map<string, int>, hi: map<string, int>, t: nat)
    requires Instance(cost, lo, hi) && Sum(lo) + t < Sum(hi)
    ensures Offers(cost, hi, Spend(cost, lo, hi, t)) != map[]
    ensures forall k :: k in lo ==> lo[k] <= Spend(cost, lo, hi, t)[k]
  {
    hide Stable;
    hide Convex;
    hide Offers;
    hide Raise;
    hide Spend;
    SpendInvariant(cost, lo, hi, t);
    RaiseStep(cost, lo, hi, Spend(cost, lo, hi, t));
  }

  /** The solver loop. At every turn the heap holds exactly the keys below their cap, each
      once and with its current gain; hence it is never empty while units that fit remain. */
  method Solve(gain: (string, int) -> real, ghost cost: Cost, lo: map<string, int>, hi: map<string, int>, units: nat)
    returns (a: map<string, int>)
    requires Instance(cost, lo, hi)
    requires forall k, n :: k in lo && lo[k] <= n ==> gain(k, n) == -Marginal(cost, k, n)
    requires Sum(lo) + units <= Sum(hi)
    ensures a == Spend(cost, lo, hi, units)
  {
    hide Stable;
    hide Convex;
    hide Raise;
    hide Marginal;
    hide Offers;
    a := lo;
    var heap := FillHeap(gain, cost, hi, a);
    for i := 0 to units
      invariant a == Spend(cost, lo, hi, i)
      invariant heap == Offers(cost, hi, a)
    {
      StillRoom(cost, lo, hi, i);
      a, heap := PopRaisePush(gain, cost, hi, a, heap);
    }
  }
}
