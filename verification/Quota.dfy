/** The quota property of largest_remainder_rounding, and its agreement with round_bounded. */
module Quota {
  import opened Prelude
  import opened Dicts
  import opened Separable
  import opened LargestRemainder
  import Rounding

  /** raw is a continuous allocation within the bounds that spends exactly the target. */
  ghost predicate Exact(raw: map<string, real>, lo: map<string, int>, hi: map<string, int>, target: int) {
    && raw.Keys == lo.Keys == hi.Keys
    && (forall k :: k in raw ==> lo[k] as real <= raw[k] <= hi[k] as real)
    && SumReal(raw) == target as real
  }

  ghost function Fractions(raw: map<string, real>): map<string, real> {
    map k | k in raw :: Fraction(raw[k])
  }

  ghost predicate Falling(order: seq<string>, m: map<string, real>)
    requires forall k :: k in order ==> k in m
  {
    forall i, j :: 0 <= i < j < |order| ==> m[order[i]] >= m[order[j]]
  }

  ghost function SumAlong(order: seq<string>, m: map<string, real>): real
    requires forall k :: k in order ==> k in m
  {
    if order == [] then 0.0 else m[order[0]] + SumAlong(order[1..], m)
  }

  lemma {:induction false} SumAlongOrder(order: seq<string>, m: map<string, real>)
    requires |order| == |m| && (forall k :: k in order <==> k in m)
    requires Distinct(order)
    ensures SumAlong(order, m) == SumReal(m)
  {
    if order != [] {
      var k, rest := order[0], order[1..];
      var m' := m - {k};
      assert m'.Keys == m.Keys - {k};
      assert |m'| == |m| - 1;
      forall j ensures j in rest <==> j in m' {
        if j in m' {
          assert j in order;
        }
      }
      SumAlongOrder(rest, m');
      SumRealSplit(m, k);
      SameAlong(rest, m, m');
    }
  }

  lemma {:induction false} SameAlong(order: seq<string>, m: map<string, real>, m': map<string, real>)
    requires forall k :: k in order ==> k in m && k in m' && m[k] == m'[k]
    ensures SumAlong(order, m) == SumAlong(order, m')
  {
    if order != [] {
      assert forall k :: k in order[1..] ==> k in order;
      SameAlong(order[1..], m, m');
    }
  }

  /** In an order of falling values below one that add up to more than r - 1, the first r
      are positive. */
  lemma {:induction false} FirstOnesPositive(order: seq<string>, m: map<string, real>, r: nat)
    requires forall k :: k in order ==> k in m && 0.0 <= m[k] < 1.0
    requires Falling(order, m)
    requires SumAlong(order, m) > r as real - 1.0
    ensures r <= |order| && forall i :: 0 <= i < r ==> m[order[i]] > 0.0
  {
    if r > 0 {
      if order == [] || m[order[0]] == 0.0 {
        assert order != [] ==> forall k :: k in order ==> m[k] == 0.0 by {
          forall k | k in order ensures order != [] ==> m[k] == 0.0 {
            var i :| 0 <= i < |order| && order[i] == k;
            assert m[order[0]] >= m[order[i]];
          }
        }
        ZeroAlong(order, m);
      } else {
        var rest := order[1..];
        assert forall k :: k in rest ==> k in order;
        FirstOnesPositive(rest, m, r - 1);
        forall i | 0 <= i < r ensures m[order[i]] > 0.0 {
          assert i > 0 ==> order[i] == rest[i - 1];
        }
      }
    }
  }

  lemma {:induction false} ZeroAlong(order: seq<string>, m: map<string, real>)
    requires forall k :: k in order ==> k in m && m[k] == 0.0
    ensures SumAlong(order, m) == 0.0
  {
    if order != [] {
      assert forall k :: k in order[1..] ==> k in order;
      ZeroAlong(order[1..], m);
    }
  }

  /** When the first r keys have room, one pass deals one unit to each of them and stops. */
  lemma {:induction false} DealFirst(order: seq<string>, out: map<string, int>, hi: map<string, int>, r: nat)
    requires out.Keys == hi.Keys && (forall k :: k in order ==> k in out)
    requires Distinct(order)
    requires r <= |order| && forall i :: 0 <= i < r ==> out[order[i]] < hi[order[i]]
    ensures var d := DealOnce(order, out, hi, r);
      && d.1 == 0
      && (forall k :: k in out ==> d.0[k] == out[k] + if k in order[..r] then 1 else 0)
  {
    hide Distinct;
    hide DealOnce;
    if r == 0 {
      DealNothing(order, out, hi);
    } else {
      var key, rest := order[0], order[1..];
      var next := out[key := out[key] + 1];
      DistinctTail(order);
      DealHead(order, out, hi, r);
      forall i | 0 <= i < r - 1 ensures next[rest[i]] < hi[rest[i]] {
        assert rest[i] == order[i + 1] && rest[i] in rest;
      }
      DealFirst(rest, next, hi, r - 1);
      forall k | k in out ensures (k in order[..r]) == (k == key || k in rest[..r - 1]) {
        assert order[..r] == [key] + rest[..r - 1];
      }
      assert forall k :: k in rest[..r - 1] ==> k in rest;
    }
  }

  lemma {:induction false} DealNothing(order: seq<string>, out: map<string, int>, hi: map<string, int>)
    requires out.Keys == hi.Keys && forall k :: k in order ==> k in out
    ensures DealOnce(order, out, hi, 0) == (out, 0)
  {
  }

  lemma DealHead(order: seq<string>, out: map<string, int>, hi: map<string, int>, r: nat)
    requires out.Keys == hi.Keys && (forall k :: k in order ==> k in out) && order != [] && r > 0
    requires out[order[0]] < hi[order[0]]
    ensures forall k :: k in order[1..] ==> k in order
    ensures DealOnce(order, out, hi, r) == DealOnce(order[1..], out[order[0] := out[order[0]] + 1], hi, r - 1)
  {
  }

  lemma DistinctTail(order: seq<string>)
    requires Distinct(order) && order != []
    ensures Distinct(order[1..]) && order[0] !in order[1..]
    ensures forall k :: k in order[1..] ==> k in order
  {
  }

  lemma FloorSum(raw: map<string, real>, lo: map<string, int>, hi: map<string, int>, target: int)
    requires Exact(raw, lo, hi, target) && Rounding.Bounds(raw, lo, hi)
    ensures forall k :: k in raw ==> Floors(raw, lo, hi)[k] == raw[k].Floor
    ensures SumReal(Fractions(raw)) == (target - Sum(Floors(raw, lo, hi))) as real
    ensures target >= Sum(Floors(raw, lo, hi))
  {
    var floors := Floors(raw, lo, hi);
    forall k | k in raw ensures floors[k] == raw[k].Floor {
      assert lo[k] <= raw[k].Floor <= hi[k];
    }
    var reals := map k | k in raw :: floors[k] as real;
    SumAsReal(floors, reals);
    SumRealParts(raw, reals, Fractions(raw));
    var zeros := map k | k in raw :: 0.0;
    SumRealLeq(zeros, Fractions(raw));
    ZeroSum(zeros);
  }

  /** The keys that are rounded up: the first ones in the order of the fractions. */
  ghost function RoundedUp(raw: map<string, real>, lo: map<string, int>, hi: map<string, int>, target: int): seq<string>
    requires Rounding.Bounds(raw, lo, hi)
  {
    var order, r := SortBy(Priority(raw)), target - Sum(Floors(raw, lo, hi));
    if 0 <= r <= |order| then order[..r] else order
  }

  /** The units to deal are fewer than the keys with a positive fraction, which come first
      and all have room. */
  lemma UnitsFindRoom(raw: map<string, real>, lo: map<string, int>, hi: map<string, int>, target: int)
    requires Exact(raw, lo, hi, target) && Rounding.Bounds(raw, lo, hi)
    ensures var order, floors := SortBy(Priority(raw)), Floors(raw, lo, hi);
      var r := target - Sum(floors);
      && 0 <= r <= |order|
      && (forall i :: 0 <= i < r ==> Fraction(raw[order[i]]) > 0.0 && floors[order[i]] < hi[order[i]])
  {
    hide Floors;
    hide SortBy;
    hide IsSortedBy;
    hide Distinct;
    hide Falling;
    var order, floors, fractions := SortBy(Priority(raw)), Floors(raw, lo, hi), Fractions(raw);
    var r: int := target - Sum(floors);
    FloorSum(raw, lo, hi, target);
    OrderFalls(raw, order);
    SumAlongOrder(order, fractions);
    FirstOnesPositive(order, fractions, r);
    forall i | 0 <= i < r ensures Fraction(raw[order[i]]) > 0.0 && floors[order[i]] < hi[order[i]] {
      assert fractions[order[i]] > 0.0 && order[i] in raw;
    }
  }

  /** Under an exact raw allocation one pass suffices: some keys are rounded up to the
      ceiling, the rest down to the floor, and the sum is the target. */
  lemma RoundIsFloorOrCeiling(raw: map<string, real>, lo: map<string, int>, hi: map<string, int>, target: int)
    requires Exact(raw, lo, hi, target) && Rounding.Bounds(raw, lo, hi)
    ensures var out, up := Round(raw, lo, hi, target), RoundedUp(raw, lo, hi, target);
      && Sum(out) == target
      && (forall k :: k in raw ==> out[k] == raw[k].Floor + if k in up then 1 else 0)
      && (forall k :: k in up ==> k in raw && Fraction(raw[k]) > 0.0)
  {
    hide SortBy;
    hide IsSortedBy;
    hide Distinct;
    hide Falling;
    hide Deal;
    hide DealOnce;
    hide Floors;
    var order, floors := SortBy(Priority(raw)), Floors(raw, lo, hi);
    var r: int := target - Sum(floors);
    UnitsFindRoom(raw, lo, hi, target);
    FloorSum(raw, lo, hi, target);
    OrderFalls(raw, order);
    DealFirst(order, floors, hi, r);
    OnePassEnough(order, floors, lo, hi, r);
    RoundReaches(raw, lo, hi, target);
    ExactFits(raw, lo, hi, target);
  }

  /** Whatever is rounded up has at least the fraction of whatever is not. */
  lemma LargerFractionsGoUp(raw: map<string, real>, lo: map<string, int>, hi: map<string, int>, target: int,
                            p: string, q: string)
    requires Exact(raw, lo, hi, target) && Rounding.Bounds(raw, lo, hi)
    requires p in RoundedUp(raw, lo, hi, target) && q in raw && q !in RoundedUp(raw, lo, hi, target)
    ensures p in raw && Fraction(raw[p]) >= Fraction(raw[q])
  {
    hide SortBy;
    hide IsSortedBy;
    hide Distinct;
    hide Falling;
    hide Floors;
    var order := SortBy(Priority(raw));
    var r: int := target - Sum(Floors(raw, lo, hi));
    UnitsFindRoom(raw, lo, hi, target);
    OrderFalls(raw, order);
    var i :| 0 <= i < r && order[i] == p;
    assert forall j :: 0 <= j < r ==> order[..r][j] == order[j];
    assert q in order;
    var j :| 0 <= j < |order| && order[j] == q;
    assert q !in order[..r];
    assert r <= j;
    FallingAt(order, Fractions(raw), i, j);
  }

  lemma FallingAt(order: seq<string>, m: map<string, real>, i: nat, j: nat)
    requires (forall k :: k in order ==> k in m) && Falling(order, m) && i < j < |order|
    ensures m[order[i]] >= m[order[j]]
  {
  }

  lemma OrderFalls(raw: map<string, real>, order: seq<string>)
    requires IsSortedBy(Priority(raw), order)
    ensures |order| == |Fractions(raw)|
    ensures forall k :: k in order <==> k in raw
    ensures Distinct(order)
    ensures Falling(order, Fractions(raw))
  {
    hide StrLt;
    var score := Priority(raw);
    assert score.Keys == raw.Keys == Fractions(raw).Keys;
    forall i, j | 0 <= i < j < |order|
      ensures Fractions(raw)[order[i]] >= Fractions(raw)[order[j]]
    {
      assert Leads(score, order[i], order[j]);
    }
  }

  lemma {:induction false} OnePassEnough(order: seq<string>, out: map<string, int>, lo: map<string, int>,
                                         hi: map<string, int>, r: nat)
    requires InBox(out, lo, hi) && (forall k :: k in order ==> k in out)
    requires r <= |order| && (forall i :: 0 <= i < r ==> out[order[i]] < hi[order[i]])
    requires DealOnce(order, out, hi, r).1 == 0
    ensures Deal(order, out, lo, hi, r) == DealOnce(order, out, hi, r).0
  {
    if r > 0 {
      assert out[order[0]] < hi[order[0]];
      DealOnceBalances(order, out, lo, hi, r);
      assert Deal(order, DealOnce(order, out, hi, r).0, lo, hi, 0) == DealOnce(order, out, hi, r).0;
    }
  }

  lemma {:induction false} ExactFits(raw: map<string, real>, lo: map<string, int>, hi: map<string, int>, target: int)
    requires Exact(raw, lo, hi, target)
    ensures Sum(lo) <= target <= Sum(hi)
  {
    var low, high := map k | k in raw :: lo[k] as real, map k | k in raw :: hi[k] as real;
    SumAsReal(lo, low);
    SumAsReal(hi, high);
    SumRealLeq(low, raw);
    SumRealLeq(raw, high);
  }

  lemma QuotaStable(raw: map<string, real>, lo: map<string, int>, hi: map<string, int>, target: int)
    requires Exact(raw, lo, hi, target) && Rounding.Bounds(raw, lo, hi)
    requires InBox(Round(raw, lo, hi, target), lo, hi)
    ensures Stable(Rounding.SquaredError(raw), Round(raw, lo, hi, target), lo, hi)
  {
    hide Round;
    hide RoundedUp;
    hide Marginal;
    hide Rounding.SquaredError;
    hide Exact;
    hide Fraction;
    RoundIsFloorOrCeiling(raw, lo, hi, target);
    var out, up := Round(raw, lo, hi, target), RoundedUp(raw, lo, hi, target);
    forall p, q | p in out && q in out && lo[p] < out[p] && out[q] < hi[q]
      ensures Marginal(Rounding.SquaredError(raw), p, out[p] - 1) <= Marginal(Rounding.SquaredError(raw), q, out[q])
    {
      if p in up && q !in up {
        LargerFractionsGoUp(raw, lo, hi, target, p, q);
      }
      FlooredSwap(raw, out, up, p, q);
    }
  }

  lemma FlooredSwap(raw: map<string, real>, out: map<string, int>, up: seq<string>, p: string, q: string)
    requires p in raw && q in raw && p in out && q in out
    requires out[p] == raw[p].Floor + (if p in up then 1 else 0) && out[q] == raw[q].Floor + (if q in up then 1 else 0)
    requires p in up && q !in up ==> Fraction(raw[p]) >= Fraction(raw[q])
    ensures Marginal(Rounding.SquaredError(raw), p, out[p] - 1) <= Marginal(Rounding.SquaredError(raw), q, out[q])
  {
    hide Marginal;
    hide Rounding.SquaredError;
    Rounding.ErrorMarginal(raw, p, out[p] - 1);
    Rounding.ErrorMarginal(raw, q, out[q]);
  }

  /** On an exact raw allocation the two roundings of the repository, this one and the
      strategies of round_bounded, make the same squared error, and no integer vector with
      the same sum within the bounds makes a smaller one. */
  lemma {:induction false} RoundingsAgree(raw: map<string, real>, lo: map<string, int>, hi: map<string, int>,
                                          target: int, draws: map<string, real>,
                       b: map<string, int>)
    requires Exact(raw, lo, hi, target) && Rounding.Bounds(raw, lo, hi) && raw.Keys <= draws.Keys
    requires InBox(b, lo, hi) && Sum(b) == target
    ensures Rounding.Error(raw, Round(raw, lo, hi, target)) <= Rounding.Error(raw, b)
    ensures Rounding.Error(raw, Round(raw, lo, hi, target)) ==
      Rounding.Error(raw, Rounding.Round(Rounding.LargestRemainder, raw, lo, hi, target, draws))
  {
    hide Round;
    hide RoundedUp;
    hide Stable;
    hide Convex;
    hide Rounding.Round;
    hide Rounding.Rounded;
    hide Rounding.SquaredError;
    hide TotalCost;
    hide Exact;
    var out := Round(raw, lo, hi, target);
    var other := Rounding.Round(Rounding.LargestRemainder, raw, lo, hi, target, draws);
    RoundIsFloorOrCeiling(raw, lo, hi, target);
    ExactFits(raw, lo, hi, target);
    QuotaStable(raw, lo, hi, target);
    Rounding.ErrorConvex(raw, lo, hi);
    Rounding.InOrderReaches(Rounding.LargestRemainder, raw, lo, hi, target, draws);
    Rounding.RoundOptimal(Rounding.LargestRemainder, raw, lo, hi, target, draws, out);
    StableIsOptimal(Rounding.SquaredError(raw), out, b, lo, hi);
    StableIsOptimal(Rounding.SquaredError(raw), out, other, lo, hi);
  }
}
