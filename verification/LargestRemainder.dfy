/** largest_remainder_rounding: deal the missing units in order of the fractional parts,
    round after round. */
module LargestRemainder {
  import opened Prelude
  import opened Dicts
  import opened Separable
  import Rounding

  function Fraction(x: real): (f: real)
    ensures 0.0 <= f < 1.0
  {
    x - x.Floor as real
  }

  /** The sort key: the larger fraction first. */
  function Priority(raw: map<string, real>): map<string, real> {
    map k | k in raw :: -Fraction(raw[k])
  }

  /** One pass over the order: each key with room takes one unit while units remain. */
  function DealOnce(order: seq<string>, out: map<string, int>, hi: map<string, int>,
                    remaining: nat): (r: (map<string, int>, nat))
    requires out.Keys == hi.Keys && forall k :: k in order ==> k in out
    ensures r.0.Keys == out.Keys && r.1 <= remaining
  {
    if order == [] || remaining == 0 then (out, remaining)
    else
      var key := order[0];
      if out[key] < hi[key] then DealOnce(order[1..], out[key := out[key] + 1], hi, remaining - 1)
      else DealOnce(order[1..], out, hi, remaining)
  }

  predicate AnyRoom(order: seq<string>, out: map<string, int>, hi: map<string, int>)
    requires out.Keys == hi.Keys && forall k :: k in order ==> k in out
  {
    exists i :: 0 <= i < |order| && out[order[i]] < hi[order[i]]
  }

  /** A pass keeps the box, accounts for every unit it deals, and deals at least one when
      some key has room. */
  lemma {:induction false} DealOnceBalances(order: seq<string>, out: map<string, int>, lo: map<string, int>,
                                            hi: map<string, int>, remaining: nat)
    requires InBox(out, lo, hi) && forall k :: k in order ==> k in out
    ensures var r := DealOnce(order, out, hi, remaining);
      && InBox(r.0, lo, hi)
      && Sum(r.0) + r.1 == Sum(out) + remaining
      && (remaining > 0 && AnyRoom(order, out, hi) ==> r.1 < remaining)
  {
    if order != [] && remaining > 0 {
      var key, rest := order[0], order[1..];
      assert forall k :: k in rest ==> k in order;
      if out[key] < hi[key] {
        SumSet(out, key, out[key] + 1);
        DealOnceBalances(rest, out[key := out[key] + 1], lo, hi, remaining - 1);
      } else {
        DealOnceBalances(rest, out, lo, hi, remaining);
        if AnyRoom(order, out, hi) {
          var i :| 0 <= i < |order| && out[order[i]] < hi[order[i]];
          assert rest[i - 1] == order[i];
        }
      }
    }
  }

  ghost function Deal(order: seq<string>, out: map<string, int>, lo: map<string, int>, hi: map<string, int>,
                      remaining: nat): (r: map<string, int>)
    requires InBox(out, lo, hi) && forall k :: k in order ==> k in out
    ensures InBox(r, lo, hi)
    decreases remaining
  {
    if remaining == 0 || !AnyRoom(order, out, hi) then out
    else
      DealOnceBalances(order, out, lo, hi, remaining);
      var pass := DealOnce(order, out, hi, remaining);
      Deal(order, pass.0, lo, hi, pass.1)
  }

  /** The loop ends with every unit dealt, or with every cap reached. */
  lemma {:induction false} DealReaches(order: seq<string>, out: map<string, int>, lo: map<string, int>,
                                       hi: map<string, int>, remaining: nat)
    requires InBox(out, lo, hi) && forall k :: k in order <==> k in out
    ensures Sum(Deal(order, out, lo, hi, remaining)) == Min(Sum(out) + remaining, Sum(hi))
    decreases remaining
  {
    hide DealOnce;
    hide Sum;
    SumLeq(out, hi);
    DealOnceBalances(order, out, lo, hi, remaining);
    if remaining > 0 {
      if AnyRoom(order, out, hi) {
        var pass := DealOnce(order, out, hi, remaining);
        DealReaches(order, pass.0, lo, hi, pass.1);
      } else {
        forall k | k in out ensures out[k] == hi[k] {
          assert k in order;
          var i :| 0 <= i < |order| && order[i] == k;
        }
        assert out == hi;
      }
    }
  }

  ghost function Floors(raw: map<string, real>, lo: map<string, int>, hi: map<string, int>): (out: map<string, int>)
    requires raw.Keys == lo.Keys == hi.Keys
    ensures out.Keys == raw.Keys && InBox(out, Rounding.Lows(lo, hi), hi)
    ensures Rounding.Bounds(raw, lo, hi) ==> InBox(out, lo, hi)
  {
    map k | k in raw :: Clamp(raw[k].Floor, lo[k], hi[k])
  }

  ghost function Round(raw: map<string, real>, lo: map<string, int>, hi: map<string, int>,
                       target: int): (out: map<string, int>)
    requires raw.Keys == lo.Keys == hi.Keys
    ensures InBox(out, Rounding.Lows(lo, hi), hi)
    ensures Rounding.Bounds(raw, lo, hi) ==> InBox(out, lo, hi)
  {
    var start := Floors(raw, lo, hi);
    Deal(SortBy(Priority(raw)), start, Rounding.Lows(lo, hi), hi, Max(target - Sum(start), 0))
  }

  /** For every input the result is within the bounds in force, and its sum is the larger of the
      clamped floors and what the caps allow of the target. */
  lemma {:induction false} RoundReaches(raw: map<string, real>, lo: map<string, int>, hi: map<string, int>, target: int)
    requires raw.Keys == lo.Keys == hi.Keys
    ensures InBox(Round(raw, lo, hi, target), Rounding.Lows(lo, hi), hi)
    ensures Sum(Round(raw, lo, hi, target)) == Max(Sum(Floors(raw, lo, hi)), Min(target, Sum(hi)))
  {
    hide Deal;
    hide SortBy;
    hide IsSortedBy;
    hide Floors;
    var start := Floors(raw, lo, hi);
    DealReaches(SortBy(Priority(raw)), start, Rounding.Lows(lo, hi), hi, Max(target - Sum(start), 0));
    SumLeq(start, hi);
  }

  /** The inner loop over the eligible keys of one pass. */
  method DealPass(order: seq<string>, start: map<string, int>, hi: map<string, int>, units: nat)
    returns (out: map<string, int>, remaining: nat)
    requires start.Keys == hi.Keys && forall k :: k in order ==> k in start
    ensures (out, remaining) == DealOnce(order, start, hi, units)
  {
    out, remaining := start, units;
    for i := 0 to |order|
      invariant out.Keys == hi.Keys
      invariant DealOnce(order[i..], out, hi, remaining) == DealOnce(order, start, hi, units)
    {
      if remaining == 0 {
        return;
      }
      var key := order[i];
      assert order[i..][0] == key && order[i..][1..] == order[i + 1..];
      assert key in order;
      if out[key] < hi[key] {
        out := out[key := out[key] + 1];
        remaining := remaining - 1;
      }
    }
  }

  method LargestRemainderRounding(raw: map<string, real>, lo: map<string, int>, hi: map<string, int>, target: int)
    returns (out: map<string, int>)
    requires raw.Keys == lo.Keys == hi.Keys
    ensures out == Round(raw, lo, hi, target)
  {
    hide DealOnce;
    hide SortBy;
    hide IsSortedBy;
    out := map k | k in raw :: Clamp(raw[k].Floor, lo[k], hi[k]);
    var total := SumValues(out);
    var remaining: nat := Max(target - total, 0);
    var order := SortBy(Priority(raw));
    assert forall k :: k in order <==> k in raw;
    assert out == Floors(raw, lo, hi);
    ghost var start, units, lows := out, remaining, Rounding.Lows(lo, hi);
    while remaining != 0
      invariant InBox(out, lows, hi)
      invariant Deal(order, out, lows, hi, remaining) == Deal(order, start, lows, hi, units)
      decreases remaining
    {
      if !AnyRoom(order, out, hi) {
        break;
      }
      DealOnceBalances(order, out, lows, hi, remaining);
      out, remaining := DealPass(order, out, hi, remaining);
    }
  }
}
