/** round_bounded: three ways to start, and two repair loops that move single units. */
module Rounding {
  import opened Prelude
  import opened Dicts
  import opened Separable

  /** The squared rounding error at one key. */
  ghost function SquaredError(raw: map<string, real>): Cost {
    Cost((key: string, k: int) => if key in raw then (raw[key] - k as real) * (raw[key] - k as real) else 0.0)
  }

  ghost function Error(raw: map<string, real>, out: map<string, int>): real {
    TotalCost(SquaredError(raw), out)
  }

  lemma ErrorMarginal(raw: map<string, real>, key: string, k: int)
    requires key in raw
    ensures Marginal(SquaredError(raw), key, k) == 2.0 * (k as real - raw[key]) + 1.0
  {
    var d := raw[key] - k as real;
    assert raw[key] - (k + 1) as real == d - 1.0;
    assert (d - 1.0) * (d - 1.0) == d * d - 2.0 * d + 1.0;
  }

  lemma ErrorConvex(raw: map<string, real>, lo: map<string, int>, hi: map<string, int>)
    requires raw.Keys == lo.Keys == hi.Keys
    ensures Convex(SquaredError(raw), lo, hi)
  {
    forall k, i, j | k in lo && lo[k] <= i <= j < hi[k]
      ensures Marginal(SquaredError(raw), k, i) <= Marginal(SquaredError(raw), k, j)
    {
      ErrorMarginal(raw, k, i);
      ErrorMarginal(raw, k, j);
    }
  }

  datatype Strategy = LargestRemainder | NearestRepair | Stochastic

  /** The unclamped start. draw stands for the generator's next value in [0, 1). */
  function Start(strategy: Strategy, value: real, draw: real): int {
    match strategy
    case LargestRemainder => value.Floor
    case NearestRepair => (value + 0.5).Floor
    case Stochastic => value.Floor + if draw < value - value.Floor as real then 1 else 0
  }

  /** The three starts, by where they lie: below the value by less than one; within half a unit
      of it, upwards on a tie; and below it or above, the latter for a share of the draws that is
      as large as what the value exceeds its floor by. */
  lemma StartFromValue(value: real, draw: real)
    ensures 0.0 <= value - Start(LargestRemainder, value, draw) as real < 1.0
    ensures -0.5 <= value - Start(NearestRepair, value, draw) as real < 0.5
    ensures var low, s := Start(LargestRemainder, value, draw), Start(Stochastic, value, draw);
      (draw >= value - low as real ==> s == low) && (draw < value - low as real ==> s == low + 1)
  {
  }

  ghost function Rounded(strategy: Strategy, raw: map<string, real>, lo: map<string, int>,
                         hi: map<string, int>, draws: map<string, real>): map<string, int>
    requires raw.Keys == lo.Keys == hi.Keys && raw.Keys <= draws.Keys
  {
    map k | k in raw :: Clamp(Start(strategy, raw[k], draws[k]), lo[k], hi[k])
  }

  /** Bounds in order over the keys of raw. */
  ghost predicate Bounds(raw: map<string, real>, lo: map<string, int>, hi: map<string, int>) {
    raw.Keys == lo.Keys == hi.Keys && forall k :: k in lo ==> lo[k] <= hi[k]
  }

  lemma RoundedInBox(strategy: Strategy, raw: map<string, real>, lo: map<string, int>, hi: map<string, int>,
                     draws: map<string, real>)
    requires Bounds(raw, lo, hi) && raw.Keys <= draws.Keys
    ensures InBox(Rounded(strategy, raw, lo, hi, draws), lo, hi)
  {
  }

  /** Both deterministic starts are exchange-stable: no unit is on the wrong side by more
      than another is. */
  lemma RoundedStable(strategy: Strategy, raw: map<string, real>, lo: map<string, int>, hi: map<string, int>,
                      draws: map<string, real>)
    requires Bounds(raw, lo, hi) && raw.Keys <= draws.Keys && strategy != Stochastic
    requires InBox(Rounded(strategy, raw, lo, hi, draws), lo, hi)
    ensures Stable(SquaredError(raw), Rounded(strategy, raw, lo, hi, draws), lo, hi)
  {
    var out := Rounded(strategy, raw, lo, hi, draws);
    forall p, q | p in out && q in out && lo[p] < out[p] && out[q] < hi[q]
      ensures Marginal(SquaredError(raw), p, out[p] - 1) <= Marginal(SquaredError(raw), q, out[q])
    {
      ErrorMarginal(raw, p, out[p] - 1);
      ErrorMarginal(raw, q, out[q]);
      var margin := if strategy == LargestRemainder then 0.0 else 0.5;
      assert out[p] as real <= raw[p] + margin;
      assert out[q] as real > raw[q] + margin - 1.0;
    }
  }

  /** What is left to round at key k. */
  function Shortfalls(raw: map<string, real>, out: map<string, int>, hi: map<string, int>): map<string, real>
    requires raw.Keys == out.Keys == hi.Keys
  {
    map k | k in raw && out[k] < hi[k] :: -(raw[k] - out[k] as real)
  }

  function Excesses(raw: map<string, real>, out: map<string, int>, lo: map<string, int>): map<string, real>
    requires raw.Keys == out.Keys == lo.Keys
  {
    map k | k in raw && lo[k] < out[k] :: raw[k] - out[k] as real
  }

  /** A raised unit is the one that the rounding misses most. */
  lemma RaiseStep(raw: map<string, real>, out: map<string, int>, lo: map<string, int>, hi: map<string, int>,
                  key: string)
    requires raw.Keys == lo.Keys && InBox(out, lo, hi) && Stable(SquaredError(raw), out, lo, hi)
    requires IsFirst(Shortfalls(raw, out, hi), key)
    ensures InBox(out[key := out[key] + 1], lo, hi)
    ensures Stable(SquaredError(raw), out[key := out[key] + 1], lo, hi)
  {
    hide Stable;
    hide Convex;
    hide StrLt;
    ErrorConvex(raw, lo, hi);
    var short := Shortfalls(raw, out, hi);
    ErrorMarginal(raw, key, out[key]);
    forall q | q in out && out[q] < hi[q]
      ensures Marginal(SquaredError(raw), key, out[key]) <= Marginal(SquaredError(raw), q, out[q])
    {
      assert q in short && Leads(short, key, q);
      ErrorMarginal(raw, q, out[q]);
    }
    RaiseKeepsStable(SquaredError(raw), out, lo, hi, key);
  }

  lemma LowerStep(raw: map<string, real>, out: map<string, int>, lo: map<string, int>, hi: map<string, int>,
                  key: string)
    requires raw.Keys == lo.Keys && InBox(out, lo, hi) && Stable(SquaredError(raw), out, lo, hi)
    requires IsFirst(Excesses(raw, out, lo), key)
    ensures InBox(out[key := out[key] - 1], lo, hi)
    ensures Stable(SquaredError(raw), out[key := out[key] - 1], lo, hi)
  {
    hide Stable;
    hide Convex;
    hide StrLt;
    ErrorConvex(raw, lo, hi);
    var excess := Excesses(raw, out, lo);
    ErrorMarginal(raw, key, out[key] - 1);
    forall q | q in out && lo[q] < out[q]
      ensures Marginal(SquaredError(raw), q, out[q] - 1) <= Marginal(SquaredError(raw), key, out[key] - 1)
    {
      assert q in excess && Leads(excess, key, q);
      ErrorMarginal(raw, q, out[q] - 1);
    }
    LowerKeepsStable(SquaredError(raw), out, lo, hi, key);
  }

  /** A unit can be added exactly while the caps are not full. */
  lemma {:induction false} RoomIffBelow(raw: map<string, real>, out: map<string, int>, lo: map<string, int>,
                                        hi: map<string, int>)
    requires raw.Keys == lo.Keys && InBox(out, lo, hi)
    ensures Sum(lo) <= Sum(out) <= Sum(hi)
    ensures Shortfalls(raw, out, hi) == map[] <==> Sum(out) == Sum(hi)
    ensures Excesses(raw, out, lo) == map[] <==> Sum(out) == Sum(lo)
  {
    SumLeq(lo, out);
    SumLeq(out, hi);
    if Shortfalls(raw, out, hi) == map[] {
      forall k | k in out ensures out[k] == hi[k] {
        assert k !in Shortfalls(raw, out, hi);
      }
    } else {
      var k :| k in Shortfalls(raw, out, hi);
      assert out[k] != hi[k];
    }
    if Excesses(raw, out, lo) == map[] {
      forall k | k in out ensures out[k] == lo[k] {
        assert k !in Excesses(raw, out, lo);
      }
    } else {
      var k :| k in Excesses(raw, out, lo);
      assert out[k] != lo[k];
    }
  }

  /** The first repair loop: raise the key that rounding misses most, the smaller key on a
      tie, until the target or every cap is reached. */
  ghost function Raised(raw: map<string, real>, hi: map<string, int>, out: map<string, int>,
                        target: int): (r: map<string, int>)
    requires raw.Keys == out.Keys == hi.Keys
    ensures r.Keys == out.Keys
    decreases target - Sum(out)
  {
    var short := Shortfalls(raw, out, hi);
    if Sum(out) >= target || short == map[] then out
    else
      var key := First(short);
      SumSet(out, key, out[key] + 1);
      Raised(raw, hi, out[key := out[key] + 1], target)
  }

  /** The second repair loop, downwards. */
  ghost function Lowered(raw: map<string, real>, lo: map<string, int>, out: map<string, int>,
                         target: int): (r: map<string, int>)
    requires raw.Keys == out.Keys == lo.Keys
    ensures r.Keys == out.Keys
    decreases Sum(out) - target
  {
    var excess := Excesses(raw, out, lo);
    if Sum(out) <= target || excess == map[] then out
    else
      var key := First(excess);
      SumSet(out, key, out[key] - 1);
      Lowered(raw, lo, out[key := out[key] - 1], target)
  }

  ghost function Round(strategy: Strategy, raw: map<string, real>, lo: map<string, int>, hi: map<string, int>,
                       target: int, draws: map<string, real>): (out: map<string, int>)
    requires raw.Keys == lo.Keys == hi.Keys && raw.Keys <= draws.Keys
    ensures out.Keys == raw.Keys
  {
    Lowered(raw, lo, Raised(raw, hi, Rounded(strategy, raw, lo, hi, draws), target), target)
  }

  /** One turn of the first loop. */
  lemma RaisedOnce(raw: map<string, real>, hi: map<string, int>, out: map<string, int>, target: int)
    requires raw.Keys == out.Keys == hi.Keys
    ensures Sum(out) >= target || Shortfalls(raw, out, hi) == map[] ==> Raised(raw, hi, out, target) == out
    ensures Sum(out) < target && Shortfalls(raw, out, hi) != map[] ==>
      var key := First(Shortfalls(raw, out, hi));
      && key in out && out[key] < hi[key]
      && Sum(out[key := out[key] + 1]) == Sum(out) + 1
      && Raised(raw, hi, out, target) == Raised(raw, hi, out[key := out[key] + 1], target)
  {
    hide IsFirst;
    if Sum(out) < target && Shortfalls(raw, out, hi) != map[] {
      var key := First(Shortfalls(raw, out, hi));
      SumSet(out, key, out[key] + 1);
    }
  }

  /** One turn of the second loop. */
  lemma LoweredOnce(raw: map<string, real>, lo: map<string, int>, out: map<string, int>, target: int)
    requires raw.Keys == out.Keys == lo.Keys
    ensures Sum(out) <= target || Excesses(raw, out, lo) == map[] ==> Lowered(raw, lo, out, target) == out
    ensures Sum(out) > target && Excesses(raw, out, lo) != map[] ==>
      var key := First(Excesses(raw, out, lo));
      && key in out && lo[key] < out[key]
      && Sum(out[key := out[key] - 1]) == Sum(out) - 1
      && Lowered(raw, lo, out, target) == Lowered(raw, lo, out[key := out[key] - 1], target)
  {
    hide IsFirst;
    if Sum(out) > target && Excesses(raw, out, lo) != map[] {
      var key := First(Excesses(raw, out, lo));
      SumSet(out, key, out[key] - 1);
    }
  }

  /** The first loop only raises, stays in the box, and ends at the target or at the caps. */
  lemma {:induction false} RaisedReaches(raw: map<string, real>, lo: map<string, int>, hi: map<string, int>,
                                         out: map<string, int>, target: int)
    requires Bounds(raw, lo, hi) && InBox(out, lo, hi)
    ensures var r := Raised(raw, hi, out, target);
      && InBox(r, lo, hi)
      && Sum(r) == Max(Sum(out), Min(target, Sum(hi)))
      && (forall k :: k in out ==> out[k] <= r[k])
      && (Sum(out) >= target ==> r == out)
    decreases target - Sum(out)
  {
    hide IsFirst;
    hide First;
    hide Raised;
    hide Shortfalls;
    RoomIffBelow(raw, out, lo, hi);
    RaisedOnce(raw, hi, out, target);
    var short := Shortfalls(raw, out, hi);
    if Sum(out) < target && short != map[] {
      var key := First(short);
      var next := out[key := out[key] + 1];
      RaisedReaches(raw, lo, hi, next, target);
    }
  }

  lemma {:induction false} LoweredReaches(raw: map<string, real>, lo: map<string, int>, hi: map<string, int>,
                                          out: map<string, int>, target: int)
    requires Bounds(raw, lo, hi) && InBox(out, lo, hi)
    ensures var r := Lowered(raw, lo, out, target);
      && InBox(r, lo, hi)
      && Sum(r) == Min(Sum(out), Max(target, Sum(lo)))
      && (forall k :: k in out ==> r[k] <= out[k])
      && (Sum(out) <= target ==> r == out)
    decreases Sum(out) - target
  {
    hide IsFirst;
    hide First;
    hide Lowered;
    hide Excesses;
    RoomIffBelow(raw, out, lo, hi);
    LoweredOnce(raw, lo, out, target);
    var excess := Excesses(raw, out, lo);
    if Sum(out) > target && excess != map[] {
      var key := First(excess);
      var next := out[key := out[key] - 1];
      LoweredReaches(raw, lo, hi, next, target);
    }
  }

  lemma {:induction false} InOrderReaches(strategy: Strategy, raw: map<string, real>, lo: map<string, int>,
                                          hi: map<string, int>,
                           target: int, draws: map<string, real>)
    requires Bounds(raw, lo, hi) && raw.Keys <= draws.Keys
    ensures var out := Round(strategy, raw, lo, hi, target, draws);
      var start := Rounded(strategy, raw, lo, hi, draws);
      && InBox(out, lo, hi)
      && Sum(out) == Clamp(target, Sum(lo), Sum(hi))
      && (Sum(start) <= target ==> forall k :: k in raw ==> start[k] <= out[k])
      && (Sum(start) >= target ==> forall k :: k in raw ==> out[k] <= start[k])
  {
    hide Raised;
    hide Lowered;
    RoundedInBox(strategy, raw, lo, hi, draws);
    var start := Rounded(strategy, raw, lo, hi, draws);
    var raised := Raised(raw, hi, start, target);
    RoomIffBelow(raw, start, lo, hi);
    RaisedReaches(raw, lo, hi, start, target);
    LoweredReaches(raw, lo, hi, raised, target);
  }

  /** The bounds that are in force: a lower bound above its cap gives way to it. */
  function Lows(lo: map<string, int>, hi: map<string, int>): (lows: map<string, int>)
    requires lo.Keys == hi.Keys
    ensures lows.Keys == hi.Keys && forall k :: k in lows ==> lows[k] <= hi[k]
    ensures (forall k :: k in lo ==> lo[k] <= hi[k]) ==> lows == lo
  {
    map k | k in lo :: Min(lo[k], hi[k])
  }

  lemma ExcessesWithLows(raw: map<string, real>, lo: map<string, int>, hi: map<string, int>, out: map<string, int>)
    requires raw.Keys == out.Keys == lo.Keys == hi.Keys && forall k :: k in out ==> out[k] <= hi[k]
    ensures Excesses(raw, out, lo) == Excesses(raw, out, Lows(lo, hi))
    ensures Excesses(raw, out, lo) != map[] ==>
      var key := First(Excesses(raw, out, lo)); key in out && out[key] - 1 <= hi[key]
  {
    hide IsFirst;
  }

  lemma {:induction false} LoweredWithLows(raw: map<string, real>, lo: map<string, int>, hi: map<string, int>,
                                           out: map<string, int>, target: int)
    requires raw.Keys == out.Keys == lo.Keys == hi.Keys && forall k :: k in out ==> out[k] <= hi[k]
    ensures Lowered(raw, lo, out, target) == Lowered(raw, Lows(lo, hi), out, target)
    decreases Sum(out) - target
  {
    hide IsFirst;
    hide Lowered;
    hide Excesses;
    var lows := Lows(lo, hi);
    ExcessesWithLows(raw, lo, hi, out);
    LoweredOnce(raw, lo, out, target);
    LoweredOnce(raw, lows, out, target);
    if Sum(out) > target && Excesses(raw, out, lo) != map[] {
      var key := First(Excesses(raw, out, lo));
      LoweredWithLows(raw, lo, hi, out[key := out[key] - 1], target);
    }
  }

  lemma {:induction false} RaisedBelowCaps(raw: map<string, real>, hi: map<string, int>, out: map<string, int>,
                                           target: int)
    requires raw.Keys == out.Keys == hi.Keys && forall k :: k in out ==> out[k] <= hi[k]
    ensures forall k :: k in out ==> Raised(raw, hi, out, target)[k] <= hi[k]
    decreases target - Sum(out)
  {
    hide IsFirst;
    hide Raised;
    hide Shortfalls;
    RaisedOnce(raw, hi, out, target);
    if Sum(out) < target && Shortfalls(raw, out, hi) != map[] {
      var key := First(Shortfalls(raw, out, hi));
      RaisedBelowCaps(raw, hi, out[key := out[key] + 1], target);
    }
  }

  /** Bounds that are not in order are rounded with as the bounds in force. */
  lemma CrossedBounds(strategy: Strategy, raw: map<string, real>, lo: map<string, int>, hi: map<string, int>,
                      target: int, draws: map<string, real>)
    requires raw.Keys == lo.Keys == hi.Keys && raw.Keys <= draws.Keys
    ensures Rounded(strategy, raw, lo, hi, draws) == Rounded(strategy, raw, Lows(lo, hi), hi, draws)
    ensures Round(strategy, raw, lo, hi, target, draws) == Round(strategy, raw, Lows(lo, hi), hi, target, draws)
  {
    hide Raised;
    hide Lowered;
    hide Start;
    var start := Rounded(strategy, raw, lo, hi, draws);
    assert start == Rounded(strategy, raw, Lows(lo, hi), hi, draws);
    RaisedBelowCaps(raw, hi, start, target);
    LoweredWithLows(raw, lo, hi, Raised(raw, hi, start, target), target);
  }

  /** For every strategy, every draw and all bounds: the result is within the bounds in force,
      its sum is the target clamped to what they can hold, and it lies on one side of the
      start, so the second loop never undoes the first. */
  lemma {:induction false} RoundReachesTarget(strategy: Strategy, raw: map<string, real>, lo: map<string, int>,
                                              hi: map<string, int>,
                                              target: int, draws: map<string, real>)
    requires raw.Keys == lo.Keys == hi.Keys && raw.Keys <= draws.Keys
    ensures var out := Round(strategy, raw, lo, hi, target, draws);
      var start := Rounded(strategy, raw, lo, hi, draws);
      && InBox(out, Lows(lo, hi), hi)
      && Sum(out) == Clamp(target, Sum(Lows(lo, hi)), Sum(hi))
      && (Sum(start) <= target ==> forall k :: k in raw ==> start[k] <= out[k])
      && (Sum(start) >= target ==> forall k :: k in raw ==> out[k] <= start[k])
  {
    hide Round;
    hide Rounded;
    CrossedBounds(strategy, raw, lo, hi, target, draws);
    InOrderReaches(strategy, raw, Lows(lo, hi), hi, target, draws);
  }

  lemma {:induction false} RaisedStable(raw: map<string, real>, lo: map<string, int>, hi: map<string, int>,
                                        out: map<string, int>, target: int)
    requires Bounds(raw, lo, hi) && InBox(out, lo, hi) && Stable(SquaredError(raw), out, lo, hi)
    requires InBox(Raised(raw, hi, out, target), lo, hi)
    ensures Stable(SquaredError(raw), Raised(raw, hi, out, target), lo, hi)
    decreases target - Sum(out)
  {
    hide Stable;
    hide IsFirst;
    hide Raised;
    hide Shortfalls;
    RaisedOnce(raw, hi, out, target);
    var short := Shortfalls(raw, out, hi);
    if Sum(out) < target && short != map[] {
      var key := First(short);
      RaiseStep(raw, out, lo, hi, key);
      RaisedStable(raw, lo, hi, out[key := out[key] + 1], target);
    }
  }

  lemma {:induction false} LoweredStable(raw: map<string, real>, lo: map<string, int>, hi: map<string, int>,
                                         out: map<string, int>, target: int)
    requires Bounds(raw, lo, hi) && InBox(out, lo, hi) && Stable(SquaredError(raw), out, lo, hi)
    requires InBox(Lowered(raw, lo, out, target), lo, hi)
    ensures Stable(SquaredError(raw), Lowered(raw, lo, out, target), lo, hi)
    decreases Sum(out) - target
  {
    hide Stable;
    hide IsFirst;
    hide Lowered;
    hide Excesses;
    LoweredOnce(raw, lo, out, target);
    var excess := Excesses(raw, out, lo);
    if Sum(out) > target && excess != map[] {
      var key := First(excess);
      LowerStep(raw, out, lo, hi, key);
      LoweredStable(raw, lo, hi, out[key := out[key] - 1], target);
    }
  }

  /** The deterministic strategies minimise the squared error over all integer vectors
      within the bounds that have the same sum. */
  lemma {:induction false} RoundOptimal(strategy: Strategy, raw: map<string, real>, lo: map<string, int>,
                                        hi: map<string, int>,
                     target: int, draws: map<string, real>, b: map<string, int>)
    requires Bounds(raw, lo, hi) && raw.Keys <= draws.Keys && strategy != Stochastic
    requires InBox(b, lo, hi) && Sum(b) == Clamp(target, Sum(lo), Sum(hi))
    ensures Error(raw, Round(strategy, raw, lo, hi, target, draws)) <= Error(raw, b)
  {
    hide Raised;
    hide Lowered;
    hide Stable;
    hide Convex;
    var start := Rounded(strategy, raw, lo, hi, draws);
    var raised := Raised(raw, hi, start, target);
    RoundedInBox(strategy, raw, lo, hi, draws);
    RoundedStable(strategy, raw, lo, hi, draws);
    RaisedReaches(raw, lo, hi, start, target);
    LoweredReaches(raw, lo, hi, raised, target);
    RaisedStable(raw, lo, hi, start, target);
    LoweredStable(raw, lo, hi, raised, target);
    InOrderReaches(strategy, raw, lo, hi, target, draws);
    ErrorConvex(raw, lo, hi);
    StableIsOptimal(SquaredError(raw), Lowered(raw, lo, raised, target), b, lo, hi);
  }

  /** So the two of them always make the same squared error. */
  lemma StrategiesAgree(raw: map<string, real>, lo: map<string, int>, hi: map<string, int>,
                        target: int, draws: map<string, real>)
    requires Bounds(raw, lo, hi) && raw.Keys <= draws.Keys
    ensures Error(raw, Round(LargestRemainder, raw, lo, hi, target, draws)) ==
      Error(raw, Round(NearestRepair, raw, lo, hi, target, draws))
  {
    hide Round;
    hide Error;
    InOrderReaches(LargestRemainder, raw, lo, hi, target, draws);
    InOrderReaches(NearestRepair, raw, lo, hi, target, draws);
    RoundOptimal(LargestRemainder, raw, lo, hi, target, draws, Round(NearestRepair, raw, lo, hi, target, draws));
    RoundOptimal(NearestRepair, raw, lo, hi, target, draws, Round(LargestRemainder, raw, lo, hi, target, draws));
  }

  /** A start that meets the target is left as it is. */
  lemma StartKept(strategy: Strategy, raw: map<string, real>, lo: map<string, int>, hi: map<string, int>,
                  target: int, draws: map<string, real>)
    requires Bounds(raw, lo, hi) && raw.Keys <= draws.Keys
    requires Sum(Rounded(strategy, raw, lo, hi, draws)) == target
    ensures Round(strategy, raw, lo, hi, target, draws) == Rounded(strategy, raw, lo, hi, draws)
  {
    hide Raised;
    hide Lowered;
    hide Clamp;
    hide Start;
    var start := Rounded(strategy, raw, lo, hi, draws);
    RaisedOnce(raw, hi, start, target);
    LoweredOnce(raw, lo, start, target);
  }

  /** while sum(out.values()) < target */
  method RaiseLoop(raw: map<string, real>, hi: map<string, int>, start: map<string, int>, target: int)
    returns (out: map<string, int>)
    requires raw.Keys == start.Keys == hi.Keys
    ensures out == Raised(raw, hi, start, target)
  {
    hide IsFirst;
    hide First;
    hide Raised;
    out := start;
    var total := SumValues(out);
    while total < target
      invariant out.Keys == raw.Keys && total == Sum(out)
      invariant Raised(raw, hi, out, target) == Raised(raw, hi, start, target)
      decreases target - total
    {
      RaisedOnce(raw, hi, out, target);
      var eligible := Shortfalls(raw, out, hi);
      if eligible == map[] {
        return;
      }
      var key := First(eligible);
      out := out[key := out[key] + 1];
      total := SumValues(out);
    }
    RaisedOnce(raw, hi, out, target);
  }

  /** while sum(out.values()) > target */
  method LowerLoop(raw: map<string, real>, lo: map<string, int>, start: map<string, int>, target: int)
    returns (out: map<string, int>)
    requires raw.Keys == start.Keys == lo.Keys
    ensures out == Lowered(raw, lo, start, target)
  {
    hide IsFirst;
    hide First;
    hide Lowered;
    out := start;
    var total := SumValues(out);
    while total > target
      invariant out.Keys == raw.Keys && total == Sum(out)
      invariant Lowered(raw, lo, out, target) == Lowered(raw, lo, start, target)
      decreases total - target
    {
      LoweredOnce(raw, lo, out, target);
      var eligible := Excesses(raw, out, lo);
      if eligible == map[] {
        return;
      }
      var key := First(eligible);
      out := out[key := out[key] - 1];
      total := SumValues(out);
    }
    LoweredOnce(raw, lo, out, target);
  }

  method RoundBounded(strategy: Strategy, raw: map<string, real>, lo: map<string, int>, hi: map<string, int>,
                      target: int, draws: map<string, real>) returns (out: map<string, int>)
    requires raw.Keys == lo.Keys == hi.Keys && raw.Keys <= draws.Keys
    ensures out == Round(strategy, raw, lo, hi, target, draws)
  {
    hide Raised;
    hide Lowered;
    out := map k | k in raw :: Clamp(Start(strategy, raw[k], draws[k]), lo[k], hi[k]);
    out := RaiseLoop(raw, hi, out, target);
    out := LowerLoop(raw, lo, out, target);
  }
}
