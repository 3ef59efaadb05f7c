/** The results are determined, ties included: what the solver and the rounders return is the
    only vector of its kind, and of two keys that nothing but their names tells apart the first
    goes first. */
module Ties {
  import opened Prelude
  import opened Dicts
  import opened Separable
  import opened Greedy
  import opened GreedyOrder
  import opened BranchCost
  import opened Schema
  import opened AllocatorSpec
  import opened AllocatorTheorems
  import opened NodeKeys
  import opened SummaryKeys
  import opened Levelling
  import Rounding
  import LargestRemainder
  import DealtRounds
  import Baselines

  /** The last branch of each node gains more than the next branch of any other would, or as
      much and its name comes first. */
  ghost predicate GainsFirst(s: Summary, a: map<string, int>)
    requires a.Keys == s.dispersion.Keys && InBox(a, s.lower, s.upper) && forall k :: k in a ==> s.lower[k] >= 1
  {
    forall p, q :: p in a && q in a && p != q && s.lower[p] < a[p] && a[q] < s.upper[q] ==>
      var here, there := Gain(s.dispersion[p], a[p] - 1), Gain(s.dispersion[q], a[q]);
      here > there || (here == there && StrLt(p, q))
  }

  lemma {:induction false} SummaryPosed(fs: seq<Fields>, cfg: Config, s: Summary)
    requires Allocate(fs, cfg) == Ok(s)
    ensures WellPosed(s.dispersion, s.lower, s.upper) && InBox(s.allocations, s.lower, s.upper)
    ensures Sum(s.lower) <= s.granted == Sum(s.allocations) == Min(cfg.totalBudget, Sum(s.upper))
    ensures s.allocations == Allocation(s.dispersion, s.lower, s.upper, s.granted - Sum(s.lower))
  {
    hide Allocate;
    hide Intake;
    hide WellPosed;
    hide Allocation;
    hide Objective;
    hide Reference;
    AllocateBalanced(fs, cfg, s);
  }

  lemma {:induction false} GainsAreSettled(s: Summary, a: map<string, int>)
    requires WellPosed(s.dispersion, s.lower, s.upper) && InBox(a, s.lower, s.upper)
    ensures GainsFirst(s, a) <==> Settled(false, DispersionCost(s.dispersion), s.lower, s.upper, a)
  {
    hide Gain;
    hide Marginal;
    hide StrLt;
    forall k, n | k in s.lower && s.lower[k] <= n
      ensures Marginal(DispersionCost(s.dispersion), k, n) == -Gain(s.dispersion[k], n)
    {
      MarginalIsGain(s.dispersion, k, n);
    }
  }

  /** The allocation is determined: of all the ways to spend what is granted within the bounds
      it is the only one in which every branch goes where it gains most, the first name on a
      tie. */
  lemma {:induction false} AllocationDetermined(fs: seq<Fields>, cfg: Config, s: Summary, a: map<string, int>)
    requires Allocate(fs, cfg) == Ok(s)
    ensures WellPosed(s.dispersion, s.lower, s.upper)
    ensures InBox(a, s.lower, s.upper) && Sum(a) == Min(cfg.totalBudget, Sum(s.upper)) ==>
      (a == s.allocations <==> GainsFirst(s, a))
  {
    hide Allocate;
    hide Spend;
    hide Settled;
    hide GainsFirst;
    hide Instance;
    SummaryPosed(fs, cfg, s);
    var cost := DispersionCost(s.dispersion);
    DiminishingReturns(s.dispersion, s.lower, s.upper);
    InstanceIsConvex(cost, s.lower, s.upper);
    SpendSettled(cost, s.lower, s.upper, s.granted - Sum(s.lower));
    if InBox(a, s.lower, s.upper) && Sum(a) == Sum(s.allocations) {
      GainsAreSettled(s, a);
      if GainsFirst(s, a) {
        SettledUnique(false, cost, s.lower, s.upper, a, s.allocations);
      }
    }
  }

  lemma InstanceIsConvex(cost: Cost, lo: map<string, int>, hi: map<string, int>)
    requires Instance(cost, lo, hi)
    ensures lo.Keys == hi.Keys && Convex(cost, lo, hi)
  {
  }

  /** A key at i is further below its raw value than another at j, or as far and before it. */
  ghost predicate Misses(reversed: bool, raw: map<string, real>, p: string, i: int, q: string, j: int)
    requires p in raw && q in raw
  {
    raw[p] - i as real > raw[q] - j as real || (raw[p] - i as real == raw[q] - j as real && Before(reversed, p, q))
  }

  /** Every unit above lo is one that rounding would miss more than any below hi that is not
      there. */
  ghost predicate MissesLess(reversed: bool, raw: map<string, real>, lo: map<string, int>, hi: map<string, int>,
                             a: map<string, int>)
    requires raw.Keys == a.Keys
  {
    && InBox(a, lo, hi)
    && forall p, q :: p in a && q in a && p != q && lo[p] < a[p] && a[q] < hi[q] ==>
      Misses(reversed, raw, p, a[p] - 1, q, a[q])
  }

  lemma SoonerIfMissed(reversed: bool, raw: map<string, real>, p: string, i: int, q: string, j: int)
    requires p in raw && q in raw
    ensures Sooner(reversed, Rounding.SquaredError(raw), p, i, q, j) <==> Misses(reversed, raw, p, i, q, j)
  {
    hide Before;
    hide Marginal;
    Rounding.ErrorMarginal(raw, p, i);
    Rounding.ErrorMarginal(raw, q, j);
  }

  lemma MissesLessIsSettled(reversed: bool, raw: map<string, real>, lo: map<string, int>, hi: map<string, int>,
                            a: map<string, int>)
    requires raw.Keys == a.Keys
    ensures MissesLess(reversed, raw, lo, hi, a) <==> Settled(reversed, Rounding.SquaredError(raw), lo, hi, a)
  {
    hide Misses;
    hide Sooner;
    forall p, i, q, j | p in raw && q in raw
      ensures Sooner(reversed, Rounding.SquaredError(raw), p, i, q, j) <==> Misses(reversed, raw, p, i, q, j)
    {
      SoonerIfMissed(reversed, raw, p, i, q, j);
    }
  }

  lemma {:induction false} FirstShort(raw: map<string, real>, hi: map<string, int>, a: map<string, int>, q: string)
    requires raw.Keys == a.Keys == hi.Keys && q in a && a[q] < hi[q] && Rounding.Shortfalls(raw, a, hi) != map[]
    ensures var k := First(Rounding.Shortfalls(raw, a, hi));
      k in a && a[k] < hi[k] && (q != k ==> Sooner(false, Rounding.SquaredError(raw), k, a[k], q, a[q]))
  {
    hide StrLt;
    hide Marginal;
    var short := Rounding.Shortfalls(raw, a, hi);
    assert q in short && Leads(short, First(short), q);
    Rounding.ErrorMarginal(raw, First(short), a[First(short)]);
    Rounding.ErrorMarginal(raw, q, a[q]);
  }

  lemma {:induction false} FirstOver(raw: map<string, real>, lo: map<string, int>, a: map<string, int>, p: string)
    requires raw.Keys == a.Keys == lo.Keys && p in a && lo[p] < a[p] && Rounding.Excesses(raw, a, lo) != map[]
    ensures var k := First(Rounding.Excesses(raw, a, lo));
      && k in a && lo[k] < a[k]
      && (p != k ==> Sooner(true, Rounding.SquaredError(raw), p, a[p] - 1, k, a[k] - 1))
  {
    hide StrLt;
    hide Marginal;
    var excess := Rounding.Excesses(raw, a, lo);
    assert p in excess && Leads(excess, First(excess), p);
    Rounding.ErrorMarginal(raw, First(excess), a[First(excess)] - 1);
    Rounding.ErrorMarginal(raw, p, a[p] - 1);
  }

  lemma {:induction false} RaisedSettles(raw: map<string, real>, start: map<string, int>, hi: map<string, int>,
                                         out: map<string, int>, target: int)
    requires raw.Keys == out.Keys == start.Keys == hi.Keys && Settled(false, Rounding.SquaredError(raw), start, hi, out)
    ensures Settled(false, Rounding.SquaredError(raw), start, hi, Rounding.Raised(raw, hi, out, target))
    decreases target - Sum(out)
  {
    hide Sooner;
    hide Settled;
    hide Convex;
    hide IsFirst;
    hide Rounding.Raised;
    hide Rounding.Shortfalls;
    Rounding.RaisedOnce(raw, hi, out, target);
    var short := Rounding.Shortfalls(raw, out, hi);
    if Sum(out) < target && short != map[] {
      var k := First(short);
      forall q | q in out && q != k && out[q] < hi[q]
        ensures Sooner(false, Rounding.SquaredError(raw), k, out[k], q, out[q])
      {
        FirstShort(raw, hi, out, q);
      }
      Rounding.ErrorConvex(raw, start, hi);
      RaiseSettles(false, Rounding.SquaredError(raw), start, hi, out, k);
      RaisedSettles(raw, start, hi, out[k := out[k] + 1], target);
    }
  }

  lemma {:induction false} LoweredSettles(raw: map<string, real>, lo: map<string, int>, start: map<string, int>,
                                          out: map<string, int>, target: int)
    requires raw.Keys == out.Keys == lo.Keys == start.Keys && Settled(true, Rounding.SquaredError(raw), lo, start, out)
    ensures Settled(true, Rounding.SquaredError(raw), lo, start, Rounding.Lowered(raw, lo, out, target))
    decreases Sum(out) - target
  {
    hide Sooner;
    hide Settled;
    hide Convex;
    hide IsFirst;
    hide Rounding.Lowered;
    hide Rounding.Excesses;
    Rounding.LoweredOnce(raw, lo, out, target);
    var excess := Rounding.Excesses(raw, out, lo);
    if Sum(out) > target && excess != map[] {
      var k := First(excess);
      forall p | p in out && p != k && lo[p] < out[p]
        ensures Sooner(true, Rounding.SquaredError(raw), p, out[p] - 1, k, out[k] - 1)
      {
        FirstOver(raw, lo, out, p);
      }
      Rounding.ErrorConvex(raw, lo, start);
      LowerSettles(true, Rounding.SquaredError(raw), lo, start, out, k);
      LoweredSettles(raw, lo, start, out[k := out[k] - 1], target);
    }
  }

  lemma StartSettled(raw: map<string, real>, lo: map<string, int>, hi: map<string, int>, start: map<string, int>)
    requires InBox(start, lo, hi)
    ensures Settled(false, Rounding.SquaredError(raw), start, hi, start)
    ensures Settled(true, Rounding.SquaredError(raw), lo, start, start)
  {
    hide Sooner;
  }

  /** round_bounded is determined by its start: what is added are the units that rounding
      misses most, the first name on a tie, and what is taken back are those it misses least,
      again the first name on a tie; and no other vector with that sum is of this kind. */
  lemma {:induction false} RoundDetermined(strategy: Rounding.Strategy, raw: map<string, real>, lo: map<string, int>,
                                           hi: map<string, int>, target: int, draws: map<string, real>,
                                           a: map<string, int>)
    requires Rounding.Bounds(raw, lo, hi) && raw.Keys <= draws.Keys && a.Keys == raw.Keys
    ensures var out := Rounding.Round(strategy, raw, lo, hi, target, draws);
      var start := Rounding.Rounded(strategy, raw, lo, hi, draws);
      && (Sum(start) <= target && InBox(a, start, hi) && Sum(a) == Min(target, Sum(hi)) ==>
            (a == out <==> MissesLess(false, raw, start, hi, a)))
      && (Sum(start) >= target && InBox(a, lo, start) && Sum(a) == Max(target, Sum(lo)) ==>
            (a == out <==> MissesLess(true, raw, lo, start, a)))
  {
    hide Settled;
    hide Sum;
    hide MissesLess;
    hide Rounding.Raised;
    hide Rounding.Lowered;
    hide Rounding.Rounded;
    var start, cost := Rounding.Rounded(strategy, raw, lo, hi, draws), Rounding.SquaredError(raw);
    Rounding.RoundedInBox(strategy, raw, lo, hi, draws);
    SumLeq(start, hi);
    SumLeq(lo, start);
    Rounding.RaisedReaches(raw, lo, hi, start, target);
    var raised := Rounding.Raised(raw, hi, start, target);
    Rounding.LoweredReaches(raw, lo, hi, raised, target);
    StartSettled(raw, lo, hi, start);
    MissesLessIsSettled(false, raw, start, hi, a);
    MissesLessIsSettled(true, raw, lo, start, a);
    RaisedSettles(raw, start, hi, start, target);
    Rounding.ErrorConvex(raw, start, hi);
    Rounding.ErrorConvex(raw, lo, start);
    if Sum(start) <= target && MissesLess(false, raw, start, hi, a) && Sum(a) == Min(target, Sum(hi)) {
      SettledUnique(false, cost, start, hi, a, raised);
    }
    if Sum(start) >= target {
      LoweredSettles(raw, lo, start, raised, target);
      if MissesLess(true, raw, lo, start, a) && Sum(a) == Max(target, Sum(lo)) {
        SettledUnique(true, cost, lo, start, a, Rounding.Lowered(raw, lo, raised, target));
      }
    }
  }

  /** What is moved in rounds: no key with room left is behind another by more than the turn that
      the other has had before it. */
  ghost predicate Even(room: map<string, int>, score: map<string, real>, d: map<string, int>) {
    && d.Keys == room.Keys == score.Keys
    && (forall k :: k in d ==> 0 <= d[k] <= room[k])
    && forall p, q :: p in d && q in d && p != q && d[q] < room[q] ==>
      d[p] <= d[q] + if Leads(score, p, q) then 1 else 0
  }

  lemma LeadsOneWay(score: map<string, real>, p: string, q: string)
    requires p in score && q in score && p != q
    ensures !(Leads(score, p, q) && Leads(score, q, p))
  {
    hide StrLt;
    if StrLt(p, q) {
      StrLtAsymmetric(p, q);
    }
  }

  lemma EvenPair(room: map<string, int>, score: map<string, real>, d: map<string, int>, p: string, q: string)
    requires Even(room, score, d) && p in d && q in d && p != q && d[q] < room[q]
    ensures d[p] <= d[q] + if Leads(score, p, q) then 1 else 0
  {
    hide Leads;
  }

  lemma EvenWithin(room: map<string, int>, score: map<string, real>, d: map<string, int>)
    requires Even(room, score, d)
    ensures d.Keys == room.Keys == score.Keys && forall k :: k in d ==> 0 <= d[k] <= room[k]
  {
    hide Leads;
  }

  lemma NotEvenBoth(room: map<string, int>, score: map<string, real>, d: map<string, int>, e: map<string, int>,
                    p: string, q: string)
    requires Even(room, score, d) && Even(room, score, e) && p in d && q in d && p in e && q in e && e[p] < d[p]
    ensures e[q] <= d[q]
  {
    hide Leads;
    hide Even;
    EvenWithin(room, score, d);
    EvenWithin(room, score, e);
    if d[q] < e[q] {
      LeadsOneWay(score, p, q);
      EvenPair(room, score, d, p, q);
      EvenPair(room, score, e, q, p);
    }
  }

  /** There is one such way to move a given amount. */
  lemma {:induction false} EvenUnique(room: map<string, int>, score: map<string, real>, d: map<string, int>,
                                      e: map<string, int>)
    requires Even(room, score, d) && Even(room, score, e) && Sum(d) == Sum(e)
    ensures d == e
  {
    hide Even;
    EvenWithin(room, score, d);
    EvenWithin(room, score, e);
    if d != e {
      var p := KeyBelow(d, e);
      var q := KeyBelow(e, d);
      NotEvenBoth(room, score, d, e, p, q);
    }
  }

  lemma LaterFollows(score: map<string, real>, order: seq<string>, i: nat, j: nat)
    requires IsSortedBy(score, order) && i < j < |order|
    ensures order[i] in score && order[j] in score && Leads(score, order[i], order[j])
  {
    hide Leads;
  }

  lemma {:induction false} FirstTurns(score: map<string, real>, keys: seq<string>, i: nat, p: string, q: string)
    requires IsSortedBy(score, keys) && i <= |keys| && p in keys[..i] && q in score && q !in keys[..i]
    ensures p in score && Leads(score, p, q)
  {
    hide Leads;
    var a :| 0 <= a < i && keys[..i][a] == p;
    assert q in keys;
    var b :| 0 <= b < |keys| && keys[b] == q;
    forall c | 0 <= c < i ensures keys[c] in keys[..i] {
      assert keys[..i][c] == keys[c];
    }
    LaterFollows(score, keys, a, b);
  }

  lemma {:induction false} MovedIsEven(room: map<string, int>, score: map<string, real>, keys: seq<string>, m: nat,
                                       i: nat)
    requires Rounds(room, keys) && IsSortedBy(score, keys) && i <= |keys|
    ensures Even(room, score, Moved(room, keys, m, i))
  {
    hide Leads;
    hide IsSortedBy;
    hide Distinct;
    var d := Moved(room, keys, m, i);
    assert score.Keys == room.Keys by { SortedSameKeys(room, score, keys); }
    forall p, q | p in d && q in d && p != q && d[q] < room[q]
      ensures d[p] <= d[q] + if Leads(score, p, q) then 1 else 0
    {
      if p in keys[..i] && q !in keys[..i] {
        FirstTurns(score, keys, i, p, q);
      }
    }
  }

  lemma SortedSameKeys(room: map<string, int>, score: map<string, real>, keys: seq<string>)
    requires IsSortedBy(score, keys) && forall k :: k in keys <==> k in room
    ensures score.Keys == room.Keys
  {
    hide Leads;
  }

  /** Being even decides what the rounds have moved. */
  lemma {:induction false} EvenIffMoved(room: map<string, int>, score: map<string, real>, keys: seq<string>,
                                        d: map<string, int>)
    requires Rounds(room, keys) && IsSortedBy(score, keys)
    ensures Even(room, score, d) <==> exists m: nat, i: nat :: i <= |keys| && d == Moved(room, keys, m, i)
  {
    hide Leads;
    hide IsSortedBy;
    hide Rounds;
    hide Moved;
    if m: nat, i: nat :| i <= |keys| && d == Moved(room, keys, m, i) {
      MovedIsEven(room, score, keys, m, i);
    }
    if Even(room, score, d) {
      EvenFits(room, score, d);
      ReachableIff(room, keys, Sum(d));
      var m: nat, i: nat :| i <= |keys| && Sum(Moved(room, keys, m, i)) == Sum(d);
      MovedIsEven(room, score, keys, m, i);
      EvenUnique(room, score, d, Moved(room, keys, m, i));
    }
  }

  lemma {:induction false} EvenFits(room: map<string, int>, score: map<string, real>, d: map<string, int>)
    requires Even(room, score, d)
    ensures 0 <= Sum(d) <= Sum(room)
  {
    hide Leads;
    var zeros := map k | k in d :: 0;
    SumLeq(zeros, d);
    SumConstant(zeros, 0);
    SumLeq(d, room);
  }

  /** A larger fraction, or the same and an earlier name. */
  predicate LargerFraction(raw: map<string, real>, p: string, q: string)
    requires p in raw && q in raw
  {
    var f, g := raw[p] - raw[p].Floor as real, raw[q] - raw[q].Floor as real;
    f > g || (f == g && StrLt(p, q))
  }

  /** What largest_remainder_rounding deals out above its start: no key below its cap is behind
      another by more than the one turn that a larger fraction has before it. */
  ghost predicate DealtEvenly(raw: map<string, real>, start: map<string, int>, hi: map<string, int>,
                              a: map<string, int>)
    requires raw.Keys == a.Keys == start.Keys == hi.Keys
  {
    && (forall k :: k in a ==> start[k] <= a[k] <= hi[k])
    && forall p, q :: p in a && q in a && p != q && a[q] < hi[q] ==>
      a[p] - start[p] <= a[q] - start[q] + if LargerFraction(raw, p, q) then 1 else 0
  }

  lemma FractionLeads(raw: map<string, real>, p: string, q: string)
    requires p in raw && q in raw && p != q
    ensures Leads(LargestRemainder.Priority(raw), p, q) <==> LargerFraction(raw, p, q)
  {
    hide StrLt;
  }

  lemma DealtIsEven(raw: map<string, real>, start: map<string, int>, hi: map<string, int>, a: map<string, int>)
    requires raw.Keys == a.Keys == start.Keys == hi.Keys
    ensures DealtEvenly(raw, start, hi, a) <==> Even(Less(hi, start), LargestRemainder.Priority(raw), Less(a, start))
  {
    hide LargerFraction;
    hide Leads;
    var score := LargestRemainder.Priority(raw);
    forall p, q | p in raw && q in raw && p != q ensures Leads(score, p, q) <==> LargerFraction(raw, p, q) {
      FractionLeads(raw, p, q);
    }
  }

  /** largest_remainder_rounding is determined: from the floors moved into the bounds it is the
      only vector with its sum that is dealt evenly. */
  lemma {:induction false} DealtDetermined(raw: map<string, real>, lo: map<string, int>, hi: map<string, int>,
                                           target: int, start: map<string, int>, a: map<string, int>)
    requires Rounding.Bounds(raw, lo, hi) && start.Keys == raw.Keys == a.Keys
    requires forall k :: k in raw ==> MovedInto(raw[k].Floor, lo[k], hi[k], start[k])
    ensures Sum(a) == Max(Sum(start), Min(target, Sum(hi))) ==>
      (a == LargestRemainder.Round(raw, lo, hi, target) <==> DealtEvenly(raw, start, hi, a))
  {
    hide LargestRemainder.Round;
    hide LargestRemainder.Priority;
    hide DealtEvenly;
    hide Even;
    hide Rounds;
    hide Sum;
    hide Moved;
    hide IsSortedBy;
    hide DealtRounds.Dealt;
    var score, out := LargestRemainder.Priority(raw), LargestRemainder.Round(raw, lo, hi, target);
    assert start == LargestRemainder.Floors(raw, lo, hi);
    var m, i := DealtRounds.RoundInRounds(raw, lo, hi, target);
    DealtRounds.RoomRounds(raw, lo, hi);
    LargestRemainder.RoundReaches(raw, lo, hi, target);
    MovedIsEven(Less(hi, start), score, DealtRounds.Order(raw), m, i);
    LessMore(start, Moved(Less(hi, start), DealtRounds.Order(raw), m, i));
    DealtIsEven(raw, start, hi, out);
    DealtIsEven(raw, start, hi, a);
    if DealtEvenly(raw, start, hi, a) && Sum(a) == Sum(out) {
      LessSum(a, start);
      LessSum(out, start);
      EvenUnique(Less(hi, start), score, Less(a, start), Less(out, start));
      LessInjective(a, out, start);
    }
  }

  lemma LessMore(start: map<string, int>, d: map<string, int>)
    requires start.Keys == d.Keys
    ensures Less(More(start, d), start) == d && Less(start, Less(start, d)) == d
  {
  }

  lemma LessInjective(a: map<string, int>, b: map<string, int>, start: map<string, int>)
    requires a.Keys == b.Keys == start.Keys && Less(a, start) == Less(b, start)
    ensures a == b
  {
    forall k | k in a ensures a[k] == b[k] {
      assert Less(a, start)[k] == Less(b, start)[k];
    }
  }

  /** Names alone. */
  function ByName(keys: set<string>): map<string, real> {
    map k | k in keys :: 0.0
  }

  lemma SortedByName(keys: set<string>)
    ensures IsSortedBy(ByName(keys), SortedKeys(keys)) && Distinct(SortedKeys(keys))
  {
    hide StrLt;
    hide Leads;
    var order := SortedKeys(keys);
    assert ByName(keys).Keys == keys;
    IncreasingDistinct(order);
    forall i, j | 0 <= i < j < |order| ensures Leads(ByName(keys), order[i], order[j]) {
      LaterName(order, i, j);
      NameLeads(keys, order[i], order[j]);
    }
    DistinctPlaces(order);
  }

  lemma DistinctPlaces(order: seq<string>)
    requires Distinct(order)
    ensures forall i, j :: 0 <= i < j < |order| ==> order[i] != order[j]
  {
  }

  lemma LaterName(order: seq<string>, i: nat, j: nat)
    requires Increasing(order) && i < j < |order|
    ensures StrLt(order[i], order[j])
  {
    hide StrLt;
  }

  lemma {:induction false} NameLeads(keys: set<string>, p: string, q: string)
    requires p in keys && q in keys && p != q
    ensures Leads(ByName(keys), p, q) <==> StrLt(p, q)
  {
    hide StrLt;
  }

  /** What is added to a start, or taken from it, turn by turn in the order of the names. */
  ghost predicate RaisedEvenly(start: map<string, int>, top: int, r: map<string, int>) {
    && r.Keys == start.Keys
    && (forall k :: k in r ==> start[k] <= r[k] <= top)
    && forall p, q :: p in r && q in r && p != q && r[q] < top ==>
      r[p] - start[p] <= r[q] - start[q] + if StrLt(p, q) then 1 else 0
  }

  ghost predicate LoweredEvenly(start: map<string, int>, bottom: int, r: map<string, int>) {
    && r.Keys == start.Keys
    && (forall k :: k in r ==> bottom <= r[k] <= start[k])
    && forall p, q :: p in r && q in r && p != q && bottom < r[q] ==>
      start[p] - r[p] <= start[q] - r[q] + if StrLt(p, q) then 1 else 0
  }

  lemma RaisedIsEven(start: map<string, int>, u: int, top: int, r: map<string, int>)
    requires r.Keys == start.Keys && forall k :: k in start ==> start[k] <= top && (u < top ==> start[k] == top)
    requires u <= top
    ensures RaisedEvenly(start, top, r) <==>
      Even(Baselines.RoomAbove(start, u), ByName(start.Keys), Less(r, start))
  {
    hide StrLt;
    hide Leads;
    var room := Baselines.RoomAbove(start, u);
    forall p, q | p in start && q in start && p != q
      ensures Leads(ByName(start.Keys), p, q) <==> StrLt(p, q)
    {
      NameLeads(start.Keys, p, q);
    }
    forall k | k in start ensures room[k] == top - start[k] {
    }
  }

  lemma LoweredIsEven(start: map<string, int>, bottom: int, r: map<string, int>)
    requires r.Keys == start.Keys
    ensures LoweredEvenly(start, bottom, r) <==>
      Even(Baselines.RoomBelow(start, bottom), ByName(start.Keys), Less(start, r))
  {
    hide StrLt;
    hide Leads;
    forall p, q | p in start && q in start && p != q
      ensures Leads(ByName(start.Keys), p, q) <==> StrLt(p, q)
    {
      NameLeads(start.Keys, p, q);
    }
  }

  lemma MoreIffLess(a: map<string, int>, d: map<string, int>, r: map<string, int>)
    requires a.Keys == d.Keys == r.Keys
    ensures r == More(a, d) <==> Less(r, a) == d
  {
    if Less(r, a) == d {
      forall k | k in r ensures r[k] == More(a, d)[k] {
        assert Less(r, a)[k] == d[k];
      }
    }
  }

  lemma LessIffMore(a: map<string, int>, d: map<string, int>, r: map<string, int>)
    requires a.Keys == d.Keys == r.Keys
    ensures r == Less(a, d) <==> Less(a, r) == d
  {
    if Less(a, r) == d {
      forall k | k in r ensures r[k] == Less(a, d)[k] {
        assert Less(a, r)[k] == d[k];
      }
    }
  }

  lemma {:induction false} RaisedIffState(clip: map<string, int>, budget: int, nMin: int, u: int, r: map<string, int>)
    requires r.Keys == clip.Keys && Sum(clip) < budget && forall k :: k in clip ==> nMin <= clip[k] <= Max(nMin, u)
    ensures RaisedEvenly(clip, Max(nMin, u), r) <==>
      exists m: nat, i: nat :: i <= |SortedKeys(clip.Keys)| &&
        r == Baselines.State(clip, SortedKeys(clip.Keys), budget, nMin, u, m, i)
  {
    hide Even;
    hide RaisedEvenly;
    hide IsSortedBy;
    hide Moved;
    hide Increasing;
    hide Distinct;
    hide Sum;
    var keys, above := SortedKeys(clip.Keys), Baselines.RoomAbove(clip, u);
    SortedByName(clip.Keys);
    RaisedIsEven(clip, u, Max(nMin, u), r);
    EvenIffMoved(above, ByName(clip.Keys), keys, Less(r, clip));
    forall m: nat, i: nat | i <= |keys|
      ensures r == Baselines.State(clip, keys, budget, nMin, u, m, i) <==> Less(r, clip) == Moved(above, keys, m, i)
    {
      MoreIffLess(clip, Moved(above, keys, m, i), r);
    }
  }

  lemma {:induction false} LoweredIffState(clip: map<string, int>, budget: int, nMin: int, u: int,
                                           r: map<string, int>)
    requires r.Keys == clip.Keys && Sum(clip) >= budget && forall k :: k in clip ==> nMin <= clip[k]
    ensures LoweredEvenly(clip, nMin, r) <==>
      exists m: nat, i: nat :: i <= |SortedKeys(clip.Keys)| &&
        r == Baselines.State(clip, SortedKeys(clip.Keys), budget, nMin, u, m, i)
  {
    hide Even;
    hide LoweredEvenly;
    hide IsSortedBy;
    hide Moved;
    hide Increasing;
    hide Distinct;
    hide Sum;
    var keys, below := SortedKeys(clip.Keys), Baselines.RoomBelow(clip, nMin);
    SortedByName(clip.Keys);
    LoweredIsEven(clip, nMin, r);
    EvenIffMoved(below, ByName(clip.Keys), keys, Less(clip, r));
    forall m: nat, i: nat | i <= |keys|
      ensures r == Baselines.State(clip, keys, budget, nMin, u, m, i) <==> Less(clip, r) == Moved(below, keys, m, i)
    {
      LessIffMore(clip, Moved(below, keys, m, i), r);
    }
  }

  /** The baselines: an allocation is what another is scaled to if and only if it spends the
      budget and comes from the clipped one by adding evenly, or by taking away evenly. */
  lemma {:induction false} ScaledIff(alloc: map<string, int>, budget: int, nMin: int, u: int, clip: map<string, int>,
                                     r: map<string, int>)
    requires clip.Keys == alloc.Keys && forall k :: k in alloc ==> MovedInto(alloc[k], nMin, Max(nMin, u), clip[k])
    ensures Baselines.IsScaled(alloc, budget, nMin, u, r) <==>
      && r.Keys == alloc.Keys && Sum(r) == budget
      && if Sum(clip) < budget then RaisedEvenly(clip, Max(nMin, u), r) else LoweredEvenly(clip, nMin, r)
  {
    hide RaisedEvenly;
    hide LoweredEvenly;
    hide Increasing;
    hide Sum;
    hide Baselines.State;
    assert clip == Baselines.Clip(alloc, nMin, u);
    if r.Keys == clip.Keys {
      if Sum(clip) < budget {
        RaisedIffState(clip, budget, nMin, u, r);
      } else {
        LoweredIffState(clip, budget, nMin, u, r);
      }
    }
  }
}
