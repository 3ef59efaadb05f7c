/** largest_remainder_rounding in closed form, and exactly when it is optimal for the squared
    error: for all bounds in order and every target. */
module DealtRounds {
  import opened Prelude
  import opened Dicts
  import opened Separable
  import opened Levelling
  import opened LargestRemainder
  import Rounding
  import StochasticRounding

  ghost function Room(raw: map<string, real>, lo: map<string, int>, hi: map<string, int>): (room: map<string, int>)
    requires Rounding.Bounds(raw, lo, hi)
    ensures room.Keys == raw.Keys
  {
    Less(hi, Floors(raw, lo, hi))
  }

  /** The order of dealing: larger fractions first. */
  ghost function Order(raw: map<string, real>): (order: seq<string>)
    ensures forall k :: k in order <==> k in raw
  {
    SortBy(Priority(raw))
  }

  lemma OrderDistinct(raw: map<string, real>)
    ensures Distinct(Order(raw))
  {
    hide Leads;
  }

  lemma {:induction false} RoomRounds(raw: map<string, real>, lo: map<string, int>, hi: map<string, int>)
    requires Rounding.Bounds(raw, lo, hi)
    ensures Rounds(Room(raw, lo, hi), Order(raw))
    ensures Sum(Room(raw, lo, hi)) == Sum(hi) - Sum(Floors(raw, lo, hi)) >= 0
  {
    hide Order;
    hide Distinct;
    hide Floors;
    hide Sum;
    OrderDistinct(raw);
    LessSum(hi, Floors(raw, lo, hi));
    SumLeq(Floors(raw, lo, hi), hi);
  }

  /** A pass deals along the order, and stops early only when nothing is left. */
  lemma {:induction false} PassMoves(order: seq<string>, start: map<string, int>, hi: map<string, int>,
                                     m: nat, i: nat, left: nat)
    returns (i': nat)
    requires start.Keys == hi.Keys && Rounds(Less(hi, start), order) && i <= |order|
    ensures i <= i' <= |order|
    ensures forall k :: k in order[i..] ==> k in start
    ensures var pass := DealOnce(order[i..], More(start, Moved(Less(hi, start), order, m, i)), hi, left);
      && pass.0 == More(start, Moved(Less(hi, start), order, m, i'))
      && (pass.1 == 0 || i' == |order|)
    decreases |order| - i
  {
    hide Moved;
    hide Rounds;
    hide DealOnce;
    RoundsKeys(Less(hi, start), order);
    var room := Less(hi, start);
    var out := More(start, Moved(room, order, m, i));
    if i == |order| || left == 0 {
      i' := i;
      PassEnds(order[i..], out, hi, left);
    } else {
      var key := order[i];
      assert order[i..][0] == key && order[i..][1..] == order[i + 1..];
      MovedStep(room, order, m, i);
      MoreSet(start, Moved(room, order, m, i), key, Min(room[key], m + 1));
      PassTurn(order[i..], out, hi, left);
      StepIs(start, hi, out, key, m, Moved(room, order, m, i + 1));
      i' := PassMoves(order, start, hi, m, i + 1, if out[key] < hi[key] then left - 1 else left);
    }
  }

  lemma RoundsKeys(room: map<string, int>, order: seq<string>)
    requires Rounds(room, order)
    ensures forall k :: k in order <==> k in room
    ensures forall i, k :: 0 <= i <= |order| && k in order[i..] ==> k in room
  {
  }

  lemma {:induction false} PassEnds(order: seq<string>, out: map<string, int>, hi: map<string, int>, left: nat)
    requires out.Keys == hi.Keys && (forall k :: k in order ==> k in out) && (order == [] || left == 0)
    ensures DealOnce(order, out, hi, left) == (out, left)
  {
  }

  lemma PassTurn(order: seq<string>, out: map<string, int>, hi: map<string, int>, left: nat)
    requires out.Keys == hi.Keys && (forall k :: k in order ==> k in out) && order != [] && left > 0
    ensures forall k :: k in order[1..] ==> k in order
    ensures DealOnce(order, out, hi, left) ==
      if out[order[0]] < hi[order[0]] then DealOnce(order[1..], out[order[0] := out[order[0]] + 1], hi, left - 1)
      else DealOnce(order[1..], out, hi, left)
  {
  }

  /** One key's turn is one step of the rounds. */
  lemma StepIs(start: map<string, int>, hi: map<string, int>, out: map<string, int>, key: string, m: nat,
               next: map<string, int>)
    requires start.Keys == hi.Keys == out.Keys == next.Keys && key in start
    requires out[key] == start[key] + Min(hi[key] - start[key], m)
    requires More(start, next) == out[key := start[key] + Min(hi[key] - start[key], m + 1)]
    ensures More(start, next) == if out[key] < hi[key] then out[key := out[key] + 1] else out
  {
  }

  /** Dealing is levelling: it ends in a state of the rounds. */
  lemma {:induction false} DealMoves(order: seq<string>, start: map<string, int>, lo: map<string, int>,
                                     hi: map<string, int>, m: nat, left: nat)
    returns (m': nat, i': nat)
    requires start.Keys == hi.Keys && Rounds(Less(hi, start), order)
    requires InBox(More(start, Moved(Less(hi, start), order, m, 0)), lo, hi)
    ensures i' <= |order| && forall k :: k in order ==> k in start
    ensures Deal(order, More(start, Moved(Less(hi, start), order, m, 0)), lo, hi, left)
      == More(start, Moved(Less(hi, start), order, m', i'))
    decreases left
  {
    hide Moved;
    hide Rounds;
    hide DealOnce;
    hide AnyRoom;
    hide InBox;
    RoundsKeys(Less(hi, start), order);
    var room := Less(hi, start);
    var out := More(start, Moved(room, order, m, 0));
    m', i' := m, 0;
    if left > 0 && AnyRoom(order, out, hi) {
      DealOnceBalances(order, out, lo, hi, left);
      assert order[0..] == order;
      i' := PassMoves(order, start, hi, m, 0, left);
      var pass := DealOnce(order, out, hi, left);
      if pass.1 > 0 {
        MovedWraps(room, order, m);
        m', i' := DealMoves(order, start, lo, hi, m + 1, pass.1);
      }
    }
  }

  /** How many units are dealt. */
  ghost function Units(raw: map<string, real>, lo: map<string, int>, hi: map<string, int>, target: int): int
    requires Rounding.Bounds(raw, lo, hi)
  {
    Min(Max(target - Sum(Floors(raw, lo, hi)), 0), Sum(Room(raw, lo, hi)))
  }

  lemma UnitsFit(raw: map<string, real>, lo: map<string, int>, hi: map<string, int>, target: int)
    requires Rounding.Bounds(raw, lo, hi)
    ensures 0 <= Units(raw, lo, hi, target) <= Sum(Room(raw, lo, hi))
  {
    hide Sum;
    hide Floors;
    hide Room;
    hide Order;
    hide Rounds;
    RoomRounds(raw, lo, hi);
  }

  /** What each key is dealt, from the inputs alone: the units go round in the order of the
      fractions, to every key with room, until they are used up. */
  ghost function Dealt(raw: map<string, real>, lo: map<string, int>, hi: map<string, int>,
                       target: int): (dealt: map<string, int>)
    requires Rounding.Bounds(raw, lo, hi)
    ensures dealt.Keys == raw.Keys && Sum(dealt) == Units(raw, lo, hi, target)
  {
    hide Moved;
    hide Order;
    hide Rounds;
    hide Floors;
    hide Room;
    RoomRounds(raw, lo, hi);
    UnitsFit(raw, lo, hi, target);
    ReachableIff(Room(raw, lo, hi), Order(raw), Units(raw, lo, hi, target));
    var m: nat, i: nat :| i <= |Order(raw)|
      && Sum(Moved(Room(raw, lo, hi), Order(raw), m, i)) == Units(raw, lo, hi, target);
    Moved(Room(raw, lo, hi), Order(raw), m, i)
  }

  lemma DealtIsMoved(raw: map<string, real>, lo: map<string, int>, hi: map<string, int>, target: int)
    returns (m: nat, i: nat)
    requires Rounding.Bounds(raw, lo, hi)
    ensures i <= |Order(raw)| && Dealt(raw, lo, hi, target) == Moved(Room(raw, lo, hi), Order(raw), m, i)
  {
    hide Moved;
    hide Order;
    hide Rounds;
    hide Floors;
    hide Room;
    RoomRounds(raw, lo, hi);
    UnitsFit(raw, lo, hi, target);
    ReachableIff(Room(raw, lo, hi), Order(raw), Units(raw, lo, hi, target));
    m, i :| i <= |Order(raw)| && Dealt(raw, lo, hi, target) == Moved(Room(raw, lo, hi), Order(raw), m, i);
  }

  lemma RoundInRounds(raw: map<string, real>, lo: map<string, int>, hi: map<string, int>, target: int)
    returns (m: nat, i: nat)
    requires Rounding.Bounds(raw, lo, hi)
    ensures i <= |Order(raw)|
    ensures Round(raw, lo, hi, target) == More(Floors(raw, lo, hi), Moved(Room(raw, lo, hi), Order(raw), m, i))
  {
    hide Deal;
    hide Moved;
    hide Rounds;
    hide SortBy;
    hide IsSortedBy;
    hide Floors;
    hide Sum;
    var start, room, order := Floors(raw, lo, hi), Room(raw, lo, hi), Order(raw);
    RoomRounds(raw, lo, hi);
    NothingMoved(room, order);
    assert More(start, Moved(room, order, 0, 0)) == start;
    m, i := DealMoves(order, start, lo, hi, 0, Max(target - Sum(start), 0));
  }

  /** The rounding in closed form. */
  lemma {:induction false} RoundIsDealt(raw: map<string, real>, lo: map<string, int>, hi: map<string, int>,
                                        target: int)
    requires Rounding.Bounds(raw, lo, hi)
    ensures Round(raw, lo, hi, target) == More(Floors(raw, lo, hi), Dealt(raw, lo, hi, target))
  {
    hide Round;
    hide Moved;
    hide Order;
    hide Room;
    hide Floors;
    hide Dealt;
    hide More;
    hide Sum;
    var m, i := RoundInRounds(raw, lo, hi, target);
    MoreSum(Floors(raw, lo, hi), Moved(Room(raw, lo, hi), Order(raw), m, i));
    RoundReaches(raw, lo, hi, target);
    RoomRounds(raw, lo, hi);
    var m', i' := DealtIsMoved(raw, lo, hi, target);
    MovedUnique(Room(raw, lo, hi), Order(raw), m, i, m', i');
  }

  /** The second key is owed no more than a unit beyond what is left of the first. */
  predicate Fair(raw: map<string, real>, out: map<string, int>, p: string, q: string)
    requires p in raw && q in raw && p in out && q in out
  {
    raw[q] - out[q] as real <= raw[p] - out[p] as real + 1.0
  }

  lemma FairIsSwapTest(raw: map<string, real>, out: map<string, int>, p: string, q: string)
    requires p in raw && q in raw && p in out && q in out
    ensures Marginal(Rounding.SquaredError(raw), p, out[p] - 1) <= Marginal(Rounding.SquaredError(raw), q, out[q])
      <==> Fair(raw, out, p, q)
  {
    hide Marginal;
    hide Rounding.SquaredError;
    StochasticRounding.SwapTest(raw, out, p, q);
  }

  /** No key that its lower bound has lifted above its raw value is dealt a unit while another
      key with room is owed more. */
  ghost predicate LiftedWait(raw: map<string, real>, lo: map<string, int>, hi: map<string, int>, target: int)
    requires Rounding.Bounds(raw, lo, hi)
  {
    var dealt := Dealt(raw, lo, hi, target);
    var out := More(Floors(raw, lo, hi), dealt);
    forall p, q :: p in raw && q in raw && raw[p] < lo[p] as real && dealt[p] > 0 && out[q] < hi[q]
      ==> Fair(raw, out, p, q)
  }

  /** What is known of a key that was dealt e units. */
  lemma DealtAt(raw: map<string, real>, lo: map<string, int>, hi: map<string, int>, k: string, e: int)
    requires Rounding.Bounds(raw, lo, hi) && k in raw && e >= 0
    ensures var s := Floors(raw, lo, hi)[k];
      && (s < hi[k] ==> raw[k] - s as real <= Fraction(raw[k]) < 1.0)
      && (s < hi[k] && raw[k] >= lo[k] as real ==> raw[k] - s as real == Fraction(raw[k]))
      && (e == 0 && lo[k] < s + e ==> raw[k] - s as real >= 0.0)
  {
  }

  /** Two keys in a state of the rounds: the one that may still take a unit is behind by one at
      most, and then it comes later in the order. */
  lemma RoundsApart(raw: map<string, real>, room: map<string, int>, m: nat, i: nat, p: string, q: string)
    requires room.Keys == raw.Keys && i <= |Order(raw)| && p in raw && q in raw
    requires Moved(room, Order(raw), m, i)[q] < room[q]
    ensures Moved(room, Order(raw), m, i)[p] <= Moved(room, Order(raw), m, i)[q] + 1
    ensures Moved(room, Order(raw), m, i)[p] == Moved(room, Order(raw), m, i)[q] + 1 ==>
      Fraction(raw[p]) >= Fraction(raw[q])
  {
    hide SortBy;
    hide Fraction;
    var order := Order(raw);
    if Moved(room, order, m, i)[p] == Moved(room, order, m, i)[q] + 1 {
      assert p in order[..i] && q !in order[..i];
      var a :| 0 <= a < i && order[a] == p;
      assert q in order;
      var b :| 0 <= b < |order| && order[b] == q;
      assert forall j :: 0 <= j < i ==> order[..i][j] == order[j];
      assert i <= b;
      assert Leads(Priority(raw), order[a], order[b]);
    }
  }

  /** A key that was not lifted never has a unit too many. */
  lemma UnliftedFair(raw: map<string, real>, lo: map<string, int>, hi: map<string, int>, m: nat, i: nat,
                     p: string, q: string)
    requires Rounding.Bounds(raw, lo, hi) && i <= |Order(raw)| && p in raw && q in raw
    requires var dealt := Moved(Room(raw, lo, hi), Order(raw), m, i);
      var out := More(Floors(raw, lo, hi), dealt);
      lo[p] < out[p] && out[q] < hi[q] && (dealt[p] == 0 || raw[p] >= lo[p] as real)
    ensures Fair(raw, More(Floors(raw, lo, hi), Moved(Room(raw, lo, hi), Order(raw), m, i)), p, q)
  {
    hide Floors;
    hide Order;
    hide Moved;
    hide Rounds;
    hide Fraction;
    var start, room := Floors(raw, lo, hi), Room(raw, lo, hi);
    var dealt := Moved(room, Order(raw), m, i);
    RoomRounds(raw, lo, hi);
    MovedWithin(room, Order(raw), m, i);
    RoundsApart(raw, room, m, i, p, q);
    FractionUnit(raw[p]);
    DealtAt(raw, lo, hi, p, dealt[p]);
    DealtAt(raw, lo, hi, q, dealt[q]);
  }

  lemma FractionUnit(x: real)
    ensures 0.0 <= Fraction(x) < 1.0
  {
  }

  /** No key that could give a unit away is owed less than one that could take it. */
  ghost predicate AllFair(raw: map<string, real>, out: map<string, int>, lo: map<string, int>, hi: map<string, int>)
    requires Rounding.Bounds(raw, lo, hi) && out.Keys == raw.Keys
  {
    forall p, q :: p in raw && q in raw && lo[p] < out[p] && out[q] < hi[q] ==> Fair(raw, out, p, q)
  }

  lemma StableIffFair(raw: map<string, real>, out: map<string, int>, lo: map<string, int>, hi: map<string, int>)
    requires Rounding.Bounds(raw, lo, hi) && InBox(out, lo, hi)
    ensures Stable(Rounding.SquaredError(raw), out, lo, hi) <==> AllFair(raw, out, lo, hi)
  {
    hide Fair;
    hide Marginal;
    hide Rounding.SquaredError;
    forall p, q | p in raw && q in raw
      ensures Marginal(Rounding.SquaredError(raw), p, out[p] - 1) <= Marginal(Rounding.SquaredError(raw), q, out[q])
        <==> Fair(raw, out, p, q)
    {
      FairIsSwapTest(raw, out, p, q);
    }
  }

  lemma WaitingSwap(raw: map<string, real>, lo: map<string, int>, hi: map<string, int>, target: int,
                    p: string, q: string)
    requires Rounding.Bounds(raw, lo, hi) && LiftedWait(raw, lo, hi, target) && p in raw && q in raw
    requires var out := More(Floors(raw, lo, hi), Dealt(raw, lo, hi, target)); lo[p] < out[p] && out[q] < hi[q]
    ensures Fair(raw, More(Floors(raw, lo, hi), Dealt(raw, lo, hi, target)), p, q)
  {
    hide Floors;
    hide Dealt;
    hide Room;
    hide Order;
    hide Moved;
    hide Fair;
    hide More;
    var dealt := Dealt(raw, lo, hi, target);
    var m, i := DealtIsMoved(raw, lo, hi, target);
    DealtPositive(raw, lo, hi, m, i, p);
    if dealt[p] == 0 || raw[p] >= lo[p] as real {
      UnliftedFair(raw, lo, hi, m, i, p, q);
    }
  }

  lemma FairIffWait(raw: map<string, real>, lo: map<string, int>, hi: map<string, int>, target: int)
    requires Rounding.Bounds(raw, lo, hi)
    ensures AllFair(raw, More(Floors(raw, lo, hi), Dealt(raw, lo, hi, target)), lo, hi)
      <==> LiftedWait(raw, lo, hi, target)
  {
    hide Floors;
    hide Dealt;
    hide Fair;
    var dealt := Dealt(raw, lo, hi, target);
    var out := More(Floors(raw, lo, hi), dealt);
    if LiftedWait(raw, lo, hi, target) {
      forall p, q | p in raw && q in raw && lo[p] < out[p] && out[q] < hi[q] ensures Fair(raw, out, p, q) {
        WaitingSwap(raw, lo, hi, target, p, q);
      }
    }
    if AllFair(raw, out, lo, hi) {
      forall p, q | p in raw && q in raw && raw[p] < lo[p] as real && dealt[p] > 0 && out[q] < hi[q]
        ensures Fair(raw, out, p, q)
      {
        FloorsAtLeast(raw, lo, hi, p);
      }
    }
  }

  lemma FloorsAtLeast(raw: map<string, real>, lo: map<string, int>, hi: map<string, int>, p: string)
    requires Rounding.Bounds(raw, lo, hi) && p in raw
    ensures Floors(raw, lo, hi)[p] >= lo[p]
  {
  }

  lemma DealtPositive(raw: map<string, real>, lo: map<string, int>, hi: map<string, int>, m: nat, i: nat, p: string)
    requires Rounding.Bounds(raw, lo, hi) && i <= |Order(raw)| && p in raw
    ensures Moved(Room(raw, lo, hi), Order(raw), m, i)[p] >= 0
  {
    hide Order;
    RoomRounds(raw, lo, hi);
    MovedWithin(Room(raw, lo, hi), Order(raw), m, i);
  }

  /** Exactly when the rounding is optimal among all integer vectors within the bounds with its
      sum: when lifted keys wait. */
  lemma RoundOptimalIff(raw: map<string, real>, lo: map<string, int>, hi: map<string, int>, target: int)
    requires Rounding.Bounds(raw, lo, hi)
    ensures Optimal(Rounding.SquaredError(raw), Round(raw, lo, hi, target), lo, hi) <==>
      LiftedWait(raw, lo, hi, target)
  {
    hide Round;
    hide Floors;
    hide Dealt;
    hide LiftedWait;
    hide AllFair;
    hide Optimal;
    hide Stable;
    hide Convex;
    hide Rounding.SquaredError;
    RoundIsDealt(raw, lo, hi, target);
    FairIffWait(raw, lo, hi, target);
    StableIffFair(raw, Round(raw, lo, hi, target), lo, hi);
    Rounding.ErrorConvex(raw, lo, hi);
    OptimalIffStable(Rounding.SquaredError(raw), Round(raw, lo, hi, target), lo, hi);
  }

  /** Bounds that are not in order are dealt with as the bounds in force. */
  lemma CrossedDealt(raw: map<string, real>, lo: map<string, int>, hi: map<string, int>, target: int)
    requires raw.Keys == lo.Keys == hi.Keys
    ensures Rounding.Bounds(raw, Rounding.Lows(lo, hi), hi)
    ensures Round(raw, lo, hi, target) == Round(raw, Rounding.Lows(lo, hi), hi, target)
  {
    hide Deal;
    hide SortBy;
    hide IsSortedBy;
    hide Priority;
    hide Floors;
    hide Sum;
    CrossedFloors(raw, lo, hi);
  }

  lemma CrossedFloors(raw: map<string, real>, lo: map<string, int>, hi: map<string, int>)
    requires raw.Keys == lo.Keys == hi.Keys
    ensures Floors(raw, lo, hi) == Floors(raw, Rounding.Lows(lo, hi), hi)
    ensures Rounding.Lows(Rounding.Lows(lo, hi), hi) == Rounding.Lows(lo, hi)
  {
  }

  /** So it is optimal for every target whenever no raw value with room is below its bound. */
  lemma NothingLifted(raw: map<string, real>, lo: map<string, int>, hi: map<string, int>, target: int)
    requires Rounding.Bounds(raw, lo, hi)
    requires forall k :: k in raw ==> raw[k] >= lo[k] as real || lo[k] == hi[k]
    ensures Optimal(Rounding.SquaredError(raw), Round(raw, lo, hi, target), lo, hi)
  {
    hide Round;
    hide Optimal;
    hide Rounding.SquaredError;
    hide Order;
    RoundOptimalIff(raw, lo, hi, target);
    var dealt := Dealt(raw, lo, hi, target);
    RoomRounds(raw, lo, hi);
    var m, i := DealtIsMoved(raw, lo, hi, target);
    MovedWithin(Room(raw, lo, hi), Order(raw), m, i);
  }

  /** And it misses the optimum when a lifted key has the largest fraction and the first unit
      goes to it, although another key is owed more. */
  lemma LiftedTakesFirst(raw: map<string, real>, lo: map<string, int>, hi: map<string, int>, p: string, q: string)
    requires Rounding.Bounds(raw, lo, hi) && Order(raw) != [] && p == Order(raw)[0] && p in raw && q in raw && p != q
    requires raw[p] < lo[p] as real && lo[p] < hi[p] && Floors(raw, lo, hi)[q] < hi[q]
    requires raw[q] - Floors(raw, lo, hi)[q] as real > raw[p] - lo[p] as real
    ensures !Optimal(Rounding.SquaredError(raw), Round(raw, lo, hi, Sum(Floors(raw, lo, hi)) + 1), lo, hi)
  {
    hide Round;
    hide Optimal;
    hide Rounding.SquaredError;
    hide Order;
    hide Dealt;
    hide Floors;
    hide Sum;
    var target := Sum(Floors(raw, lo, hi)) + 1;
    RoundOptimalIff(raw, lo, hi, target);
    LiftedFloor(raw, lo, hi, p);
    OneDealt(raw, lo, hi, p, q);
    assert !Fair(raw, More(Floors(raw, lo, hi), Dealt(raw, lo, hi, target)), p, q);
  }

  lemma LiftedFloor(raw: map<string, real>, lo: map<string, int>, hi: map<string, int>, p: string)
    requires Rounding.Bounds(raw, lo, hi) && p in raw && raw[p] < lo[p] as real
    ensures Floors(raw, lo, hi)[p] == lo[p]
  {
  }

  lemma {:induction false} OneDealt(raw: map<string, real>, lo: map<string, int>, hi: map<string, int>, p: string,
                                    q: string)
    requires Rounding.Bounds(raw, lo, hi) && Order(raw) != [] && p == Order(raw)[0] && p in raw && q in raw && p != q
    requires Floors(raw, lo, hi)[p] < hi[p]
    ensures var dealt := Dealt(raw, lo, hi, Sum(Floors(raw, lo, hi)) + 1); dealt[p] == 1 && dealt[q] == 0
  {
    hide Order;
    hide Moved;
    hide Rounds;
    hide Floors;
    hide Sum;
    hide Dealt;
    var room, order := Room(raw, lo, hi), Order(raw);
    RoomRounds(raw, lo, hi);
    NothingMoved(room, order);
    StepSum(room, order, 0, 0);
    MovedStep(room, order, 0, 0);
    MovedFits(room, order, 0, 1);
    var m, i := DealtIsMoved(raw, lo, hi, Sum(Floors(raw, lo, hi)) + 1);
    MovedUnique(room, order, 0, 1, m, i);
  }
}
