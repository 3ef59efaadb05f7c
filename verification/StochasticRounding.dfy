/** When is the stochastic strategy optimal whatever is drawn? Its start is the floors with one
    unit more at some of the keys that are open to both roundings; everything depends on
    whether the target leaves a choice among them. */
module StochasticRounding {
  import opened Prelude
  import opened Dicts
  import opened Separable
  import opened Rounding
  import opened LargestRemainder

  /** The keys that may be rounded either way within their bounds. */
  function OpenKeys(raw: map<string, real>, lo: map<string, int>, hi: map<string, int>): (keys: set<string>)
    requires Bounds(raw, lo, hi)
    ensures keys <= raw.Keys
  {
    set k | k in raw && Fraction(raw[k]) > 0.0 && lo[k] <= raw[k].Floor < hi[k]
  }

  /** One unit more at each of these keys. */
  function Bumped(a: map<string, int>, keys: set<string>): (b: map<string, int>)
    ensures b.Keys == a.Keys
  {
    map k | k in a :: a[k] + if k in keys then 1 else 0
  }

  lemma {:induction false} BumpedSum(a: map<string, int>, keys: set<string>)
    requires keys <= a.Keys
    ensures Sum(Bumped(a, keys)) == Sum(a) + |keys|
  {
    if keys == {} {
      assert Bumped(a, keys) == a;
    } else {
      var k :| k in keys;
      var rest := keys - {k};
      BumpedSum(a, rest);
      SumSet(Bumped(a, rest), k, a[k] + 1);
      assert Bumped(a, keys) == Bumped(a, rest)[k := a[k] + 1];
    }
  }

  lemma BumpOne(a: map<string, int>, keys: set<string>, k: string)
    requires k in a && k !in keys
    ensures Bumped(a, keys + {k}) == Bumped(a, keys)[k := Bumped(a, keys)[k] + 1]
    ensures Bumped(a, keys) == Bumped(a, keys + {k})[k := Bumped(a, keys + {k})[k] - 1]
  {
  }

  /** What a generator of numbers in [0, 1) may produce. */
  ghost predicate Drawn(raw: map<string, real>, draws: map<string, real>) {
    raw.Keys <= draws.Keys && forall k :: k in raw ==> 0.0 <= draws[k] < 1.0
  }

  /** The open keys that a draw rounds up. */
  function DrawnUp(raw: map<string, real>, lo: map<string, int>, hi: map<string, int>,
                   draws: map<string, real>): (keys: set<string>)
    requires Bounds(raw, lo, hi) && raw.Keys <= draws.Keys
    ensures keys <= OpenKeys(raw, lo, hi)
  {
    set k | k in OpenKeys(raw, lo, hi) && draws[k] < Fraction(raw[k])
  }

  lemma StartIsBumped(raw: map<string, real>, lo: map<string, int>, hi: map<string, int>, draws: map<string, real>)
    requires Bounds(raw, lo, hi) && Drawn(raw, draws)
    ensures Rounded(Stochastic, raw, lo, hi, draws) == Bumped(Floors(raw, lo, hi), DrawnUp(raw, lo, hi, draws))
  {
  }

  /** What is known of an open and of a closed key when the floors are bumped at some keys. */
  lemma BumpedAt(raw: map<string, real>, lo: map<string, int>, hi: map<string, int>, up: set<string>, k: string)
    requires Bounds(raw, lo, hi) && up <= OpenKeys(raw, lo, hi) && k in raw
    ensures var out := Bumped(Floors(raw, lo, hi), up);
      var d := raw[k] - out[k] as real;
      && lo[k] <= out[k] <= hi[k]
      && (k in up ==> lo[k] < out[k] && d == Fraction(raw[k]) - 1.0 < 0.0)
      && (k in OpenKeys(raw, lo, hi) && k !in up ==> out[k] < hi[k] && d == Fraction(raw[k]) > 0.0)
      && (k !in OpenKeys(raw, lo, hi) && out[k] < hi[k] ==> d <= 0.0)
      && (k !in up && lo[k] < out[k] ==> d >= 0.0)
  {
  }

  lemma BumpedInBox(raw: map<string, real>, lo: map<string, int>, hi: map<string, int>, up: set<string>)
    requires Bounds(raw, lo, hi) && up <= OpenKeys(raw, lo, hi)
    ensures InBox(Bumped(Floors(raw, lo, hi), up), lo, hi)
  {
    forall k | k in raw ensures lo[k] <= Bumped(Floors(raw, lo, hi), up)[k] <= hi[k] {
      BumpedAt(raw, lo, hi, up, k);
    }
  }

  /** No open key that is not rounded up has a larger fraction than one that is. */
  ghost predicate Ordered(raw: map<string, real>, open: set<string>, up: set<string>)
    requires up <= open <= raw.Keys
  {
    forall p, q :: p in up && q in open && q !in up ==> Fraction(raw[q]) <= Fraction(raw[p])
  }

  /** The unit test in terms of what is left to round. */
  lemma SwapTest(raw: map<string, real>, out: map<string, int>, p: string, q: string)
    requires p in raw && q in raw && p in out && q in out
    ensures Marginal(SquaredError(raw), p, out[p] - 1) <= Marginal(SquaredError(raw), q, out[q])
      <==> raw[q] - out[q] as real <= raw[p] - out[p] as real + 1.0
  {
    ErrorMarginal(raw, p, out[p] - 1);
    ErrorMarginal(raw, q, out[q]);
  }

  /** The floors bumped at some open keys are exchange-stable exactly if those are the ones
      with the largest fractions. */
  lemma BumpedStableIff(raw: map<string, real>, lo: map<string, int>, hi: map<string, int>, up: set<string>)
    requires Bounds(raw, lo, hi) && up <= OpenKeys(raw, lo, hi)
    requires InBox(Bumped(Floors(raw, lo, hi), up), lo, hi)
    ensures Stable(SquaredError(raw), Bumped(Floors(raw, lo, hi), up), lo, hi) <==>
      Ordered(raw, OpenKeys(raw, lo, hi), up)
  {
    hide Bumped;
    hide Floors;
    hide OpenKeys;
    hide Marginal;
    hide SquaredError;
    hide Fraction;
    if Ordered(raw, OpenKeys(raw, lo, hi), up) {
      OrderedStable(raw, lo, hi, up);
    }
    var out, open := Bumped(Floors(raw, lo, hi), up), OpenKeys(raw, lo, hi);
    if Stable(SquaredError(raw), out, lo, hi) {
      forall p, q | p in up && q in open && q !in up ensures Fraction(raw[q]) <= Fraction(raw[p]) {
        BumpedAt(raw, lo, hi, up, p);
        BumpedAt(raw, lo, hi, up, q);
        SwapTest(raw, out, p, q);
      }
    }
  }

  lemma OrderedStable(raw: map<string, real>, lo: map<string, int>, hi: map<string, int>, up: set<string>)
    requires Bounds(raw, lo, hi) && up <= OpenKeys(raw, lo, hi)
    requires InBox(Bumped(Floors(raw, lo, hi), up), lo, hi) && Ordered(raw, OpenKeys(raw, lo, hi), up)
    ensures Stable(SquaredError(raw), Bumped(Floors(raw, lo, hi), up), lo, hi)
  {
    hide Bumped;
    hide Floors;
    hide OpenKeys;
    hide Marginal;
    hide SquaredError;
    hide Fraction;
    var out := Bumped(Floors(raw, lo, hi), up);
    forall p, q | p in out && q in out && lo[p] < out[p] && out[q] < hi[q]
      ensures Marginal(SquaredError(raw), p, out[p] - 1) <= Marginal(SquaredError(raw), q, out[q])
    {
      SwapTest(raw, out, p, q);
      BumpedAt(raw, lo, hi, up, p);
      BumpedAt(raw, lo, hi, up, q);
      FractionBelowOne(raw[p]);
      FractionBelowOne(raw[q]);
    }
  }

  lemma FractionBelowOne(x: real)
    ensures 0.0 <= Fraction(x) < 1.0
  {
  }

  /** Lowering begins at the keys that were rounded up: a start above the target comes by the
      floors before it goes below them. */
  lemma {:induction false} LowersToFloors(raw: map<string, real>, lo: map<string, int>, hi: map<string, int>,
                                          up: set<string>, target: int)
    requires Bounds(raw, lo, hi) && up <= OpenKeys(raw, lo, hi) && target <= Sum(Floors(raw, lo, hi))
    ensures Lowered(raw, lo, Bumped(Floors(raw, lo, hi), up), target) == Lowered(raw, lo, Floors(raw, lo, hi), target)
    decreases |up|
  {
    hide Lowered;
    hide Floors;
    hide OpenKeys;
    hide Excesses;
    hide IsFirst;
    hide Bumped;
    var floors := Floors(raw, lo, hi);
    var out := Bumped(floors, up);
    if up == {} {
      NoneBumped(floors);
    } else {
      BumpedSum(floors, up);
      LoweredOnce(raw, lo, out, target);
      var key := FirstExcess(raw, lo, hi, up);
      BumpOne(floors, up - {key}, key);
      assert up - {key} + {key} == up;
      LowersToFloors(raw, lo, hi, up - {key}, target);
    }
  }

  lemma FirstExcess(raw: map<string, real>, lo: map<string, int>, hi: map<string, int>, up: set<string>)
    returns (key: string)
    requires Bounds(raw, lo, hi) && up <= OpenKeys(raw, lo, hi) && up != {}
    ensures var excess := Excesses(raw, Bumped(Floors(raw, lo, hi), up), lo);
      excess != map[] && key == First(excess) && key in up
  {
    hide Bumped;
    hide Floors;
    hide OpenKeys;
    hide StrLt;
    hide Fraction;
    var out := Bumped(Floors(raw, lo, hi), up);
    var excess := Excesses(raw, out, lo);
    var k :| k in up;
    BumpedAt(raw, lo, hi, up, k);
    assert k in excess;
    key := First(excess);
    assert Leads(excess, key, k);
    BumpedAt(raw, lo, hi, up, key);
  }

  /** Raising begins at the open keys that were rounded down. */
  lemma {:induction false} RaisesToCeilings(raw: map<string, real>, lo: map<string, int>, hi: map<string, int>,
                                            up: set<string>, target: int)
    requires Bounds(raw, lo, hi) && up <= OpenKeys(raw, lo, hi)
    requires target >= Sum(Floors(raw, lo, hi)) + |OpenKeys(raw, lo, hi)|
    ensures var floors := Floors(raw, lo, hi);
      Raised(raw, hi, Bumped(floors, up), target) == Raised(raw, hi, Bumped(floors, OpenKeys(raw, lo, hi)), target)
    decreases |OpenKeys(raw, lo, hi) - up|
  {
    hide Raised;
    hide Floors;
    hide OpenKeys;
    hide Shortfalls;
    hide IsFirst;
    hide Bumped;
    hide InBox;
    hide Lows;
    hide First;
    var floors, open := Floors(raw, lo, hi), OpenKeys(raw, lo, hi);
    var out := Bumped(floors, up);
    if up != open {
      BumpedSum(floors, up);
      SmallerSet(up, open);
      RaisedOnce(raw, hi, out, target);
      var key := FirstShortfall(raw, lo, hi, up);
      BumpOne(floors, up, key);
      assert open - (up + {key}) == open - up - {key};
      RaisesToCeilings(raw, lo, hi, up + {key}, target);
    }
  }

  lemma SmallerSet<T>(a: set<T>, b: set<T>)
    requires a <= b && a != b
    ensures |a| < |b|
  {
    assert b == a + (b - a) && b - a != {};
  }

  lemma FirstShortfall(raw: map<string, real>, lo: map<string, int>, hi: map<string, int>, up: set<string>)
    returns (key: string)
    requires Bounds(raw, lo, hi) && up <= OpenKeys(raw, lo, hi) && up != OpenKeys(raw, lo, hi)
    ensures var short := Shortfalls(raw, Bumped(Floors(raw, lo, hi), up), hi);
      short != map[] && key == First(short) && key in OpenKeys(raw, lo, hi) && key !in up
  {
    hide Bumped;
    hide Floors;
    hide OpenKeys;
    hide StrLt;
    hide Fraction;
    var out := Bumped(Floors(raw, lo, hi), up);
    var short := Shortfalls(raw, out, hi);
    var k :| k in OpenKeys(raw, lo, hi) && k !in up;
    BumpedAt(raw, lo, hi, up, k);
    assert k in short;
    key := First(short);
    assert Leads(short, key, k);
    BumpedAt(raw, lo, hi, up, key);
  }

  /** The target leaves no choice among the open keys, or none that matters. */
  ghost predicate NoChoice(raw: map<string, real>, lo: map<string, int>, hi: map<string, int>, target: int)
    requires Bounds(raw, lo, hi)
  {
    var floors, open := Floors(raw, lo, hi), OpenKeys(raw, lo, hi);
    || target <= Sum(floors)
    || target >= Sum(floors) + |open|
    || forall p, q :: p in open && q in open ==> Fraction(raw[p]) == Fraction(raw[q])
  }

  lemma {:induction false} StableFromStable(raw: map<string, real>, lo: map<string, int>, hi: map<string, int>,
                                            start: map<string, int>, target: int)
    requires Bounds(raw, lo, hi) && InBox(start, lo, hi) && Stable(SquaredError(raw), start, lo, hi)
    ensures var out := Lowered(raw, lo, Raised(raw, hi, start, target), target);
      InBox(out, lo, hi) && Stable(SquaredError(raw), out, lo, hi)
  {
    hide Stable;
    hide Raised;
    hide Lowered;
    var raised := Raised(raw, hi, start, target);
    RaisedReaches(raw, lo, hi, start, target);
    LoweredReaches(raw, lo, hi, raised, target);
    RaisedStable(raw, lo, hi, start, target);
    LoweredStable(raw, lo, hi, raised, target);
  }

  /** Without a choice every draw leads to an exchange-stable vector. */
  lemma {:induction false} NoChoiceStable(raw: map<string, real>, lo: map<string, int>, hi: map<string, int>,
                                          target: int, up: set<string>)
    requires Bounds(raw, lo, hi) && up <= OpenKeys(raw, lo, hi) && NoChoice(raw, lo, hi, target)
    ensures var out := Lowered(raw, lo, Raised(raw, hi, Bumped(Floors(raw, lo, hi), up), target), target);
      InBox(out, lo, hi) && Stable(SquaredError(raw), out, lo, hi)
  {
    hide Stable;
    hide Raised;
    hide Lowered;
    hide Bumped;
    hide Floors;
    hide OpenKeys;
    hide Fraction;
    var floors, open := Floors(raw, lo, hi), OpenKeys(raw, lo, hi);
    var out := Bumped(floors, up);
    BumpedSum(floors, up);
    BumpedSum(floors, open);
    BumpedInBox(raw, lo, hi, up);
    BumpedInBox(raw, lo, hi, open);
    BumpedInBox(raw, lo, hi, {});
    BumpedStableIff(raw, lo, hi, up);
    BumpedStableIff(raw, lo, hi, open);
    BumpedStableIff(raw, lo, hi, {});
    NoneBumped(floors);
    if target <= Sum(floors) {
      RaisedOnce(raw, hi, out, target);
      RaisedOnce(raw, hi, floors, target);
      LowersToFloors(raw, lo, hi, up, target);
      StableFromStable(raw, lo, hi, floors, target);
    } else if target >= Sum(floors) + |open| {
      RaisesToCeilings(raw, lo, hi, up, target);
      StableFromStable(raw, lo, hi, Bumped(floors, open), target);
    } else {
      StableFromStable(raw, lo, hi, out, target);
    }
  }

  lemma NoneBumped(a: map<string, int>)
    ensures Bumped(a, {}) == a
  {
  }

  lemma {:induction false} SubsetOfSize(keys: set<string>, m: nat) returns (part: set<string>)
    requires m <= |keys|
    ensures part <= keys && |part| == m
  {
    if m == 0 {
      part := {};
    } else {
      var k :| k in keys;
      var smaller := SubsetOfSize(keys - {k}, m - 1);
      part := smaller + {k};
    }
  }

  /** A set of m open keys with one key in it and another one, of a larger fraction, left out. */
  lemma WrongChoice(raw: map<string, real>, open: set<string>, m: nat, p: string, q: string) returns (up: set<string>)
    requires open <= raw.Keys && p in open && q in open && Fraction(raw[p]) < Fraction(raw[q])
    requires 0 < m < |open|
    ensures up <= open && |up| == m && !Ordered(raw, open, up)
  {
    hide Fraction;
    var others := open - {p, q};
    assert open == others + {p, q} && |{p, q}| == 2;
    var part := SubsetOfSize(others, m - 1);
    up := part + {p};
    assert p in up && q in open && q !in up;
  }

  /** Draws that round up exactly these open keys. */
  function DrawsFor(raw: map<string, real>, up: set<string>): (draws: map<string, real>)
    ensures Drawn(raw, draws) && draws.Keys == raw.Keys
  {
    map k | k in raw :: if k in up then 0.0 else Fraction(raw[k])
  }

  lemma DrawsForUp(raw: map<string, real>, lo: map<string, int>, hi: map<string, int>, up: set<string>)
    requires Bounds(raw, lo, hi) && up <= OpenKeys(raw, lo, hi)
    ensures DrawnUp(raw, lo, hi, DrawsFor(raw, up)) == up
  {
  }

  /** Every result of the strategy is optimal. */
  ghost predicate AlwaysOptimal(raw: map<string, real>, lo: map<string, int>, hi: map<string, int>, target: int)
    requires Bounds(raw, lo, hi)
  {
    forall draws :: Drawn(raw, draws) ==> Optimal(SquaredError(raw),
      Rounding.Round(Stochastic, raw, lo, hi, target, draws), lo, hi)
  }

  lemma NoChoiceOptimal(raw: map<string, real>, lo: map<string, int>, hi: map<string, int>, target: int,
                        draws: map<string, real>)
    requires Bounds(raw, lo, hi) && Drawn(raw, draws) && NoChoice(raw, lo, hi, target)
    ensures Optimal(SquaredError(raw), Rounding.Round(Stochastic, raw, lo, hi, target, draws), lo, hi)
  {
    hide Stable;
    hide Optimal;
    hide Raised;
    hide Lowered;
    hide Rounded;
    hide NoChoice;
    hide Convex;
    StartIsBumped(raw, lo, hi, draws);
    NoChoiceStable(raw, lo, hi, target, DrawnUp(raw, lo, hi, draws));
    ErrorConvex(raw, lo, hi);
    OptimalIffStable(SquaredError(raw), Rounding.Round(Stochastic, raw, lo, hi, target, draws), lo, hi);
  }

  /** Draws that meet the target at once, with a unit at the wrong key. */
  lemma ChoiceCanMiss(raw: map<string, real>, lo: map<string, int>, hi: map<string, int>, target: int)
    returns (draws: map<string, real>)
    requires Bounds(raw, lo, hi) && !NoChoice(raw, lo, hi, target)
    ensures Drawn(raw, draws)
    ensures !Optimal(SquaredError(raw), Rounding.Round(Stochastic, raw, lo, hi, target, draws), lo, hi)
  {
    hide Stable;
    hide Optimal;
    hide Rounding.Round;
    hide Rounded;
    hide Convex;
    hide Bumped;
    hide Floors;
    hide OpenKeys;
    hide Fraction;
    hide Ordered;
    hide DrawsFor;
    hide DrawnUp;
    var floors, open := Floors(raw, lo, hi), OpenKeys(raw, lo, hi);
    var p, q :| p in open && q in open && Fraction(raw[p]) != Fraction(raw[q]);
    if Fraction(raw[p]) > Fraction(raw[q]) {
      p, q := q, p;
    }
    var up := WrongChoice(raw, open, target - Sum(floors), p, q);
    draws := DrawsFor(raw, up);
    DrawsForUp(raw, lo, hi, up);
    StartIsBumped(raw, lo, hi, draws);
    BumpedSum(floors, up);
    StartKept(Stochastic, raw, lo, hi, target, draws);
    BumpedInBox(raw, lo, hi, up);
    BumpedStableIff(raw, lo, hi, up);
    ErrorConvex(raw, lo, hi);
    OptimalIffStable(SquaredError(raw), Bumped(floors, up), lo, hi);
  }

  /** The exact condition: whatever is drawn the result is optimal, if and only if the target
      is at most the floors together, or at least the floors and one unit for every open key,
      or all open keys have the same fraction. */
  lemma AlwaysOptimalIff(raw: map<string, real>, lo: map<string, int>, hi: map<string, int>, target: int)
    requires Bounds(raw, lo, hi)
    ensures AlwaysOptimal(raw, lo, hi, target) <==> NoChoice(raw, lo, hi, target)
  {
    hide Optimal;
    hide Rounding.Round;
    hide NoChoice;
    if NoChoice(raw, lo, hi, target) {
      forall draws | Drawn(raw, draws)
        ensures Optimal(SquaredError(raw), Rounding.Round(Stochastic, raw, lo, hi, target, draws), lo, hi)
      {
        NoChoiceOptimal(raw, lo, hi, target, draws);
      }
    } else {
      var draws := ChoiceCanMiss(raw, lo, hi, target);
    }
  }

  /** An instance: one unit for two keys, one of which needs it more. */
  lemma StochasticCanMiss()
    ensures var raw := map["a" := 0.1, "b" := 0.9];
      var lo, hi := map["a" := 0, "b" := 0], map["a" := 1, "b" := 1];
      Bounds(raw, lo, hi) && !AlwaysOptimal(raw, lo, hi, 1)
  {
    hide AlwaysOptimal;
    hide Floors;
    hide OpenKeys;
    hide Fraction;
    var raw := map["a" := 0.1, "b" := 0.9];
    var lo, hi := map["a" := 0, "b" := 0], map["a" := 1, "b" := 1];
    TwoKeys(raw, lo, hi);
    AlwaysOptimalIff(raw, lo, hi, 1);
  }

  lemma TwoKeys(raw: map<string, real>, lo: map<string, int>, hi: map<string, int>)
    requires raw == map["a" := 0.1, "b" := 0.9] && lo == map["a" := 0, "b" := 0] && hi == map["a" := 1, "b" := 1]
    ensures Bounds(raw, lo, hi) && Sum(Floors(raw, lo, hi)) == 0
    ensures OpenKeys(raw, lo, hi) == {"a", "b"} && |OpenKeys(raw, lo, hi)| == 2
    ensures Fraction(raw["a"]) != Fraction(raw["b"])
  {
    hide Sum;
    hide Floors;
    hide OpenKeys;
    TwoFloors(raw, lo, hi);
    TwoOpen(raw, lo, hi);
    SumConstant(lo, 0);
  }

  lemma TwoFloors(raw: map<string, real>, lo: map<string, int>, hi: map<string, int>)
    requires raw == map["a" := 0.1, "b" := 0.9] && lo == map["a" := 0, "b" := 0] && hi == map["a" := 1, "b" := 1]
    ensures Bounds(raw, lo, hi) && Floors(raw, lo, hi) == lo
  {
    hide InBox;
    hide Lows;
    assert raw["a"].Floor == 0 && raw["b"].Floor == 0;
    assert raw.Keys == {"a", "b"} == lo.Keys;
  }

  lemma TwoOpen(raw: map<string, real>, lo: map<string, int>, hi: map<string, int>)
    requires raw == map["a" := 0.1, "b" := 0.9] && lo == map["a" := 0, "b" := 0] && hi == map["a" := 1, "b" := 1]
    ensures Bounds(raw, lo, hi) && OpenKeys(raw, lo, hi) == {"a", "b"}
  {
    var open := OpenKeys(raw, lo, hi);
    assert raw["a"].Floor == 0 && raw["b"].Floor == 0;
    assert "a" in open && "b" in open;
    assert open <= {"a", "b"};
  }
}
