/** The continuous allocation: every node is filled to sqrt(C / lambda) between its base and
    its cap, and lambda is found by doubling and bisection. The square root is a parameter. */
module WaterFilling {
  import opened Prelude
  import opened Arithmetic
  import opened Dicts
  import opened Separable
  import opened BranchCost

  /** The square root function. */
  datatype Root = Root(apply: real -> real)
  {
    function Of(x: real): real {
      apply(x)
    }
  }

  ghost predicate IsRoot(root: Root) {
    forall x :: x >= 0.0 ==> root.Of(x) >= 0.0 && root.Of(x) * root.Of(x) == x
  }

  /** The nodes: dispersions, and bounds that are in order. */
  ghost predicate Vessels(c: map<string, real>, base: map<string, int>, cap: map<string, int>) {
    && c.Keys == base.Keys == cap.Keys
    && forall k :: k in base ==> 0 <= base[k] <= cap[k]
  }

  function Level(root: Root, c: real, base: int, cap: int, dual: real): real
    requires dual > 0.0
  {
    if c > 0.0 then MinReal(MaxReal(root.Of(c / dual), base as real), cap as real) else base as real
  }

  function Water(root: Root, c: map<string, real>, base: map<string, int>, cap: map<string, int>,
                 dual: real): (w: map<string, real>)
    requires c.Keys == base.Keys == cap.Keys && dual > 0.0
    ensures w.Keys == c.Keys
  {
    map k | k in c :: Level(root, c[k], base[k], cap[k], dual)
  }

  ghost function TotalFor(root: Root, c: map<string, real>, base: map<string, int>, cap: map<string, int>,
                          dual: real): real
    requires c.Keys == base.Keys == cap.Keys && dual > 0.0
  {
    SumReal(Water(root, c, base, cap, dual))
  }

  ghost predicate Within(raw: map<string, real>, base: map<string, int>, cap: map<string, int>) {
    && raw.Keys == base.Keys == cap.Keys
    && forall k :: k in raw ==> base[k] as real <= raw[k] <= cap[k] as real
  }

  lemma WaterWithin(root: Root, c: map<string, real>, base: map<string, int>, cap: map<string, int>, dual: real)
    requires Vessels(c, base, cap) && dual > 0.0
    ensures Within(Water(root, c, base, cap, dual), base, cap)
  {
  }

  /** A square is at most x only if its root is at most any bound whose square is at least x. */
  lemma RootAtMost(s: real, b: real, x: real, y: real)
    requires s >= 0.0 && b >= 0.0 && x == s * s && y == b * b && x <= y
    ensures s <= b
  {
    if s > b {
      SquaresGrow(b, s, y, x);
    }
  }

  lemma SquaresGrow(b: real, s: real, y: real, x: real)
    requires 0.0 <= b < s && y == b * b && x == s * s
    ensures y < x
  {
    ProductPositive(s - b, s + b, x - y);
  }

  /** Under a large lambda a node rises above its base by at most 1 / n. */
  lemma LevelLow(root: Root, c: real, base: int, cap: int, dual: real, top: real, n: real)
    requires IsRoot(root) && 0 <= base <= cap && c <= top && n > 0.0 && dual > 0.0
    requires n * n * top <= dual
    ensures Level(root, c, base, cap, dual) <= base as real + 1.0 / n
  {
    var b := 1.0 / n;
    assert b > 0.0;
    if c > 0.0 {
      var x := c / dual;
      assert x * dual == c && x >= 0.0;
      RatioSmall(x, c, dual, n, b);
      RootAtMost(root.Of(x), b, x, b * b);
    }
  }

  lemma RatioSmall(x: real, c: real, dual: real, n: real, b: real)
    requires x * dual == c && n > 0.0 && b * n == 1.0 && dual > 0.0 && n * n * c <= dual
    ensures x <= b * b
  {
    var y := b * b;
    assert y * (n * n) == 1.0 by {
      assert y * (n * n) == (b * n) * (b * n);
    }
    assert y * (n * n * c) == c;
    assert y >= 0.0;
    assert y * (n * n * c) <= y * dual;
    assert (y - x) * dual >= 0.0;
  }

  lemma {:induction false} TopOf(c: map<string, real>) returns (top: real)
    ensures top >= 0.0 && forall k :: k in c ==> c[k] <= top
    decreases |c|
  {
    top := 0.0;
    if c != map[] {
      var k :| k in c;
      assert (c - {k}).Keys == c.Keys - {k};
      var t := TopOf(c - {k});
      top := MaxReal(t, c[k]);
      assert forall j :: j in c && j != k ==> (c - {k})[j] == c[j];
    }
  }

  /** The doubling loop is bounded: no lambda beyond n * n * max C asks for too much. */
  lemma {:induction false} LargeDualFits(root: Root, c: map<string, real>, base: map<string, int>,
                                         cap: map<string, int>, dual: real, top: real, target: int)
    requires IsRoot(root) && Vessels(c, base, cap) && c != map[] && target > Sum(base)
    requires forall k :: k in c ==> c[k] <= top
    requires dual > 0.0 && Enough(|c|, top) <= dual
    ensures TotalFor(root, c, base, cap, dual) <= target as real
  {
    hide Level;
    hide IsRoot;
    hide SumReal;
    hide Water;
    hide Raised;
    hide Enough;
    hide OneOf;
    hide Sum;
    hide TotalFor;
    WaterLow(root, c, base, cap, dual, top);
    assert |base.Keys| == |c|;
    WholeShare(|base.Keys|);
    TotalLow(root, c, base, cap, dual, OneOf(|c|));
  }

  /** A lambda from which on n nodes with no dispersion above top rise by 1 / n at most. */
  function Enough(n: nat, top: real): real {
    n as real * n as real * top
  }

  function OneOf(n: nat): real
    requires n > 0
  {
    1.0 / n as real
  }

  lemma WholeShare(n: nat)
    requires n > 0
    ensures n as real * OneOf(n) == 1.0
  {
  }

  lemma {:induction false} TotalLow(root: Root, c: map<string, real>, base: map<string, int>,
                                    cap: map<string, int>, dual: real, e: real)
    requires c.Keys == base.Keys == cap.Keys && dual > 0.0 && |base.Keys| as real * e == 1.0
    requires forall k :: k in c ==> Water(root, c, base, cap, dual)[k] <= Raised(base, e)[k]
    ensures TotalFor(root, c, base, cap, dual) <= Sum(base) as real + 1.0
  {
    hide SumReal;
    hide Raised;
    hide Water;
    hide Sum;
    SumRealLeq(Water(root, c, base, cap, dual), Raised(base, e));
    RaisedSum(base, e, 1.0);
  }

  lemma WaterLow(root: Root, c: map<string, real>, base: map<string, int>, cap: map<string, int>, dual: real, top: real)
    requires IsRoot(root) && Vessels(c, base, cap) && c != map[]
    requires forall k :: k in c ==> c[k] <= top
    requires dual > 0.0 && Enough(|c|, top) <= dual
    ensures forall k :: k in c ==> Water(root, c, base, cap, dual)[k] <= Raised(base, OneOf(|c|))[k]
  {
    hide Level;
    hide IsRoot;
    var n := |c| as real;
    assert |c| >= 1;
    forall k | k in c ensures Level(root, c[k], base[k], cap[k], dual) <= base[k] as real + 1.0 / n {
      LargeBound(c[k], top, n, dual);
      LevelLow(root, c[k], base[k], cap[k], dual, MaxReal(top, c[k]), n);
    }
  }

  function Raised(base: map<string, int>, e: real): (r: map<string, real>)
    ensures r.Keys == base.Keys
  {
    map k | k in base :: base[k] as real + e
  }

  function Spread(keys: set<string>, e: real): (r: map<string, real>)
    ensures r.Keys == keys
  {
    map k | k in keys :: e
  }

  lemma SpreadSum(keys: set<string>, e: real, t: real)
    requires t == |keys| as real * e
    ensures SumReal(Spread(keys, e)) == t
  {
    SumRealConstant(Spread(keys, e), e);
    assert |Spread(keys, e)| == |Spread(keys, e).Keys|;
  }

  lemma RaisedParts(base: map<string, int>, e: real)
    ensures SumReal(Raised(base, e)) == SumReal(Floats(base)) + SumReal(Spread(base.Keys, e))
  {
    SumRealParts(Raised(base, e), Floats(base), Spread(base.Keys, e));
  }

  lemma {:induction false} RaisedSum(base: map<string, int>, e: real, t: real)
    requires t == |base.Keys| as real * e
    ensures SumReal(Raised(base, e)) == Sum(base) as real + t
  {
    hide Spread;
    hide Raised;
    hide SumReal;
    hide Floats;
    hide Sum;
    RaisedParts(base, e);
    FloatsSum(base);
    SpreadSum(base.Keys, e, t);
  }

  lemma LargeBound(c: real, top: real, n: real, dual: real)
    requires c <= top && n * n * top <= dual
    ensures n * n * MaxReal(top, c) <= dual
  {
  }

  method ComputeTotal(root: Root, c: map<string, real>, base: map<string, int>, cap: map<string, int>,
                      dual: real)
    returns (total: real)
    requires c.Keys == base.Keys == cap.Keys && dual > 0.0
    ensures total == TotalFor(root, c, base, cap, dual)
  {
    total := SumRealValues(Water(root, c, base, cap, dual));
  }

  ghost predicate AtMost(c: map<string, real>, top: real) {
    forall k :: k in c ==> c[k] <= top
  }

  /** How far the doubling loop can go with n nodes and no dispersion above top. */
  function DoublingLimit(n: nat, top: real): real {
    2.0 * MaxReal(Enough(n, top), 1.0)
  }

  ghost predicate WithinLimit(c: map<string, real>, hi: real) {
    forall top :: AtMost(c, top) ==> hi <= DoublingLimit(|c|, top)
  }

  /** The doubling loop. */
  method DoubleUntilFits(root: Root, c: map<string, real>, base: map<string, int>, cap: map<string, int>,
                         target: int)
    returns (hi: real)
    requires IsRoot(root) && Vessels(c, base, cap) && c != map[] && target > Sum(base)
    ensures hi >= 1.0 && TotalFor(root, c, base, cap, hi) <= target as real
    ensures WithinLimit(c, hi)
  {
    hide Water;
    hide IsRoot;
    hide Enough;
    hide SumReal;
    ghost var top := TopOf(c);
    ghost var enough := Enough(|c|, top);
    hi := 1.0;
    ghost var turns := 0;
    var total := ComputeTotal(root, c, base, cap, hi);
    while total > target as real
      invariant hi >= turns as real + 1.0 && turns >= 0
      invariant total == TotalFor(root, c, base, cap, hi) && WithinLimit(c, hi)
      decreases enough.Floor + 1 - turns
    {
      if hi >= enough {
        LargeDualFits(root, c, base, cap, hi, top, target);
      }
      forall bound | AtMost(c, bound) ensures hi < Enough(|c|, bound) {
        if hi >= Enough(|c|, bound) {
          LargeDualFits(root, c, base, cap, hi, bound, target);
        }
      }
      hi := hi * 2.0;
      turns := turns + 1;
      total := ComputeTotal(root, c, base, cap, hi);
    }
  }

  function Pow2(n: nat): (p: real)
    ensures p >= 1.0
  {
    if n == 0 then 1.0 else 2.0 * Pow2(n - 1)
  }

  const LOWEST := 0.000000000000000001

  /** The lower end of the bracket asks for too much, unless it never moved. */
  ghost predicate Brackets(root: Root, c: map<string, real>, base: map<string, int>, cap: map<string, int>,
                           target: int, lo: real, hi: real)
    requires c.Keys == base.Keys == cap.Keys
  {
    && LOWEST <= lo < hi
    && TotalFor(root, c, base, cap, hi) <= target as real
    && (lo == LOWEST || TotalFor(root, c, base, cap, lo) > target as real)
  }

  /** After the bisection the bracket is as narrow as can be said beforehand. */
  ghost predicate Narrow(c: map<string, real>, lo: real, hi: real) {
    forall top :: AtMost(c, top) ==> (hi - lo) * Pow2(160) <= DoublingLimit(|c|, top)
  }

  /** The bisection: the upper end never asks for too much, and the bracket halves each turn. */
  method Bisect(root: Root, c: map<string, real>, base: map<string, int>, cap: map<string, int>, target: int,
                start: real)
    returns (hi: real, lo: real)
    requires Vessels(c, base, cap) && start >= 1.0 && TotalFor(root, c, base, cap, start) <= target as real
    ensures Brackets(root, c, base, cap, target, lo, hi)
    ensures (hi - lo) * Pow2(160) == start - LOWEST
  {
    hide TotalFor;
    hide Pow2;
    var low := LOWEST;
    PowersDouble();
    hi := start;
    for turn := 0 to 160
      invariant Brackets(root, c, base, cap, target, low, hi)
      invariant (hi - low) * Pow2(turn) == start - LOWEST
    {
      var mid := (low + hi) / 2.0;
      Halve(hi - low, Pow2(turn));
      var total := ComputeTotal(root, c, base, cap, mid);
      if total > target as real {
        low := mid;
      } else {
        hi := mid;
      }
    }
    lo := low;
  }

  lemma PowersDouble()
    ensures Pow2(0) == 1.0 && forall n: nat :: Pow2(n + 1) == 2.0 * Pow2(n)
  {
  }

  lemma Halve(width: real, p: real)
    ensures width / 2.0 * (2.0 * p) == width * p
  {
  }

  /** What filling up in key order leaves: the keys before some point are at their caps, those
      after it are as they were. */
  ghost predicate FilledInOrder(start: map<string, real>, raw: map<string, real>, cap: map<string, int>,
                                keys: seq<string>) {
    && start.Keys == raw.Keys == cap.Keys
    && exists cut: nat :: cut <= |keys| && FilledTo(start, raw, cap, keys, cut)
  }

  ghost predicate FilledTo(start: map<string, real>, raw: map<string, real>, cap: map<string, int>,
                           keys: seq<string>, cut: nat)
    requires start.Keys == raw.Keys == cap.Keys
  {
    && (forall j :: 0 <= j < |keys| && j < cut && keys[j] in raw ==> raw[keys[j]] == cap[keys[j]] as real)
    && (forall j :: cut < j < |keys| && keys[j] in raw ==> raw[keys[j]] == start[keys[j]])
  }

  ghost predicate Between(start: map<string, real>, raw: map<string, real>, cap: map<string, int>) {
    && start.Keys == raw.Keys == cap.Keys
    && forall k :: k in raw ==> start[k] <= raw[k] <= cap[k] as real
  }

  /** Keys not yet visited are as they were. */
  ghost predicate Untouched(start: map<string, real>, raw: map<string, real>, keys: seq<string>, i: nat)
    requires start.Keys == raw.Keys
  {
    forall j :: i <= j < |keys| && keys[j] in raw ==> raw[keys[j]] == start[keys[j]]
  }

  lemma KeysApart(keys: seq<string>, i: nat)
    requires Increasing(keys) && i < |keys|
    ensures forall j :: 0 <= j < |keys| && j != i ==> keys[j] != keys[i]
  {
    hide StrLt;
    StrLtIrreflexive(keys[i]);
  }

  lemma SetKeeps(start: map<string, real>, raw: map<string, real>, cap: map<string, int>, keys: seq<string>,
                 i: nat, cut: nat, v: real)
    requires i < |keys| && keys[i] in raw && forall j :: 0 <= j < |keys| && j != i ==> keys[j] != keys[i]
    requires Between(start, raw, cap) && Untouched(start, raw, keys, i) && cut <= i
      && FilledTo(start, raw, cap, keys, cut)
    requires raw[keys[i]] <= v <= cap[keys[i]] as real && (cut < i ==> v == raw[keys[i]])
    ensures Between(start, raw[keys[i] := v], cap) && Untouched(start, raw[keys[i] := v], keys, i + 1)
    ensures FilledTo(start, raw[keys[i] := v], cap, keys, cut)
    ensures cut == i && v == cap[keys[i]] as real ==> FilledTo(start, raw[keys[i] := v], cap, keys, i + 1)
  {
  }

  /** One turn of the filling loop. */
  method FillOne(ghost start: map<string, real>, raw: map<string, real>, cap: map<string, int>,
                 keys: seq<string>, i: nat, remaining: real, ghost cut: nat)
    returns (raw': map<string, real>, remaining': real, ghost cut': nat)
    requires Increasing(keys) && (forall k :: k in keys <==> k in cap) && i < |keys| && remaining >= 0.0
    requires Between(start, raw, cap) && Untouched(start, raw, keys, i)
    requires cut <= i && FilledTo(start, raw, cap, keys, cut) && (remaining > 0.0 ==> cut == i)
    ensures Between(start, raw', cap) && Untouched(start, raw', keys, i + 1)
    ensures cut' <= i + 1 && FilledTo(start, raw', cap, keys, cut') && (remaining' > 0.0 ==> cut' == i + 1)
    ensures remaining' >= 0.0 && SumReal(raw') + remaining' == SumReal(raw) + remaining
  {
    hide FilledTo;
    hide Untouched;
    hide Increasing;
    hide SumReal;
    var key := keys[i];
    var room := cap[key] as real - raw[key];
    var add := MinReal(remaining, room);
    raw' := raw[key := raw[key] + add];
    remaining' := remaining - add;
    cut' := if remaining' > 0.0 then i + 1 else cut;
    KeysApart(keys, i);
    SetKeeps(start, raw, cap, keys, i, cut, raw[key] + add);
    SumRealSet(raw, key, raw[key] + add);
  }

  lemma NothingFilled(start: map<string, real>, cap: map<string, int>, keys: seq<string>)
    requires start.Keys == cap.Keys && forall k :: k in start ==> start[k] <= cap[k] as real
    ensures Between(start, start, cap) && Untouched(start, start, keys, 0) && FilledTo(start, start, cap, keys, 0)
  {
  }

  /** Filling up in key order, until the remainder is spent (to within slack, if any is
      allowed) or every key is at its cap. */
  method Fill(start: map<string, real>, cap: map<string, int>, total: real, slack: Option<real>)
    returns (raw: map<string, real>, ghost left: real)
    requires total >= 0.0 && start.Keys == cap.Keys && forall k :: k in start ==> start[k] <= cap[k] as real
    requires slack.Some? ==> slack.value >= 0.0
    ensures Between(start, raw, cap) && FilledInOrder(start, raw, cap, SortedKeys(start.Keys))
    ensures left >= 0.0 && SumReal(raw) + left == SumReal(start) + total
    ensures left == 0.0 || (slack.Some? && left <= slack.value) || raw == Floats(cap)
  {
    hide Increasing;
    hide FilledTo;
    hide Untouched;
    hide SumReal;
    hide SortedKeys;
    var keys := SortedKeys(start.Keys);
    var remaining := total;
    raw := start;
    ghost var cut: nat := 0;
    ghost var seen := 0;
    NothingFilled(start, cap, keys);
    for i := 0 to |keys|
      invariant seen == i && remaining >= 0.0 && Between(start, raw, cap) && Untouched(start, raw, keys, i)
      invariant cut <= i && FilledTo(start, raw, cap, keys, cut) && (remaining > 0.0 ==> cut == i)
      invariant SumReal(raw) + remaining == SumReal(start) + total
    {
      raw, remaining, cut := FillOne(start, raw, cap, keys, i, remaining, cut);
      seen := i + 1;
      if slack.Some? && remaining <= slack.value {
        break;
      }
    }
    left := remaining;
    if left > 0.0 && !(slack.Some? && left <= slack.value) {
      FullyFilled(start, raw, cap, keys);
    }
  }

  lemma FullyFilled(start: map<string, real>, raw: map<string, real>, cap: map<string, int>, keys: seq<string>)
    requires start.Keys == raw.Keys == cap.Keys && (forall k :: k in keys <==> k in cap)
    requires FilledTo(start, raw, cap, keys, |keys|)
    ensures raw == Floats(cap)
  {
    forall k | k in raw ensures raw[k] == cap[k] as real {
      assert k in keys;
    }
  }

  lemma {:induction false} WithinSum(raw: map<string, real>, base: map<string, int>, cap: map<string, int>)
    requires Within(raw, base, cap)
    ensures Sum(base) as real <= SumReal(raw) <= Sum(cap) as real
  {
    FloatsSum(base);
    FloatsSum(cap);
    SumRealLeq(Floats(base), raw);
    SumRealLeq(raw, Floats(cap));
  }

  ghost predicate AnyPositive(c: map<string, real>) {
    exists k :: k in c && c[k] > 0.0
  }

  const TOLERANCE := 0.000000001

  /** The result spends what it can: the target, or all the caps, to within the tolerance. */
  ghost predicate Spends(raw: map<string, real>, cap: map<string, int>, target: int, tolerance: real) {
    Min(target, Sum(cap)) as real - tolerance <= SumReal(raw) <= Min(target, Sum(cap)) as real
  }

  /** What _continuous_capped_allocation returns when there is something to distribute. */
  ghost predicate Filled(root: Root, c: map<string, real>, base: map<string, int>, cap: map<string, int>,
                         target: int, raw: map<string, real>, dual: Option<real>)
    requires c.Keys == base.Keys == cap.Keys
  {
    if AnyPositive(c) then
      && dual.Some? && dual.value > 0.0
      && (exists lo :: Brackets(root, c, base, cap, target, lo, dual.value) && Narrow(c, lo, dual.value))
      && Between(Water(root, c, base, cap, dual.value), raw, cap)
      && var w := Water(root, c, base, cap, dual.value);
         if target as real - SumReal(w) <= TOLERANCE then raw == w
         else FilledInOrder(w, raw, cap, SortedKeys(c.Keys))
    else
      && dual.None?
      && FilledInOrder(Floats(base), raw, cap, SortedKeys(c.Keys))
  }

  lemma FloatsWithin(c: map<string, real>, base: map<string, int>, cap: map<string, int>)
    requires Vessels(c, base, cap)
    ensures Within(Floats(base), base, cap)
  {
  }

  lemma BetweenWithin(start: map<string, real>, raw: map<string, real>, base: map<string, int>, cap: map<string, int>)
    requires Within(start, base, cap) && Between(start, raw, cap)
    ensures Within(raw, base, cap)
  {
  }

  lemma {:induction false} LeftSpends(raw: map<string, real>, base: map<string, int>, cap: map<string, int>,
                                      target: int, left: real, tolerance: real)
    requires Within(raw, base, cap) && 0.0 <= left && tolerance >= 0.0 && SumReal(raw) + left == target as real
    requires left <= tolerance || raw == Floats(cap)
    ensures Spends(raw, cap, target, tolerance)
  {
    WithinSum(raw, base, cap);
    FloatsSum(cap);
  }

  method HasPositive(c: map<string, real>) returns (b: bool)
    ensures b <==> AnyPositive(c)
  {
    b := false;
    var rest := c;
    while rest != map[]
      invariant rest.Keys <= c.Keys && forall k :: k in rest ==> rest[k] == c[k]
      invariant b <==> exists k :: k in c && k !in rest && c[k] > 0.0
      decreases |rest|
    {
      var key :| key in rest;
      assert (rest - {key}).Keys == rest.Keys - {key};
      b := b || rest[key] > 0.0;
      rest := rest - {key};
    }
  }

  /** All nodes without dispersion: filled up from their bases in key order, exactly. */
  method FillFromBase(c: map<string, real>, base: map<string, int>, cap: map<string, int>, target: int)
    returns (raw: map<string, real>)
    requires Vessels(c, base, cap) && target > Sum(base)
    ensures Within(raw, base, cap) && Spends(raw, cap, target, 0.0)
    ensures FilledInOrder(Floats(base), raw, cap, SortedKeys(c.Keys))
  {
    hide SumReal;
    hide SortedKeys;
    hide FilledInOrder;
    FloatsWithin(c, base, cap);
    FloatsSum(base);
    var baseSum := SumValues(base);
    ghost var left;
    raw, left := Fill(Floats(base), cap, (target - baseSum) as real, None);
    BetweenWithin(Floats(base), raw, base, cap);
    LeftSpends(raw, base, cap, target, left, 0.0);
  }

  /** The levels for the dual that was found, topped up in key order if they fall short. */
  method TopUp(root: Root, c: map<string, real>, base: map<string, int>, cap: map<string, int>, target: int,
               dual: real)
    returns (raw: map<string, real>)
    requires Vessels(c, base, cap) && dual > 0.0 && TotalFor(root, c, base, cap, dual) <= target as real
    ensures Within(raw, base, cap) && Spends(raw, cap, target, TOLERANCE)
    ensures Between(Water(root, c, base, cap, dual), raw, cap)
    ensures var w := Water(root, c, base, cap, dual);
      if target as real - SumReal(w) <= TOLERANCE then raw == w
      else FilledInOrder(w, raw, cap, SortedKeys(c.Keys))
  {
    hide SumReal;
    hide SortedKeys;
    hide FilledInOrder;
    hide Water;
    WaterWithin(root, c, base, cap, dual);
    var water := Water(root, c, base, cap, dual);
    var sum := ComputeTotal(root, c, base, cap, dual);
    var remaining := target as real - sum;
    if remaining <= TOLERANCE {
      raw := water;
      LeftSpends(raw, base, cap, target, remaining, TOLERANCE);
    } else {
      ghost var left;
      raw, left := Fill(water, cap, remaining, Some(TOLERANCE));
      BetweenWithin(water, raw, base, cap);
      LeftSpends(raw, base, cap, target, left, TOLERANCE);
    }
  }

  /** Some node has dispersion: the levels for the lambda that bisection finds, topped up. */
  method FillLevels(root: Root, c: map<string, real>, base: map<string, int>, cap: map<string, int>, target: int)
    returns (raw: map<string, real>, dual: Option<real>)
    requires IsRoot(root) && Vessels(c, base, cap) && target > Sum(base) && AnyPositive(c)
    ensures Within(raw, base, cap) && Filled(root, c, base, cap, target, raw, dual)
    ensures Spends(raw, cap, target, TOLERANCE)
  {
    hide IsRoot;
    hide Water;
    hide FilledInOrder;
    hide SumReal;
    hide Spends;
    hide Within;
    hide Between;
    hide TotalFor;
    var hi := DoubleUntilFits(root, c, base, cap, target);
    var lo;
    ghost var start := hi;
    hi, lo := Bisect(root, c, base, cap, target, hi);
    NarrowAfter(c, lo, hi, start);
    raw := TopUp(root, c, base, cap, target, hi);
    dual := Some(hi);
  }

  lemma NarrowAfter(c: map<string, real>, lo: real, hi: real, start: real)
    requires WithinLimit(c, start) && (hi - lo) * Pow2(160) == start - LOWEST
    ensures Narrow(c, lo, hi)
  {
    hide DoublingLimit;
    hide Pow2;
    hide AtMost;
    var span := (hi - lo) * Pow2(160);
    forall top | AtMost(c, top) ensures (hi - lo) * Pow2(160) <= DoublingLimit(|c|, top) {
      assert span <= start <= DoublingLimit(|c|, top);
    }
  }

  /** _continuous_capped_allocation. It ends; every value is within its bounds; and when there
      is more than the bases to spend, the target is met as far as the caps allow. */
  method ContinuousCappedAllocation(root: Root, c: map<string, real>, base: map<string, int>,
                                    cap: map<string, int>, target: int)
    returns (raw: map<string, real>, dual: Option<real>)
    requires IsRoot(root) && Vessels(c, base, cap)
    ensures Within(raw, base, cap)
    ensures target <= Sum(base) ==> raw == Floats(base) && dual.None?
    ensures target > Sum(base) ==> Filled(root, c, base, cap, target, raw, dual)
    ensures target > Sum(base) ==> Spends(raw, cap, target, if AnyPositive(c) then 0.000000001 else 0.0)
  {
    hide IsRoot;
    hide Water;
    hide FilledInOrder;
    hide SumReal;
    hide Spends;
    hide Within;
    var baseSum := SumValues(base);
    FloatsWithin(c, base, cap);
    if target <= baseSum {
      return Floats(base), None;
    }
    var positive := HasPositive(c);
    if !positive {
      raw := FillFromBase(c, base, cap, target);
      return raw, None;
    }
    raw, dual := FillLevels(root, c, base, cap, target);
  }

  /** (x - w)(x w - s s) is not negative when w is s clamped to an interval that holds x. */
  lemma ClampSign(x: real, w: real, s: real, lo: real, hi: real)
    requires 0.0 < lo <= x <= hi && s >= 0.0 && w == MinReal(MaxReal(s, lo), hi)
    ensures (x - w) * (x * w - s * s) >= 0.0
  {
    if x > w {
      ProductsOrder(s, s, x, w);
      ProductNotNegative(x - w, x * w - s * s, (x - w) * (x * w - s * s));
    } else if x < w {
      ProductsOrder(x, w, s, s);
      ProductNotNegative(w - x, s * s - x * w, (x - w) * (x * w - s * s));
    }
  }

  lemma ProductsOrder(a: real, b: real, p: real, q: real)
    requires 0.0 <= a <= p && 0.0 <= b <= q
    ensures a * b <= p * q
  {
    assert a * b <= p * b;
    assert p * b <= p * q;
  }

  /** The stationarity argument at one node, cleared of denominators: d times x w is
      dual (x - w)(x w - s s). */
  lemma StationaryPoint(c: real, dual: real, s: real, x: real, w: real, p: real, q: real, d: real)
    requires p * x == c && q * w == c && dual * (s * s) == c
    requires d == p + dual * x - (q + dual * w)
    ensures d * (x * w) == dual * ((x - w) * (x * w - s * s))
  {
    var xw := x * w;
    assert d * xw == p * xw + dual * x * xw - q * xw - dual * w * xw;
    assert p * xw == c * w;
    assert q * xw == c * x;
    assert dual * ((x - w) * (xw - s * s)) == dual * x * xw - dual * w * xw - (dual * (s * s)) * (x - w);
  }

  /** No value within the bounds has a smaller C / x + dual x than the level. */
  lemma LevelBest(root: Root, c: real, base: int, cap: int, dual: real, x: real)
    requires IsRoot(root) && 1 <= base <= cap && c >= 0.0 && dual > 0.0 && base as real <= x <= cap as real
    ensures Level(root, c, base, cap, dual) >= 1.0
    ensures var w := Level(root, c, base, cap, dual);
      Price(c, w, dual) <= Price(c, x, dual)
  {
    var w := Level(root, c, base, cap, dual);
    var s := root.Of(c / dual);
    assert dual * (s * s) == c by { assert (c / dual) * dual == c; }
    if c > 0.0 {
      ClampBest(c, dual, s, x, w, base as real, cap as real);
    } else {
      assert c / x == 0.0 && c / w == 0.0;
      ProductNotNegative(dual, x - w, dual * x - dual * w);
    }
  }

  lemma ClampBest(c: real, dual: real, s: real, x: real, w: real, lo: real, hi: real)
    requires dual > 0.0 && s >= 0.0 && dual * (s * s) == c
    requires 0.0 < lo <= x <= hi && w == MinReal(MaxReal(s, lo), hi)
    ensures w > 0.0 && Price(c, w, dual) <= Price(c, x, dual)
  {
    hide Price;
    var d, sign, xw := Price(c, x, dual) - Price(c, w, dual), (x - w) * (x * w - s * s), x * w;
    PriceGap(c, dual, s, x, w);
    ClampSign(x, w, s, lo, hi);
    ProductNotNegative(dual, sign, d * xw);
    ProductPositive(x, w, xw);
    SignOfFactor(d, xw);
  }

  lemma PriceGap(c: real, dual: real, s: real, x: real, w: real)
    requires x > 0.0 && w > 0.0 && dual * (s * s) == c
    ensures (Price(c, x, dual) - Price(c, w, dual)) * (x * w) == dual * ((x - w) * (x * w - s * s))
  {
    var p, q := c / x, c / w;
    assert p * x == c && q * w == c;
    StationaryPoint(c, dual, s, x, w, p, q, Price(c, x, dual) - Price(c, w, dual));
  }

  lemma SignOfFactor(d: real, y: real)
    requires y > 0.0 && d * y >= 0.0
    ensures d >= 0.0
  {
  }

  function Costs(c: map<string, real>, x: map<string, real>): (r: map<string, real>)
    requires c.Keys == x.Keys && forall k :: k in x ==> x[k] > 0.0
    ensures r.Keys == c.Keys
  {
    map k | k in c :: c[k] / x[k]
  }

  function Priced(c: map<string, real>, x: map<string, real>, dual: real): (r: map<string, real>)
    requires c.Keys == x.Keys && forall k :: k in x ==> x[k] > 0.0
    ensures r.Keys == c.Keys
  {
    map k | k in c :: Price(c[k], x[k], dual)
  }

  function Prices(x: map<string, real>, dual: real): (r: map<string, real>)
    ensures r.Keys == x.Keys
  {
    map k | k in x :: Times(dual, x[k])
  }

  lemma {:induction false} PricedSum(c: map<string, real>, x: map<string, real>, dual: real, t: real)
    requires c.Keys == x.Keys && forall k :: k in x ==> x[k] > 0.0
    requires t == dual * SumReal(x)
    ensures SumReal(Priced(c, x, dual)) == SumReal(Costs(c, x)) + t
  {
    hide SumReal;
    hide Priced;
    hide Costs;
    hide Prices;
    PricedParts(c, x, dual);
    PricesSum(x, dual);
  }

  lemma {:induction false} PricesSum(x: map<string, real>, dual: real)
    ensures SumReal(Prices(x, dual)) == Times(dual, SumReal(x))
  {
    hide SumReal;
    hide Times;
    SumRealScale(Prices(x, dual), x, dual);
  }

  lemma PricedParts(c: map<string, real>, x: map<string, real>, dual: real)
    requires c.Keys == x.Keys && forall k :: k in x ==> x[k] > 0.0
    ensures SumReal(Priced(c, x, dual)) == SumReal(Costs(c, x)) + SumReal(Prices(x, dual))
  {
    hide SumReal;
    hide Times;
    SumRealParts(Priced(c, x, dual), Costs(c, x), Prices(x, dual));
  }

  function Price(c: real, x: real, dual: real): real
    requires x > 0.0
  {
    c / x + Times(dual, x)
  }

  lemma WaterPositive(root: Root, c: map<string, real>, base: map<string, int>, cap: map<string, int>, dual: real)
    requires Vessels(c, base, cap) && dual > 0.0 && forall k :: k in base ==> base[k] >= 1
    ensures forall k :: k in c ==> Water(root, c, base, cap, dual)[k] > 0.0
  {
  }

  lemma WaterPricedBest(root: Root, c: map<string, real>, base: map<string, int>, cap: map<string, int>,
                        dual: real, x: map<string, real>)
    requires IsRoot(root) && Vessels(c, base, cap) && dual > 0.0 && Within(x, base, cap)
    requires forall k :: k in base ==> base[k] >= 1 && c[k] >= 0.0
    requires forall k :: k in c ==> Water(root, c, base, cap, dual)[k] > 0.0 && x[k] > 0.0
    ensures SumReal(Priced(c, Water(root, c, base, cap, dual), dual)) <= SumReal(Priced(c, x, dual))
  {
    hide IsRoot;
    hide Level;
    hide SumReal;
    hide Price;
    var w := Water(root, c, base, cap, dual);
    forall k | k in c ensures Priced(c, w, dual)[k] <= Priced(c, x, dual)[k] {
      LevelBest(root, c[k], base[k], cap[k], dual, x[k]);
    }
    SumRealLeq(Priced(c, w, dual), Priced(c, x, dual));
  }

  lemma WithinPositive(x: map<string, real>, base: map<string, int>, cap: map<string, int>)
    requires Within(x, base, cap) && forall k :: k in base ==> base[k] >= 1
    ensures x.Keys == base.Keys && forall k :: k in x ==> x[k] > 0.0
  {
  }

  lemma CheaperWhenPriced(p: real, q: real, dual: real, x: real, y: real, t: real, u: real)
    requires t == dual * x && u == dual * y && y <= x && dual > 0.0
    requires p + t <= q + u
    ensures p <= q
  {
    ProductNotNegative(dual, x - y, t - u);
  }

  /** The levels are optimal: no real-valued allocation within the bounds that spends at most
      as much has a smaller sum of C / x. */
  lemma {:induction false} WaterOptimal(root: Root, c: map<string, real>, base: map<string, int>,
                                        cap: map<string, int>, dual: real, x: map<string, real>)
    requires IsRoot(root) && Vessels(c, base, cap) && dual > 0.0
    requires forall k :: k in base ==> base[k] >= 1 && c[k] >= 0.0
    requires Within(x, base, cap) && SumReal(x) <= TotalFor(root, c, base, cap, dual)
    ensures forall k :: k in c ==> Water(root, c, base, cap, dual)[k] > 0.0 && x[k] > 0.0
    ensures SumReal(Costs(c, Water(root, c, base, cap, dual))) <= SumReal(Costs(c, x))
  {
    hide IsRoot;
    hide Water;
    hide Within;
    hide SumReal;
    hide Costs;
    WaterPositive(root, c, base, cap, dual);
    WithinPositive(x, base, cap);
    WaterBeats(root, c, base, cap, dual, x);
  }

  lemma {:induction false} PricedDecides(c: map<string, real>, w: map<string, real>, x: map<string, real>,
                                         dual: real, t: real, u: real)
    requires c.Keys == x.Keys == w.Keys && forall k :: k in c ==> w[k] > 0.0 && x[k] > 0.0
    requires t == dual * SumReal(w) && u == dual * SumReal(x) && dual > 0.0
    requires SumReal(Priced(c, w, dual)) <= SumReal(Priced(c, x, dual)) && SumReal(x) <= SumReal(w)
    ensures SumReal(Costs(c, w)) <= SumReal(Costs(c, x))
  {
    hide SumReal;
    hide Costs;
    hide Priced;
    PricedSum(c, w, dual, t);
    PricedSum(c, x, dual, u);
    CheaperWhenPriced(SumReal(Costs(c, w)), SumReal(Costs(c, x)), dual, SumReal(w), SumReal(x), t, u);
  }

  lemma {:induction false} WaterBeats(root: Root, c: map<string, real>, base: map<string, int>,
                                      cap: map<string, int>, dual: real, x: map<string, real>)
    requires IsRoot(root) && Vessels(c, base, cap) && dual > 0.0
    requires forall k :: k in base ==> base[k] >= 1 && c[k] >= 0.0
    requires Within(x, base, cap) && SumReal(x) <= TotalFor(root, c, base, cap, dual)
    requires forall k :: k in c ==> Water(root, c, base, cap, dual)[k] > 0.0 && x[k] > 0.0
    ensures SumReal(Costs(c, Water(root, c, base, cap, dual))) <= SumReal(Costs(c, x))
  {
    hide IsRoot;
    hide Water;
    hide SumReal;
    hide Costs;
    hide Priced;
    var w := Water(root, c, base, cap, dual);
    WaterPricedBest(root, c, base, cap, dual, x);
    PricedDecides(c, w, x, dual, dual * SumReal(w), dual * SumReal(x));
  }

  lemma CostsAreObjective(c: map<string, real>, b: map<string, int>)
    requires c.Keys == b.Keys && forall k :: k in b ==> b[k] >= 1
    ensures SumReal(Costs(c, Floats(b))) == Objective(c, b)
  {
    assert Costs(c, Floats(b)) == map k | k in b :: DispersionCost(c).At(k, b[k]);
  }

  /** Hence the levels bound the integer problem from below: no bounded allocation of whole
      branches that spends at most as much has a smaller objective. */
  lemma {:induction false} RelaxationBound(root: Root, c: map<string, real>, base: map<string, int>,
                                           cap: map<string, int>, dual: real, b: map<string, int>)
    requires IsRoot(root) && Vessels(c, base, cap) && dual > 0.0
    requires forall k :: k in base ==> base[k] >= 1 && c[k] >= 0.0
    requires InBox(b, base, cap) && Sum(b) as real <= TotalFor(root, c, base, cap, dual)
    ensures forall k :: k in c ==> Water(root, c, base, cap, dual)[k] > 0.0
    ensures SumReal(Costs(c, Water(root, c, base, cap, dual))) <= Objective(c, b)
  {
    hide IsRoot;
    hide Water;
    hide SumReal;
    hide Objective;
    FloatsSum(b);
    WaterOptimal(root, c, base, cap, dual, Floats(b));
    CostsAreObjective(c, b);
  }

  lemma CostFalls(c: real, x: real, y: real)
    requires c >= 0.0 && 0.0 < x <= y
    ensures c / y <= c / x
  {
    var p, q := c / x, c / y;
    assert p * x == c && q * y == c;
    if q > p {
      ProductPositive(q - p, x, q * x - p * x);
      ProductNotNegative(q, y - x, q * y - q * x);
    }
  }

  /** Topping up can only lower the cost. */
  lemma {:induction false} CostsFall(c: map<string, real>, w: map<string, real>, raw: map<string, real>)
    requires c.Keys == w.Keys == raw.Keys
    requires forall k :: k in c ==> c[k] >= 0.0 && 0.0 < w[k] <= raw[k]
    ensures SumReal(Costs(c, raw)) <= SumReal(Costs(c, w))
  {
    forall k | k in c ensures Costs(c, raw)[k] <= Costs(c, w)[k] {
      CostFalls(c[k], w[k], raw[k]);
    }
    SumRealLeq(Costs(c, raw), Costs(c, w));
  }

  /** The price of what the levels leave unspent bounds what they lose. */
  lemma PricedGap(p: real, q: real, dual: real, sw: real, sx: real, t: real, u: real, target: real, gap: real)
    requires t == dual * sw && u == dual * sx && gap == dual * (target - sw)
    requires p + t <= q + u && sx <= target && dual > 0.0
    ensures p <= q + gap
  {
    ProductNotNegative(dual, target - sx, gap + t - u);
  }

  lemma {:induction false} PricedNear(c: map<string, real>, w: map<string, real>, x: map<string, real>,
                                      dual: real, target: real,
                                      gap: real)
    requires c.Keys == x.Keys == w.Keys && forall k :: k in c ==> w[k] > 0.0 && x[k] > 0.0
    requires dual > 0.0 && gap == dual * (target - SumReal(w))
    requires SumReal(Priced(c, w, dual)) <= SumReal(Priced(c, x, dual)) && SumReal(x) <= target
    ensures SumReal(Costs(c, w)) <= SumReal(Costs(c, x)) + gap
  {
    hide SumReal;
    hide Costs;
    hide Priced;
    PricedSum(c, w, dual, dual * SumReal(w));
    PricedSum(c, x, dual, dual * SumReal(x));
    PricedGap(SumReal(Costs(c, w)), SumReal(Costs(c, x)), dual, SumReal(w), SumReal(x),
              dual * SumReal(w), dual * SumReal(x), target, gap);
  }

  /** What the levels for dual leave unspent, at their price. */
  function Unspent(dual: real, target: int, spent: real): real {
    dual * (target as real - spent)
  }

  lemma {:induction false} LevelsNearOptimal(root: Root, c: map<string, real>, base: map<string, int>,
                                             cap: map<string, int>, target: int,
                                             dual: real, x: map<string, real>)
    requires IsRoot(root) && Vessels(c, base, cap) && dual > 0.0 && Within(x, base, cap) && SumReal(x) <= target as real
    requires forall k :: k in base ==> base[k] >= 1 && c[k] >= 0.0
    requires forall k :: k in c ==> Water(root, c, base, cap, dual)[k] > 0.0 && x[k] > 0.0
    ensures SumReal(Costs(c, Water(root, c, base, cap, dual))) <=
      SumReal(Costs(c, x)) + Unspent(dual, target, TotalFor(root, c, base, cap, dual))
  {
    hide IsRoot;
    hide Water;
    hide SumReal;
    hide Costs;
    hide Priced;
    WaterPricedBest(root, c, base, cap, dual, x);
    PricedNear(c, Water(root, c, base, cap, dual), x, dual, target as real,
               Unspent(dual, target, TotalFor(root, c, base, cap, dual)));
  }

  lemma ResultPositive(root: Root, c: map<string, real>, base: map<string, int>, cap: map<string, int>,
                       raw: map<string, real>, dual: real)
    requires Vessels(c, base, cap) && dual > 0.0 && forall k :: k in base ==> base[k] >= 1
    requires Between(Water(root, c, base, cap, dual), raw, cap)
    ensures raw.Keys == c.Keys
    ensures forall k :: k in c ==> 0.0 < Water(root, c, base, cap, dual)[k] <= raw[k]
  {
    hide Water;
    WaterPositive(root, c, base, cap, dual);
  }

  /** The allocation that is returned, topped up or not: no real-valued allocation within the
      bounds that spends at most the target has a sum of C / x smaller by more than the price
      of what the levels left unspent. */
  lemma {:induction false} ResultNearOptimal(root: Root, c: map<string, real>, base: map<string, int>,
                                             cap: map<string, int>, target: int,
                                             raw: map<string, real>, dual: real, x: map<string, real>)
    requires IsRoot(root) && Vessels(c, base, cap) && AnyPositive(c)
    requires forall k :: k in base ==> base[k] >= 1 && c[k] >= 0.0
    requires Filled(root, c, base, cap, target, raw, Some(dual))
    requires Within(x, base, cap) && SumReal(x) <= target as real
    ensures raw.Keys == x.Keys == c.Keys && forall k :: k in c ==> raw[k] > 0.0 && x[k] > 0.0
    ensures SumReal(Costs(c, raw)) <=
      SumReal(Costs(c, x)) + Unspent(dual, target, TotalFor(root, c, base, cap, dual))
  {
    hide IsRoot;
    hide Water;
    hide Within;
    hide SumReal;
    hide Costs;
    hide Brackets;
    hide FilledInOrder;
    hide TotalFor;
    hide Unspent;
    hide Between;
    FilledFacts(root, c, base, cap, target, raw, dual);
    ResultPositive(root, c, base, cap, raw, dual);
    WithinPositive(x, base, cap);
    LevelsNearOptimal(root, c, base, cap, target, dual, x);
    CostsFall(c, Water(root, c, base, cap, dual), raw);
  }

  lemma FilledFacts(root: Root, c: map<string, real>, base: map<string, int>, cap: map<string, int>, target: int,
                    raw: map<string, real>, dual: real)
    requires c.Keys == base.Keys == cap.Keys && AnyPositive(c) && Filled(root, c, base, cap, target, raw, Some(dual))
    ensures dual > 0.0 && Between(Water(root, c, base, cap, dual), raw, cap)
  {
  }
}
