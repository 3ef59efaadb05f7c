/** run_all: the five allocators on one queue. Random draws and the square roots of the
    estimated variances are parameters. */
module CompareAll {
  import opened Prelude
  import opened Dicts
  import opened Schema
  import opened BranchCost
  import opened AllocatorSpec
  import opened Baselines
  import opened Comparison
  import opened Proportions
  import Allocator

  function FixedRaw(prefixes: seq<Prefix>, budget: int, nMin: int, u: int): (raw: map<string, int>)
    requires prefixes != []
    ensures raw.Keys == IdsOf(prefixes)
  {
    map k | k in IdsOf(prefixes) :: Max(Min(budget / |prefixes|, u), nMin)
  }

  function UncertaintyWeights(prefixes: seq<Prefix>): (w: map<string, real>)
    ensures w.Keys == IdsOf(prefixes)
  {
    if prefixes == [] then map[]
    else
      var n := |prefixes| - 1;
      assert prefixes == prefixes[..n] + [prefixes[n]];
      UncertaintyWeights(prefixes[..n])[prefixes[n].id := MaxReal(prefixes[n].naive, 0.000000001)]
  }

  method QueueObjectiveOf(prefixes: seq<Prefix>, a: map<string, int>) returns (total: real)
    ensures total == QueueObjective(prefixes, a)
  {
    total := 0.0;
    for i := 0 to |prefixes|
      invariant total == QueueObjective(prefixes[..i], a)
    {
      assert prefixes[..i + 1][..i] == prefixes[..i];
      var p := prefixes[i];
      total := total + Share(p.cTrue, if p.id in a then a[p.id] else 1);
    }
    assert prefixes[..|prefixes|] == prefixes;
  }

  /** allocate_vdra, on freshly built node dictionaries. */
  method Vdra(prefixes: seq<Prefix>, budget: int, nMin: int, u: int) returns (r: Result<map<string, int>, Error>)
    ensures var s := AllocateVdra(prefixes, budget, nMin, u);
      r == if s.Ok? then Ok(s.value.allocations) else Err(s.error)
  {
    hide Allocate;
    hide AllocateStore;
    hide NodeFor;
    var nodes := BuildNodes(prefixes, u);
    assert Contents(nodes, Snapshot(Allocator.NodeSet(nodes))) == NodesFor(prefixes, u);
    var s := Allocator.AllocateBranchFactors(nodes, VdraConfig(budget, nMin, u));
    r := if s.Ok? then Ok(s.value.allocations) else Err(s.error);
  }

  method BuildNodes(prefixes: seq<Prefix>, u: int) returns (nodes: seq<Node>)
    ensures fresh(nodes) && |nodes| == |prefixes|
    ensures forall i :: 0 <= i < |prefixes| ==> nodes[i].fields == NodeFor(prefixes[i], u)
  {
    hide NodeFor;
    nodes := [];
    for i := 0 to |prefixes|
      invariant fresh(nodes) && |nodes| == i
      invariant forall j :: 0 <= j < i ==> nodes[j].fields == NodeFor(prefixes[j], u)
    {
      var node := new Node(NodeFor(prefixes[i], u));
      nodes := nodes + [node];
    }
  }

  /** What ends a comparison early: a queue without prefixes divides by zero, no number can be
      drawn from an empty range, and the exact allocator may reject the budget. */
  datatype RunError = NoPrefixes | EmptyRange | Rejected(error: Error)

  datatype Line = Line(allocation: map<string, int>, objective: real)

  datatype Inputs = Inputs(prefixes: seq<Prefix>, budget: int, nMin: int, u: int, draws: map<string, int>,
    deviations: map<string, real>)
  {
    /** A queue for which the loops of the baselines end. */
    ghost predicate Ready() {
      && Proper(prefixes)
      && deviations.Keys == IdsOf(prefixes)
      && (nMin <= u ==> draws.Keys == IdsOf(prefixes) && forall k :: k in draws ==> nMin <= draws[k] <= u)
      && (prefixes != [] ==> Ends(|prefixes|, budget, nMin, u))
    }

    ghost predicate Runs() {
      Ready() && prefixes != [] && nMin <= u
    }

    /** The weights of the two proportional baselines. */
    function Weights(i: nat): (weights: map<string, real>) {
      if i == 2 then UncertaintyWeights(prefixes) else deviations
    }

    /** What a baseline starts from: fixed, random, uncertainty and empirical variance. */
    ghost function Raw(i: nat): (raw: map<string, int>)
      requires Runs()
      ensures raw.Keys == IdsOf(prefixes)
    {
      if i == 0 then FixedRaw(prefixes, budget, nMin, u)
      else if i == 1 then draws
      else ProportionalRaw(Weights(i), budget, nMin)
    }
  }

  /** Every prefix starts with its part of the budget, rounded down and moved into the bounds. */
  ghost predicate Even(x: Inputs, raw: map<string, int>) {
    forall k :: k in raw ==>
      var v, n := raw[k], |x.prefixes|;
      && x.nMin <= v <= x.u
      && (v < x.u ==> x.budget < (v + 1) * n)
      && (v > x.nMin ==> v * n <= x.budget)
  }

  /** Every prefix weighs as much as its naive uncertainty, but no less than 1e-9. */
  ghost predicate Weighed(prefixes: seq<Prefix>, weights: map<string, real>) {
    && weights.Keys == IdsOf(prefixes)
    && forall i :: 0 <= i < |prefixes| ==> Weighs(prefixes[i], weights)
  }

  predicate Weighs(p: Prefix, weights: map<string, real>) {
    && p.id in weights && weights[p.id] >= p.naive && weights[p.id] >= 0.000000001
    && (weights[p.id] == p.naive || weights[p.id] == 0.000000001)
  }

  /** What is known of the starts before anything is scaled. */
  ghost predicate Started(x: Inputs, i: nat)
    requires x.Runs()
  {
    && (i == 0 ==> Even(x, x.Raw(i)))
    && (i == 1 ==> x.Raw(i) == x.draws)
    && (i >= 2 ==> NearShares(x.Raw(i), x.Weights(i), x.budget, x.nMin))
    && (i == 2 ==> Weighed(x.prefixes, x.Weights(i)))
    && (i >= 3 ==> x.Weights(i) == x.deviations)
  }

  /** What baseline i ends with, and its score. The first starts evenly, the last two near their
      shares, by the naive uncertainty and by the deviations. */
  ghost predicate Scored(x: Inputs, i: nat, line: Line)
    requires x.Runs()
  {
    && IsScaled(x.Raw(i), x.budget, x.nMin, x.u, line.allocation)
    && line.objective == QueueObjective(x.prefixes, line.allocation)
    && Started(x, i)
  }

  lemma FixedIsEven(x: Inputs)
    requires x.Runs()
    ensures Even(x, FixedRaw(x.prefixes, x.budget, x.nMin, x.u))
  {
    hide Proper;
    hide Ends;
    var n := |x.prefixes|;
    FloorQuotient(x.budget, n, x.budget / n);
    var v := Max(Min(x.budget / n, x.u), x.nMin);
    forall k | k in IdsOf(x.prefixes) ensures FixedRaw(x.prefixes, x.budget, x.nMin, x.u)[k] == v {
    }
    QuotientMoved(x.budget, n, x.budget / n, v, x.nMin, x.u);
  }

  lemma FloorQuotient(a: int, n: nat, q: int)
    requires n > 0 && q == a / n
    ensures q * n <= a < (q + 1) * n
  {
  }

  lemma QuotientMoved(a: int, n: nat, q: int, v: int, lo: int, hi: int)
    requires q * n <= a < (q + 1) * n && v == Max(Min(q, hi), lo) && lo <= hi
    ensures lo <= v <= hi && (v < hi ==> a < (v + 1) * n) && (v > lo ==> v * n <= a)
  {
    if q < v {
      assert (q + 1) * n <= (v + 1) * n;
    } else {
      assert v * n <= q * n;
    }
  }

  lemma StillWeighs(p: Prefix, weights: map<string, real>, id: string, w: real)
    requires Weighs(p, weights) && p.id != id
    ensures Weighs(p, weights[id := w])
  {
  }

  lemma NewWeighs(p: Prefix, weights: map<string, real>)
    ensures Weighs(p, weights[p.id := MaxReal(p.naive, 0.000000001)])
  {
  }

  lemma {:induction false} UncertaintyWeighs(prefixes: seq<Prefix>)
    requires forall i, j :: 0 <= i < j < |prefixes| ==> prefixes[i].id != prefixes[j].id
    ensures Weighed(prefixes, UncertaintyWeights(prefixes))
  {
    hide Weighs;
    if prefixes != [] {
      var n := |prefixes| - 1;
      UncertaintyWeighs(prefixes[..n]);
      var before, after := UncertaintyWeights(prefixes[..n]), UncertaintyWeights(prefixes);
      assert after == before[prefixes[n].id := MaxReal(prefixes[n].naive, 0.000000001)];
      forall i | 0 <= i < |prefixes| ensures Weighs(prefixes[i], after) {
        if i < n {
          assert prefixes[..n][i] == prefixes[i];
          StillWeighs(prefixes[i], before, prefixes[n].id, MaxReal(prefixes[n].naive, 0.000000001));
        } else {
          NewWeighs(prefixes[n], before);
        }
      }
    }
  }

  /** Settings for which no baseline beats the exact allocator. */
  ghost predicate Settled(x: Inputs) {
    x.nMin >= 1 || FeedsAll(|x.prefixes|, x.budget, x.u)
  }

  lemma StartsAsSaid(x: Inputs, i: nat)
    requires x.Runs()
    ensures Started(x, i)
  {
    hide Ends;
    hide IdsOf;
    hide FixedRaw;
    hide ProportionalRaw;
    hide NearShares;
    hide Even;
    hide Weighed;
    FixedIsEven(x);
    UncertaintyWeighs(x.prefixes);
    ProportionalNear(x.Weights(i), x.budget, x.nMin);
  }

  /** One baseline: scaled to the budget and scored. */
  method Baseline(x: Inputs, ghost i: nat, raw: map<string, int>) returns (line: Line)
    requires x.Runs() && raw == x.Raw(i)
    ensures Scored(x, i, line)
    ensures Settled(x) ==> Wins(x.prefixes, x.budget, x.nMin, x.u, line.allocation)
  {
    hide IsScaled;
    hide Started;
    hide Wins;
    hide Proper;
    hide IdsOf;
    hide FeedsAll;
    hide ProportionalRaw;
    hide FixedRaw;
    hide UncertaintyWeights;
    StartsAsSaid(x, i);
    IdsCount(x.prefixes);
    assert |raw| == |raw.Keys|;
    var alloc := ScaleToBudget(raw, x.budget, x.nMin, x.u);
    var objective := QueueObjectiveOf(x.prefixes, alloc);
    line := Line(alloc, objective);
    if Settled(x) {
      VdraWins(x.prefixes, raw, x.budget, x.nMin, x.u, alloc);
    }
  }

  /** The four baselines, up to the one that raises. */
  method Baselines4(x: Inputs) returns (r: Result<seq<Line>, RunError>)
    requires x.Ready()
    ensures r == Err(NoPrefixes) <==> x.prefixes == []
    ensures r == Err(EmptyRange) <==> x.prefixes != [] && x.nMin > x.u
    ensures r.Ok? <==> x.Runs()
    ensures r.Ok? ==> |r.value| == 4 && forall i :: 0 <= i < 4 ==> Scored(x, i, r.value[i])
    ensures r.Ok? && Settled(x)
      ==> forall i :: 0 <= i < 4 ==> Wins(x.prefixes, x.budget, x.nMin, x.u, r.value[i].allocation)
  {
    hide Scored;
    hide Proper;
    hide IdsOf;
    hide Wins;
    hide Settled;
    hide Ends;
    hide ProportionalRaw;
    hide FixedRaw;
    hide UncertaintyWeights;
    hide NearShares;
    hide Started;
    if x.prefixes == [] {
      return Err(NoPrefixes);
    }
    if x.nMin > x.u {
      return Err(EmptyRange);
    }
    var raw := FixedRaw(x.prefixes, x.budget, x.nMin, x.u);
    var fixed := Baseline(x, 0, raw);
    var random := Baseline(x, 1, x.draws);
    raw := Proportional(UncertaintyWeights(x.prefixes), x.budget, x.nMin);
    var uncertainty := Baseline(x, 2, raw);
    raw := Proportional(x.deviations, x.budget, x.nMin);
    var empirical := Baseline(x, 3, raw);
    r := Ok([fixed, random, uncertainty, empirical]);
  }

  /** run_all: fixed, random, uncertainty, empirical variance, and the exact allocator last. The
      run raises exactly without prefixes, with no number to draw, or with a budget that misses
      the minimum; and the exact allocator never loses while the minimum is positive or the
      budget leaves no prefix without a branch. */
  method RunAll(x: Inputs) returns (r: Result<seq<Line>, RunError>)
    requires x.Ready()
    ensures r == Err(NoPrefixes) <==> x.prefixes == []
    ensures r == Err(EmptyRange) <==> x.prefixes != [] && x.nMin > x.u
    ensures r.Ok? <==> x.Runs() && x.budget >= |x.prefixes| * Max(x.nMin, 1)
    ensures r.Ok? ==> |r.value| == 5 && forall i :: 0 <= i < 4 ==> Scored(x, i, r.value[i])
    ensures x.Runs() ==> var best := AllocateVdra(x.prefixes, x.budget, x.nMin, x.u);
      if best.Err? then r == Err(Rejected(best.error))
      else r.Ok? && r.value[4] == Line(best.value.allocations, QueueObjective(x.prefixes, best.value.allocations))
    ensures x.Runs() && Settled(x)
      ==> r.Ok? && forall i :: 0 <= i < 4 ==> r.value[4].objective <= r.value[i].objective
  {
    hide IsScaled;
    hide Proper;
    hide IdsOf;
    hide AllocateVdra;
    hide Settled;
    hide Started;
    hide ProportionalRaw;
    hide FixedRaw;
    hide UncertaintyWeights;
    var baselines := Baselines4(x);
    if baselines.Err? {
      return Err(baselines.error);
    }
    VdraAccepts(x.prefixes, x.budget, x.nMin, x.u);
    var best := Vdra(x.prefixes, x.budget, x.nMin, x.u);
    if best.Err? {
      assert !Wins(x.prefixes, x.budget, x.nMin, x.u, baselines.value[0].allocation);
      return Err(Rejected(best.error));
    }
    var objective := QueueObjectiveOf(x.prefixes, best.value);
    r := Ok(baselines.value + [Line(best.value, objective)]);
  }
}
