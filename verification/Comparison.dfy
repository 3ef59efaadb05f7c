/** The comparison script: the exact allocator against the baselines, by the queue objective. */
module Comparison {
  import opened Prelude
  import opened Dicts
  import opened Schema
  import opened Separable
  import opened BranchCost
  import opened AllocatorSpec
  import opened AllocatorTheorems
  import opened FeasibilityRepair
  import opened Levelling
  import opened Baselines
  import NeverWorse

  datatype Prefix = Prefix(id: string, cTrue: real, naive: real)

  function IdsOf(prefixes: seq<Prefix>): set<string> {
    set p | p in prefixes :: p.id
  }

  /** Identifiers are distinct and not empty, and the oracle dispersions are not negative. */
  ghost predicate Proper(prefixes: seq<Prefix>) {
    && (forall i :: 0 <= i < |prefixes| ==> prefixes[i].id != "" && prefixes[i].cTrue >= 0.0)
    && (forall i, j :: 0 <= i < j < |prefixes| ==> prefixes[i].id != prefixes[j].id)
  }

  /** The dictionary built for one prefix. */
  function NodeFor(p: Prefix, u: int): Fields {
    BLANK.(id := Some(p.id), vdraDefaultK := Some(u), vdraDispersionC := Some(p.cTrue))
  }

  function NodesFor(prefixes: seq<Prefix>, u: int): (fs: seq<Fields>)
    ensures |fs| == |prefixes|
    ensures forall i :: 0 <= i < |prefixes| ==> fs[i] == NodeFor(prefixes[i], u)
  {
    seq(|prefixes|, i requires 0 <= i < |prefixes| => NodeFor(prefixes[i], u))
  }

  function VdraConfig(budget: int, nMin: int, u: int): Config {
    Config(budget, nMin, None, true, u, ConfiguredMaxForAll, ExpandNonredundantCaps, None)
  }

  ghost function AllocateVdra(prefixes: seq<Prefix>, budget: int, nMin: int, u: int): Result<Summary, Error> {
    Allocate(NodesFor(prefixes, u), VdraConfig(budget, nMin, u))
  }

  /** queue_objective; a missing identifier counts as one branch. */
  function QueueObjective(prefixes: seq<Prefix>, a: map<string, int>): real {
    if prefixes == [] then 0.0
    else
      var p := prefixes[|prefixes| - 1];
      QueueObjective(prefixes[..|prefixes| - 1], a) + Share(p.cTrue, if p.id in a then a[p.id] else 1)
  }

  /** A prefix that an allocation leaves out counts as if it had one branch. */
  lemma {:induction false} LeftOutCountsOnce(prefixes: seq<Prefix>, a: map<string, int>, id: string)
    requires id !in a
    ensures QueueObjective(prefixes, a) == QueueObjective(prefixes, a[id := 1])
  {
    if prefixes != [] {
      LeftOutCountsOnce(prefixes[..|prefixes| - 1], a, id);
    }
  }

  lemma {:induction false} ObjectiveOfQueue(prefixes: seq<Prefix>, c: map<string, real>, a: map<string, int>,
                                            part: map<string, int>)
    requires Proper(prefixes) && part.Keys == IdsOf(prefixes)
    requires forall k :: k in part ==> k in a && part[k] == a[k]
    requires forall i :: 0 <= i < |prefixes| ==> prefixes[i].id in c && c[prefixes[i].id] == prefixes[i].cTrue
    ensures QueueObjective(prefixes, a) == Objective(c, part)
  {
    if prefixes == [] {
      assert part == map[];
    } else {
      var n := |prefixes| - 1;
      var p := prefixes[n];
      assert p in prefixes;
      SplitCost(DispersionCost(c), part, p.id);
      forall k ensures k in part - {p.id} <==> k in IdsOf(prefixes[..n]) {
        if k in part - {p.id} {
          var i :| 0 <= i < |prefixes| && prefixes[i].id == k;
          assert prefixes[i] in prefixes[..n];
        }
      }
      assert (part - {p.id}).Keys == IdsOf(prefixes[..n]);
      ObjectiveOfQueue(prefixes[..n], c, a, part - {p.id});
    }
  }

  /** The bounds and dispersions the solver sees. */
  ghost predicate Faithful(prefixes: seq<Prefix>, s: Summary, budget: int, nMin: int, u: int) {
    && s.allocations.Keys == s.lower.Keys == s.upper.Keys == s.dispersion.Keys == IdsOf(prefixes)
    && (forall k :: k in s.lower ==> s.lower[k] == Max(nMin, 1) && s.upper[k] == Max(u, Max(nMin, 1)))
    && (forall i :: 0 <= i < |prefixes| ==>
          prefixes[i].id in s.dispersion && s.dispersion[prefixes[i].id] == prefixes[i].cTrue)
    && s.granted == budget
  }

  ghost predicate Affordable(n: nat, budget: int, nMin: int, u: int) {
    n * Max(nMin, 1) <= budget <= n * Max(u, Max(nMin, 1))
  }

  lemma NodeForLimits(p: Prefix, u: int, budget: int, nMin: int, i: nat)
    requires p.id != "" && p.cTrue >= 0.0
    ensures NodeId(NodeFor(p, u), i) == p.id
    ensures RawDispersion(NodeFor(p, u), None) == p.cTrue
    ensures LimitsOf(NodeFor(p, u), VdraConfig(budget, nMin, u)).dispersion == p.cTrue
    ensures LimitsOf(NodeFor(p, u), VdraConfig(budget, nMin, u)).upper == Max(u, Max(nMin, 1))
  {
  }

  lemma NodesAcceptable(prefixes: seq<Prefix>, u: int, cfg: Config)
    requires Proper(prefixes) && cfg.weightKey.None?
    ensures DistinctIds(NodesFor(prefixes, u)) && ValidDispersions(NodesFor(prefixes, u), cfg)
  {
    hide NodeId;
    hide RawDispersion;
    hide LimitsOf;
    hide NodeFor;
    forall i | 0 <= i < |prefixes|
      ensures NodeId(NodesFor(prefixes, u)[i], i) == prefixes[i].id
      ensures RawDispersion(NodesFor(prefixes, u)[i], None) == prefixes[i].cTrue
    {
      NodeForLimits(prefixes[i], u, 0, 0, i);
    }
  }

  lemma SummaryParts(t: map<string, Limits>, cfg: Config)
    requires Sum(Lowers(t, cfg)) <= cfg.totalBudget && Sum(Lowers(t, cfg)) <= Sum(FinalUppers(t, cfg))
    ensures Summarize(t, cfg).lower == Lowers(t, cfg) && Summarize(t, cfg).dispersion == Dispersions(t)
  {
    hide Allocation;
    hide Objective;
    hide Reference;
    hide FinalUppers;
    hide Repairs;
    TableKeys(t, cfg);
  }

  lemma IntakeOfQueue(prefixes: seq<Prefix>, budget: int, nMin: int, u: int)
    requires Proper(prefixes) && Intake(NodesFor(prefixes, u), VdraConfig(budget, nMin, u)).Ok?
    ensures var t := Intake(NodesFor(prefixes, u), VdraConfig(budget, nMin, u)).value;
      && t.Keys == IdsOf(prefixes) && |t| == |prefixes|
      && (forall k :: k in t ==> t[k].upper == Max(u, Max(nMin, 1)))
      && (forall i :: 0 <= i < |prefixes| ==> prefixes[i].id in t && t[prefixes[i].id].dispersion == prefixes[i].cTrue)
  {
    hide NodeId;
    hide LimitsOf;
    hide RawDispersion;
    hide NodeFor;
    hide Intake;
    var fs, cfg := NodesFor(prefixes, u), VdraConfig(budget, nMin, u);
    var t := Intake(fs, cfg).value;
    IntakeDescribes(fs, cfg);
    forall i | 0 <= i < |prefixes|
      ensures NodeId(fs[i], i) == prefixes[i].id
      ensures LimitsOf(fs[i], cfg).dispersion == prefixes[i].cTrue && LimitsOf(fs[i], cfg).upper == Max(u, Max(nMin, 1))
    {
      NodeForLimits(prefixes[i], u, budget, nMin, i);
    }
    forall k | k in t
      ensures k in IdsOf(prefixes) && t[k].upper == Max(u, Max(nMin, 1))
    {
      var i :| 0 <= i < |fs| && NodeId(fs[i], i) == k;
      assert prefixes[i] in prefixes;
    }
    forall k | k in IdsOf(prefixes) ensures k in t {
      var i :| 0 <= i < |prefixes| && prefixes[i].id == k;
      assert NodeId(fs[i], i) in t;
    }
  }

  /** On every proper queue with an affordable budget the allocator succeeds, spends it all,
      and knows the true dispersions and bounds. */
  lemma VdraSucceeds(prefixes: seq<Prefix>, budget: int, nMin: int, u: int)
    requires Proper(prefixes) && prefixes != [] && Affordable(|prefixes|, budget, nMin, u)
    ensures AllocateVdra(prefixes, budget, nMin, u).Ok?
    ensures Faithful(prefixes, AllocateVdra(prefixes, budget, nMin, u).value, budget, nMin, u)
    ensures Balanced(AllocateVdra(prefixes, budget, nMin, u).value, budget)
  {
    hide Allocate;
    hide Proper;
    hide DistinctIds;
    hide ValidDispersions;
    hide Intake;
    hide NodesFor;
    hide Balanced;
    var fs, cfg := NodesFor(prefixes, u), VdraConfig(budget, nMin, u);
    NodesAcceptable(prefixes, u, cfg);
    AllocateAccepts(fs, cfg);
    var s := Allocate(fs, cfg).value;
    AllocateBalanced(fs, cfg, s);
    VdraFaithful(prefixes, budget, nMin, u, s);
  }

  lemma VdraParts(prefixes: seq<Prefix>, budget: int, nMin: int, u: int, s: Summary)
    requires Allocate(NodesFor(prefixes, u), VdraConfig(budget, nMin, u)) == Ok(s)
    ensures Intake(NodesFor(prefixes, u), VdraConfig(budget, nMin, u)).Ok?
    ensures var cfg := VdraConfig(budget, nMin, u);
      var t := Intake(NodesFor(prefixes, u), cfg).value;
      && s.lower == Lowers(t, cfg) && s.dispersion == Dispersions(t) && s.upper == Uppers(t)
      && s.allocations.Keys == t.Keys && s.granted == Min(budget, Sum(s.upper))
  {
    hide Allocate;
    hide Intake;
    hide Greedily;
    hide Summarize;
    hide WellPosed;
    hide InBox;
    hide FinalUppers;
    hide NodesFor;
    hide Lowers;
    hide Uppers;
    var fs, cfg := NodesFor(prefixes, u), VdraConfig(budget, nMin, u);
    AllocateSummarizes(fs, cfg);
    RepairIsIdle(fs, cfg, s);
    SummaryParts(Intake(fs, cfg).value, cfg);
    AllocateBalanced(fs, cfg, s);
  }

  lemma VdraFaithful(prefixes: seq<Prefix>, budget: int, nMin: int, u: int, s: Summary)
    requires Proper(prefixes) && Affordable(|prefixes|, budget, nMin, u)
    requires Allocate(NodesFor(prefixes, u), VdraConfig(budget, nMin, u)) == Ok(s)
    ensures Faithful(prefixes, s, budget, nMin, u)
  {
    hide Allocate;
    hide Proper;
    hide Intake;
    hide IdsOf;
    hide NodesFor;
    VdraParts(prefixes, budget, nMin, u, s);
    IntakeOfQueue(prefixes, budget, nMin, u);
    SumConstant(s.upper, Max(u, Max(nMin, 1)));
    assert |s.upper.Keys| == |s.upper|;
    assert s.upper.Keys == Intake(NodesFor(prefixes, u), VdraConfig(budget, nMin, u)).value.Keys;
  }

  lemma BaselineInBox(prefixes: seq<Prefix>, s: Summary, budget: int, nMin: int, u: int, r: map<string, int>)
    requires Faithful(prefixes, s, budget, nMin, u)
    requires r.Keys == IdsOf(prefixes) && forall k :: k in r ==> Max(nMin, 1) <= r[k] <= Max(nMin, u)
    ensures InBox(r, s.lower, s.upper)
  {
    hide IdsOf;
  }

  /** No allocation within the baselines' bounds that gives every prefix a branch is better
      than the exact one. */
  lemma {:induction false} VdraBest(prefixes: seq<Prefix>, budget: int, nMin: int, u: int, r: map<string, int>)
    requires Proper(prefixes) && prefixes != [] && Affordable(|prefixes|, budget, nMin, u)
    requires r.Keys == IdsOf(prefixes) && Sum(r) == budget && forall k :: k in r ==>
      Max(nMin, 1) <= r[k] <= Max(nMin, u)
    ensures AllocateVdra(prefixes, budget, nMin, u).Ok?
    ensures QueueObjective(prefixes, AllocateVdra(prefixes, budget, nMin, u).value.allocations) <=
      QueueObjective(prefixes, r)
  {
    hide Allocate;
    hide Objective;
    hide InBox;
    hide Balanced;
    hide IdsOf;
    VdraSucceeds(prefixes, budget, nMin, u);
    var s := AllocateVdra(prefixes, budget, nMin, u).value;
    BaselineInBox(prefixes, s, budget, nMin, u, r);
    AllocateOptimal(NodesFor(prefixes, u), VdraConfig(budget, nMin, u), s, r);
    ObjectiveOfQueue(prefixes, s.dispersion, s.allocations, s.allocations);
    ObjectiveOfQueue(prefixes, s.dispersion, r, r);
  }

  /** The comparison comes out for the exact allocator against one baseline. */
  ghost predicate Wins(prefixes: seq<Prefix>, budget: int, nMin: int, u: int, r: map<string, int>) {
    && AllocateVdra(prefixes, budget, nMin, u).Ok?
    && QueueObjective(prefixes, AllocateVdra(prefixes, budget, nMin, u).value.allocations) <=
      QueueObjective(prefixes, r)
  }

  ghost predicate WinsAlways(ids: seq<string>, budget: int, nMin: int, u: int) {
    forall prefixes, raw: map<string, int>, r ::
      Proper(prefixes) && Names(prefixes) == ids && raw.Keys == IdsOf(prefixes) && IsScaled(raw, budget, nMin, u, r)
      ==> Wins(prefixes, budget, nMin, u, r)
  }

  function Names(prefixes: seq<Prefix>): (names: seq<string>)
    ensures |names| == |prefixes|
    ensures forall i :: 0 <= i < |prefixes| ==> names[i] == prefixes[i].id
  {
    seq(|prefixes|, i requires 0 <= i < |prefixes| => prefixes[i].id)
  }

  /** The loops of the baselines end on n keys. */
  ghost predicate Ends(n: nat, budget: int, nMin: int, u: int) {
    n * nMin <= budget <= n * Max(nMin, u)
  }

  /** There is a branch for every prefix, and too many for all but one of them. */
  ghost predicate FeedsAll(n: nat, budget: int, u: int) {
    budget >= n && budget > (n - 1) * u
  }

  lemma EndsAffordable(n: nat, budget: int, nMin: int, u: int)
    requires n > 0 && Ends(n, budget, nMin, u) && (nMin >= 1 || budget >= n)
    ensures Affordable(n, budget, nMin, u) && (nMin < 1 ==> u >= 1)
  {
    if nMin < 1 {
      CapAtLeastOne(n, budget, Max(nMin, u));
    }
  }

  lemma ScaledEnds(prefixes: seq<Prefix>, raw: map<string, int>, budget: int, nMin: int, u: int, r: map<string, int>)
    requires Proper(prefixes) && raw.Keys == IdsOf(prefixes) && IsScaled(raw, budget, nMin, u, r)
    ensures Ends(|prefixes|, budget, nMin, u)
  {
    hide IsScaled;
    hide Proper;
    hide IdsOf;
    ScaleEndsIff(raw, budget, nMin, u);
    IdsCount(prefixes);
    assert |raw| == |raw.Keys|;
  }

  /** With a minimum of at least one branch, it wins against whatever is scaled to the budget:
      the fixed, the random, the uncertainty and the empirical-variance allocation alike. With
      a smaller minimum it still does if the budget leaves no prefix without a branch. */
  lemma VdraWins(prefixes: seq<Prefix>, raw: map<string, int>, budget: int, nMin: int, u: int, r: map<string, int>)
    requires Proper(prefixes) && prefixes != [] && raw.Keys == IdsOf(prefixes)
    requires IsScaled(raw, budget, nMin, u, r)
    requires nMin >= 1 || FeedsAll(|prefixes|, budget, u)
    ensures Wins(prefixes, budget, nMin, u, r)
  {
    hide IsScaled;
    hide Proper;
    hide IdsOf;
    hide AllocateVdra;
    ScaledWithinBounds(raw, budget, nMin, u, r);
    ScaledEnds(prefixes, raw, budget, nMin, u, r);
    EndsAffordable(|prefixes|, budget, nMin, u);
    IdsCount(prefixes);
    if nMin < 1 {
      AbundanceFeedsAll(r, budget, u, |prefixes|);
    }
    VdraBest(prefixes, budget, nMin, u, r);
  }

  lemma OneMoreId(prefixes: seq<Prefix>)
    requires Proper(prefixes) && prefixes != []
    ensures var n := |prefixes| - 1;
      prefixes[n].id !in IdsOf(prefixes[..n]) && IdsOf(prefixes) == IdsOf(prefixes[..n]) + {prefixes[n].id}
  {
    var n := |prefixes| - 1;
    assert forall p :: p in prefixes <==> p in prefixes[..n] || p == prefixes[n];
  }

  lemma {:induction false} IdsCount(prefixes: seq<Prefix>)
    requires Proper(prefixes)
    ensures |IdsOf(prefixes)| == |prefixes|
  {
    if prefixes != [] {
      var n := |prefixes| - 1;
      IdsCount(prefixes[..n]);
      OneMoreId(prefixes);
    }
  }

  lemma ProductNotPositive(n: int, u: int)
    requires n >= 0 && u <= 0
    ensures n * u <= 0
  {
  }

  lemma CapAtLeastOne(n: nat, budget: int, u: int)
    requires n * 1 <= budget <= n * u && n > 0
    ensures u >= 1
  {
    if u < 1 {
      ProductNotPositive(n, u);
    }
  }

  lemma {:induction false} AtLeastTheRest(r: map<string, int>, k: string, u: int)
    requires k in r && forall j :: j in r ==> r[j] <= u
    ensures r[k] >= Sum(r) - (|r.Keys| - 1) * u
  {
    hide Sum;
    SumSplit(r, k);
    var rest := r - {k};
    assert rest.Keys == r.Keys - {k};
    var n := |r.Keys| - 1;
    assert |rest.Keys| == n;
    SumAtMost(rest, u);
    assert Sum(rest) <= n * u;
  }

  lemma {:induction false} SumAtMost(r: map<string, int>, u: int)
    requires forall j :: j in r ==> r[j] <= u
    ensures Sum(r) <= |r.Keys| * u
  {
    UniformSum(r.Keys, u);
    SumLeq(r, Uniform(r.Keys, u));
  }

  lemma {:induction false} AbundanceFeedsAll(r: map<string, int>, budget: int, u: int, n: nat)
    requires |r.Keys| == n && Sum(r) == budget && budget > (n - 1) * u
    requires forall k :: k in r ==> r[k] <= u
    ensures forall k :: k in r ==> r[k] >= 1
  {
    forall k | k in r ensures r[k] >= 1 {
      AtLeastTheRest(r, k, u);
    }
  }

  /** One prefix of no consequence, the others all alike. */
  function Tilted(ids: seq<string>): (prefixes: seq<Prefix>)
    ensures |prefixes| == |ids| && Names(prefixes) == ids
    ensures forall i :: 0 <= i < |ids| ==> prefixes[i].id == ids[i]
  {
    seq(|ids|, i requires 0 <= i < |ids| => Prefix(ids[i], if i == 0 then 0.0 else 1.0, 1.0))
  }

  ghost predicate ProperIds(ids: seq<string>) {
    (forall i :: 0 <= i < |ids| ==> ids[i] != "") && forall i, j :: 0 <= i < j < |ids| ==> ids[i] != ids[j]
  }

  lemma ClipIdle(r: map<string, int>, nMin: int, u: int)
    requires forall k :: k in r ==> nMin <= r[k] <= u
    ensures Clip(r, nMin, u) == r
  {
  }

  lemma {:induction false} ScaledAlready(r: map<string, int>, budget: int, nMin: int, u: int)
    requires Sum(r) == budget && forall k :: k in r ==> nMin <= r[k] <= u
    ensures IsScaled(r, budget, nMin, u, r)
  {
    hide Rounds;
    hide Moved;
    hide SortedKeys;
    hide Clip;
    hide Less;
    hide More;
    hide RoomAbove;
    hide RoomBelow;
    ClipIdle(r, nMin, u);
    RoomsAreRounds(r, nMin, u);
    NothingLowered(r, SortedKeys(r.Keys), nMin);
    assert State(r, SortedKeys(r.Keys), budget, nMin, u, 0, 0) == r;
  }

  lemma RoomElsewhere(a: map<string, int>, z: string, u: int) returns (j: string)
    requires z in a && a[z] >= 1 && Sum(a) <= (|a.Keys| - 1) * u
    requires forall k :: k in a ==> a[k] <= u
    ensures j in a && j != z && a[j] < u
  {
    SumSplit(a, z);
    var rest := a - {z};
    assert rest.Keys == a.Keys - {z};
    UniformSum(rest.Keys, u);
    if forall k :: k in rest ==> rest[k] >= u {
      SumLeq(Uniform(rest.Keys, u), rest);
    }
    j :| j in rest && rest[j] < u;
  }

  lemma MoveToUseful(c: map<string, real>, a: map<string, int>, z: string, j: string)
    requires z in a && j in a && j != z && z in c && j in c
    requires c[z] == 0.0 && c[j] == 1.0 && a[j] >= 1
    ensures Objective(c, a[z := a[z] - 1][j := a[j] + 1]) < Objective(c, a)
  {
    hide TotalCost;
    SwapTotals(DispersionCost(c), a, z, j);
    NeverWorse.ShareFalls(a[j], a[j] + 1);
  }

  /** A minimum below one lets the baselines leave a prefix without any branch, which the
      exact allocator never does; with a budget that can be spent elsewhere it then loses. */
  lemma VdraLoses(ids: seq<string>, budget: int, nMin: int, u: int)
    returns (prefixes: seq<Prefix>, r: map<string, int>)
    requires ProperIds(ids) && ids != [] && Ends(|ids|, budget, nMin, u)
    requires nMin < 1 && |ids| <= budget <= (|ids| - 1) * u
    ensures Proper(prefixes) && Names(prefixes) == ids && r.Keys == IdsOf(prefixes)
    ensures IsScaled(r, budget, nMin, u, r)
    ensures AllocateVdra(prefixes, budget, nMin, u).Ok? && !Wins(prefixes, budget, nMin, u, r)
  {
    hide IsScaled;
    hide AllocateVdra;
    hide Proper;
    hide Balanced;
    prefixes := Tilted(ids);
    TiltedProper(ids);
    EndsAffordable(|ids|, budget, nMin, u);
    VdraSucceeds(prefixes, budget, nMin, u);
    IdsCount(prefixes);
    var s := AllocateVdra(prefixes, budget, nMin, u).value;
    AtMostU(s, budget, u);
    r := BetterThan(ids, s, budget, nMin, u);
  }

  /** On a proper queue the exact allocator succeeds exactly with a budget for every minimum. */
  lemma VdraAccepts(prefixes: seq<Prefix>, budget: int, nMin: int, u: int)
    requires Proper(prefixes)
    ensures AllocateVdra(prefixes, budget, nMin, u).Ok? <==> prefixes != [] && budget >= |prefixes| * Max(nMin, 1)
  {
    hide Proper;
    hide Allocate;
    hide DistinctIds;
    hide ValidDispersions;
    hide Intake;
    NodesAcceptable(prefixes, u, VdraConfig(budget, nMin, u));
    AllocateAccepts(NodesFor(prefixes, u), VdraConfig(budget, nMin, u));
  }

  /** The exact allocator raises, although the baselines end, when there is no prefix, or when
      there is not a branch for each of them. */
  lemma VdraRaises(ids: seq<string>, budget: int, nMin: int, u: int)
    returns (prefixes: seq<Prefix>, raw: map<string, int>, r: map<string, int>)
    requires ProperIds(ids) && Ends(|ids|, budget, nMin, u)
    requires ids == [] || budget < |ids| * Max(nMin, 1)
    ensures Proper(prefixes) && Names(prefixes) == ids && raw.Keys == IdsOf(prefixes)
    ensures IsScaled(raw, budget, nMin, u, r) && AllocateVdra(prefixes, budget, nMin, u).Err?
  {
    hide IsScaled;
    hide Proper;
    hide AllocateVdra;
    prefixes := Tilted(ids);
    TiltedProper(ids);
    IdsCount(prefixes);
    raw := Uniform(IdsOf(prefixes), 0);
    assert |raw| == |raw.Keys| == |ids|;
    ScaleEndsIff(raw, budget, nMin, u);
    r :| IsScaled(raw, budget, nMin, u, r);
    VdraAccepts(prefixes, budget, nMin, u);
  }

  lemma BetterThan(ids: seq<string>, s: Summary, budget: int, nMin: int, u: int) returns (r: map<string, int>)
    requires ProperIds(ids) && ids != [] && nMin < 1 && budget <= (|ids| - 1) * u
    requires s.allocations.Keys == s.dispersion.Keys == IdsOf(Tilted(ids)) && |IdsOf(Tilted(ids))| == |ids|
    requires Sum(s.allocations) == budget && forall k :: k in s.allocations ==> 1 <= s.allocations[k] <= u
    requires forall i :: 0 <= i < |ids| ==> ids[i] in s.dispersion && s.dispersion[ids[i]] == Tilted(ids)[i].cTrue
    ensures r.Keys == IdsOf(Tilted(ids)) && IsScaled(r, budget, nMin, u, r)
    ensures QueueObjective(Tilted(ids), r) < QueueObjective(Tilted(ids), s.allocations)
  {
    hide IsScaled;
    hide Proper;
    hide ProperIds;
    hide Objective;
    hide IdsOf;
    hide Tilted;
    var a, z := s.allocations, ids[0];
    TiltedProper(ids);
    TiltedUseful(ids, s.dispersion);
    var j := RoomElsewhere(a, z, u);
    r := a[z := a[z] - 1][j := a[j] + 1];
    MoveToUseful(s.dispersion, a, z, j);
    SumSet(a, z, a[z] - 1);
    SumSet(a[z := a[z] - 1], j, a[j] + 1);
    ScaledAlready(r, budget, nMin, u);
    ObjectiveOfQueue(Tilted(ids), s.dispersion, a, a);
    ObjectiveOfQueue(Tilted(ids), s.dispersion, r, r);
  }

  lemma TiltedProper(ids: seq<string>)
    requires ProperIds(ids)
    ensures Proper(Tilted(ids))
  {
  }

  lemma TiltedUseful(ids: seq<string>, c: map<string, real>)
    requires ProperIds(ids) && ids != [] && c.Keys == IdsOf(Tilted(ids))
    requires forall i :: 0 <= i < |ids| ==> ids[i] in c && c[ids[i]] == Tilted(ids)[i].cTrue
    ensures c[ids[0]] == 0.0 && forall k :: k in c && k != ids[0] ==> c[k] == 1.0
  {
    forall k | k in c && k != ids[0] ensures c[k] == 1.0 {
      var p :| p in Tilted(ids) && p.id == k;
      var i :| 0 <= i < |ids| && Tilted(ids)[i] == p;
    }
  }

  lemma AtMostU(s: Summary, budget: int, u: int)
    requires Balanced(s, budget) && s.granted == budget && u >= 1
    requires forall k :: k in s.lower ==> s.lower[k] == 1 && s.upper[k] == u
    ensures Sum(s.allocations) == budget
    ensures forall k :: k in s.allocations ==> 1 <= s.allocations[k] <= u
  {
    hide WellPosed;
  }

  /** Exactly when the comparison always comes out for the exact allocator, for all settings.
      Where the baselines do not end there is nothing to compare with; a raised error counts
      as not winning. */
  lemma WinsAlwaysIff(ids: seq<string>, budget: int, nMin: int, u: int)
    requires ProperIds(ids)
    ensures WinsAlways(ids, budget, nMin, u) <==>
      (Ends(|ids|, budget, nMin, u) ==> ids != [] && (nMin >= 1 || FeedsAll(|ids|, budget, u)))
  {
    hide IsScaled;
    hide Proper;
    hide ProperIds;
    hide AllocateVdra;
    var n := |ids|;
    if !Ends(n, budget, nMin, u) || (ids != [] && (nMin >= 1 || FeedsAll(n, budget, u))) {
      WinsWhereItEnds(ids, budget, nMin, u);
    } else if ids == [] || budget < n {
      var prefixes, raw, r := VdraRaises(ids, budget, nMin, u);
      assert !Wins(prefixes, budget, nMin, u, r);
    } else {
      var prefixes, r := VdraLoses(ids, budget, nMin, u);
      assert !Wins(prefixes, budget, nMin, u, r);
    }
  }

  lemma WinsWhereItEnds(ids: seq<string>, budget: int, nMin: int, u: int)
    requires Ends(|ids|, budget, nMin, u) ==> ids != [] && (nMin >= 1 || FeedsAll(|ids|, budget, u))
    ensures WinsAlways(ids, budget, nMin, u)
  {
    hide IsScaled;
    hide Proper;
    hide Wins;
    hide Ends;
    hide FeedsAll;
    forall prefixes, raw: map<string, int>, r |
      Proper(prefixes) && Names(prefixes) == ids && raw.Keys == IdsOf(prefixes) && IsScaled(raw, budget, nMin, u, r)
      ensures Wins(prefixes, budget, nMin, u, r)
    {
      ScaledEnds(prefixes, raw, budget, nMin, u, r);
      VdraWins(prefixes, raw, budget, nMin, u, r);
    }
  }
}
