/** What allocate_branch_factors_integer returns, as a function of what the nodes hold. */
module AllocatorSpec {
  import opened Prelude
  import opened Dicts
  import opened Schema
  import opened Separable
  import opened BranchCost

  datatype CapMode = BelowDefaultOnly | PredictedForAll | ConfiguredMaxForAll

  datatype UpperPolicy = ExpandNonredundantCaps | RaiseError

  datatype Config = Config(
    totalBudget: int, nMin: int, weightKey: Option<string>, strict: bool,
    maxK: int, capMode: CapMode, policy: UpperPolicy, maxRepairK: Option<int>)
  {
    function Floor(): int { Max(nMin, 1) }

    function Ceiling(): int { Max(maxK, Floor()) }

    function RepairCap(): int { Max(ValueOr(maxRepairK, Ceiling()), Ceiling()) }
  }

  /** The keyword defaults of allocate_branch_factors. */
  function DefaultConfig(totalBudget: int, nMin: int, strict: bool): Config {
    Config(totalBudget, nMin, None, strict, 12, BelowDefaultOnly, ExpandNonredundantCaps, None)
  }

  datatype Error =
    | EmptyNodeList
    | DuplicateId(key: string)
    | InvalidDispersion(value: real)
    | BelowLowerBounds(requested: int, lowerSum: int)
    | AboveUpperBounds(requested: int, upperSum: int)

  /** What the solver needs to know of one node. */
  datatype Limits = Limits(dispersion: real, default: int, predicted: int, upper: int, capped: bool)

  function RawDispersion(f: Fields, weightKey: Option<string>): real {
    if Truthy(weightKey) && weightKey.value in f.numbers then
      var weight := MaxReal(f.numbers[weightKey.value], 0.0);
      weight * weight
    else ValueOr(FirstSome([f.vdraDispersionC, f.gearRewardVariance]), 0.0)
  }

  function LimitsOf(f: Fields, cfg: Config): Limits {
    var floor := cfg.Floor();
    var default := Max(ValueOr(FirstSome([f.vdraDefaultK, f.defaultK, f.gearDefaultBranchFactor]),
      cfg.totalBudget), floor);
    var predicted := Max(ValueOr(FirstSome([f.vdraPredictedK, f.gearPredictedK, f.predictedK]), default), floor);
    var dispersion := MaxReal(RawDispersion(f, cfg.weightKey), 0.0);
    match cfg.capMode
    case BelowDefaultOnly =>
      if predicted < default then Limits(dispersion, default, predicted, predicted, true)
      else Limits(dispersion, default, predicted, cfg.Ceiling(), false)
    case PredictedForAll => Limits(dispersion, default, predicted, predicted, predicted < default)
    case ConfiguredMaxForAll => Limits(dispersion, default, predicted, cfg.Ceiling(), false)
  }

  /** One turn of the intake loop: the n-th node joins the table, or the call fails. */
  function IntakeOne(table: map<string, Limits>, f: Fields, n: nat, cfg: Config): Result<map<string, Limits>, Error> {
    var key := NodeId(f, n);
    if key in table then Err(DuplicateId(key))
    else if RawDispersion(f, cfg.weightKey) < 0.0
      && cfg.strict then Err(InvalidDispersion(RawDispersion(f, cfg.weightKey)))
    else Ok(table[key := LimitsOf(f, cfg)])
  }

  function Intake(fs: seq<Fields>, cfg: Config): Result<map<string, Limits>, Error> {
    if fs == [] then Ok(map[])
    else
      var n := |fs| - 1;
      var earlier := Intake(fs[..n], cfg);
      if earlier.Err? then earlier else IntakeOne(earlier.value, fs[n], n, cfg)
  }

  function Dispersions(t: map<string, Limits>): map<string, real> { map k | k in t :: t[k].dispersion }

  function Defaults(t: map<string, Limits>): map<string, int> { map k | k in t :: t[k].default }

  function Predictions(t: map<string, Limits>): map<string, int> { map k | k in t :: t[k].predicted }

  function Lowers(t: map<string, Limits>, cfg: Config): map<string, int> { map k | k in t :: cfg.Floor() }

  function Uppers(t: map<string, Limits>): map<string, int> { map k | k in t :: t[k].upper }

  /** The caps that the feasibility repair may lift: those not set by a redundancy finding. */
  predicate Liftable(l: Limits, cfg: Config) {
    !l.capped && l.upper < cfg.RepairCap()
  }

  function RepairedUppers(t: map<string, Limits>, cfg: Config): map<string, int> {
    map k | k in t :: if Liftable(t[k], cfg) then cfg.RepairCap() else t[k].upper
  }

  ghost predicate NeedsRepair(t: map<string, Limits>, cfg: Config) {
    cfg.totalBudget > Sum(Uppers(t)) && cfg.policy == ExpandNonredundantCaps
  }

  ghost function FinalUppers(t: map<string, Limits>, cfg: Config): map<string, int> {
    if NeedsRepair(t, cfg) then RepairedUppers(t, cfg) else Uppers(t)
  }

  datatype Summary = Summary(
    allocations: map<string, int>, dispersion: map<string, real>,
    defaults: map<string, int>, predicted: map<string, int>,
    lower: map<string, int>, upper: map<string, int>,
    pruned: map<string, int>, expanded: map<string, int>,
    transferred: int, requested: int, granted: int, underallocated: int,
    objectiveBefore: real, objectiveAfter: real, repairs: nat)

  function Pruned(defaults: map<string, int>, a: map<string, int>): (r: map<string, int>)
    requires defaults.Keys == a.Keys
    ensures r.Keys == a.Keys
  {
    map k | k in a :: Max(defaults[k] - a[k], 0)
  }

  function Expanded(defaults: map<string, int>, a: map<string, int>): (r: map<string, int>)
    requires defaults.Keys == a.Keys
    ensures r.Keys == a.Keys
  {
    map k | k in a :: Max(a[k] - defaults[k], 0)
  }

  function Clamped(defaults: map<string, int>, lower: map<string, int>, upper: map<string, int>): (r: map<string, int>)
    requires defaults.Keys == lower.Keys == upper.Keys
    ensures r.Keys == defaults.Keys
  {
    map k | k in defaults :: Clamp(defaults[k], lower[k], upper[k])
  }

  /** The reference that the objective is compared with: the defaults clamped to the bounds
      when those spend exactly the budget, and otherwise the bare defaults. */
  ghost function Reference(defaults: map<string, int>, lower: map<string, int>, upper: map<string, int>,
                           spendable: int): map<string, int>
    requires defaults.Keys == lower.Keys == upper.Keys
  {
    var clamped := Clamped(defaults, lower, upper);
    if Sum(clamped) == spendable then clamped else defaults
  }

  /** The outcome for given dispersions, defaults and bounds. */
  ghost function Outcome(c: map<string, real>, defaults: map<string, int>, predicted: map<string, int>,
                         lower: map<string, int>, upper: map<string, int>, budget: int, repairs: nat): Summary
    requires c.Keys == defaults.Keys == lower.Keys == upper.Keys
    requires Sum(lower) <= budget && Sum(lower) <= Sum(upper)
  {
    var spendable := Min(budget, Sum(upper));
    var a := Allocation(c, lower, upper, spendable - Sum(lower));
    var pruned, expanded := Pruned(defaults, a), Expanded(defaults, a);
    Summary(
      a, c, defaults, predicted, lower, upper, pruned, expanded,
      Min(Sum(pruned), Sum(expanded)), budget, Sum(a),
      budget - spendable + Max(spendable - Sum(a), 0),
      Objective(c, Reference(defaults, lower, upper, spendable)),
      Objective(c, a), repairs)
  }

  ghost function Repairs(t: map<string, Limits>, cfg: Config): nat {
    if NeedsRepair(t, cfg) then |set k | k in t && Liftable(t[k], cfg)| else 0
  }

  lemma TableKeys(t: map<string, Limits>, cfg: Config)
    ensures Dispersions(t).Keys == Lowers(t, cfg).Keys == FinalUppers(t, cfg).Keys == Defaults(t).Keys == t.Keys
  {
  }

  ghost function Summarize(t: map<string, Limits>, cfg: Config): Summary
    requires cfg.totalBudget >= Sum(Lowers(t, cfg))
    requires Sum(Lowers(t, cfg)) <= Sum(FinalUppers(t, cfg))
  {
    TableKeys(t, cfg);
    Outcome(Dispersions(t), Defaults(t), Predictions(t), Lowers(t, cfg), FinalUppers(t, cfg),
            cfg.totalBudget, Repairs(t, cfg))
  }

  lemma LimitsInOrder(f: Fields, cfg: Config)
    ensures var l := LimitsOf(f, cfg);
      l.dispersion >= 0.0 && l.upper >= cfg.Floor() && l.default >= cfg.Floor() && l.predicted >= cfg.Floor()
  {
    hide FirstSome;
  }

  /** Each node is in the table under its identifier, and nothing else is. */
  ghost predicate Describes(t: map<string, Limits>, fs: seq<Fields>, cfg: Config) {
    && (forall i :: 0 <= i < |fs| ==> NodeId(fs[i], i) in t && t[NodeId(fs[i], i)] == LimitsOf(fs[i], cfg))
    && (forall k :: k in t ==> exists i :: 0 <= i < |fs| && NodeId(fs[i], i) == k)
  }

  lemma DescribesOneMore(t: map<string, Limits>, fs: seq<Fields>, f: Fields, cfg: Config)
    requires Describes(t, fs, cfg) && NodeId(f, |fs|) !in t
    ensures Describes(t[NodeId(f, |fs|) := LimitsOf(f, cfg)], fs + [f], cfg)
  {
    hide NodeId;
    hide LimitsOf;
    var key, all := NodeId(f, |fs|), fs + [f];
    var t' := t[key := LimitsOf(f, cfg)];
    forall k | k in t' ensures exists i :: 0 <= i < |all| && NodeId(all[i], i) == k {
      if k in t {
        var i :| 0 <= i < |fs| && NodeId(fs[i], i) == k;
        assert NodeId(all[i], i) == k;
      } else {
        assert NodeId(all[|fs|], |fs|) == k;
      }
    }
    forall i | 0 <= i < |all| ensures NodeId(all[i], i) in t' && t'[NodeId(all[i], i)] == LimitsOf(all[i], cfg) {
      if i < |fs| {
        assert all[i] == fs[i] && NodeId(fs[i], i) in t;
      }
    }
  }

  lemma {:induction false} IntakeDescribes(fs: seq<Fields>, cfg: Config)
    requires Intake(fs, cfg).Ok?
    ensures Describes(Intake(fs, cfg).value, fs, cfg)
    ensures |Intake(fs, cfg).value| == |fs|
  {
    hide NodeId;
    hide LimitsOf;
    hide RawDispersion;
    if fs != [] {
      var n := |fs| - 1;
      IntakeDescribes(fs[..n], cfg);
      DescribesOneMore(Intake(fs[..n], cfg).value, fs[..n], fs[n], cfg);
      assert fs[..n] + [fs[n]] == fs;
    }
  }

  lemma {:induction false} IntakeInOrder(fs: seq<Fields>, cfg: Config)
    requires Intake(fs, cfg).Ok?
    ensures forall k :: k in Intake(fs, cfg).value ==>
      var l := Intake(fs, cfg).value[k];
      l.dispersion >= 0.0 && l.upper >= cfg.Floor() && l.default >= cfg.Floor() && l.predicted >= cfg.Floor()
  {
    hide NodeId;
    hide LimitsOf;
    hide Intake;
    IntakeDescribes(fs, cfg);
    var t := Intake(fs, cfg).value;
    forall k | k in t
      ensures t[k].dispersion >= 0.0 && t[k].upper >= cfg.Floor() && t[k].default >= cfg.Floor()
        && t[k].predicted >= cfg.Floor()
    {
      var i :| 0 <= i < |fs| && NodeId(fs[i], i) == k;
      LimitsInOrder(fs[i], cfg);
    }
  }

  /** The table of a successful intake is a well-posed instance of the solver's problem. */
  lemma {:induction false} TableWellPosed(fs: seq<Fields>, cfg: Config)
    requires Intake(fs, cfg).Ok?
    ensures var t := Intake(fs, cfg).value;
      && WellPosed(Dispersions(t), Lowers(t, cfg), FinalUppers(t, cfg))
      && Sum(Lowers(t, cfg)) == |fs| * cfg.Floor()
      && Sum(Lowers(t, cfg)) <= Sum(Uppers(t)) <= Sum(FinalUppers(t, cfg))
  {
    hide Intake;
    hide Describes;
    var t := Intake(fs, cfg).value;
    IntakeInOrder(fs, cfg);
    IntakeDescribes(fs, cfg);
    TableSums(t, cfg);
  }

  lemma TableSums(t: map<string, Limits>, cfg: Config)
    requires forall k :: k in t ==> t[k].upper >= cfg.Floor()
    ensures Sum(Lowers(t, cfg)) == |t| * cfg.Floor()
    ensures Sum(Lowers(t, cfg)) <= Sum(Uppers(t)) <= Sum(FinalUppers(t, cfg))
  {
    assert Lowers(t, cfg).Keys == t.Keys;
    SumConstant(Lowers(t, cfg), cfg.Floor());
    SumLeq(Lowers(t, cfg), Uppers(t));
    SumLeq(Uppers(t), FinalUppers(t, cfg));
  }

  ghost function Allocate(fs: seq<Fields>, cfg: Config): Result<Summary, Error> {
    if fs == [] then Err(EmptyNodeList)
    else
      var intake := Intake(fs, cfg);
      if intake.Err? then Err(intake.error)
      else
        var t := intake.value;
        TableWellPosed(fs, cfg);
        if cfg.totalBudget < Sum(Lowers(t, cfg)) then
          Err(BelowLowerBounds(cfg.totalBudget, Sum(Lowers(t, cfg))))
        else if cfg.totalBudget > Sum(FinalUppers(t, cfg)) && cfg.policy == RaiseError then
          Err(AboveUpperBounds(cfg.totalBudget, Sum(FinalUppers(t, cfg))))
        else Ok(Summarize(t, cfg))
  }

  /** The arguments with which the allocator writes the outcome onto a node. */
  function TraceArgs(s: Summary, key: string, cfg: Config): WriteArgs {
    WriteArgs(
      if key in s.defaults then Some(s.defaults[key]) else None,
      if key in s.predicted then Some(s.predicted[key]) else None,
      if key in s.dispersion then Some(s.dispersion[key]) else None,
      if key in s.allocations then Some(s.allocations[key]) else None,
      cfg.Floor(),
      if key in s.lower then Some(s.lower[key]) else None,
      if key in s.upper then Some(s.upper[key]) else None)
  }

  function Contents(nodes: seq<Node>, store: Store): seq<Fields>
    requires forall n :: n in nodes ==> n in store
  {
    seq(|nodes|, i requires 0 <= i < |nodes| && nodes[i] in store => store[nodes[i]])
  }

  /** The nodes after the first n of them were written, in order. */
  function WriteBack(nodes: seq<Node>, n: nat, s: Summary, cfg: Config, store: Store): (after: Store)
    requires n <= |nodes| && forall m :: m in nodes ==> m in store
    ensures after.Keys == store.Keys
  {
    if n == 0 then store
    else
      var before := WriteBack(nodes, n - 1, s, cfg, store);
      var node := nodes[n - 1];
      before[node := WriteAccounting(before[node], TraceArgs(s, NodeId(before[node], n - 1), cfg))]
  }

  ghost function AllocateStore(nodes: seq<Node>, cfg: Config, store: Store): (after: Store)
    requires forall m :: m in nodes ==> m in store
    ensures after.Keys == store.Keys
  {
    var r := Allocate(Contents(nodes, store), cfg);
    if r.Ok? then WriteBack(nodes, |nodes|, r.value, cfg, store) else store
  }
}
