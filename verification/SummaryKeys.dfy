/** What a summary says of a node, from the keys of that node alone: its default, prediction,
    dispersion and bounds, in every cap mode, with and without repair. */
module SummaryKeys {
  import opened Prelude
  import opened Dicts
  import opened Schema
  import opened BranchCost
  import opened AllocatorSpec
  import opened AllocatorTheorems
  import opened NodeKeys

  /** What the keys of a node tell the allocator. */
  datatype Told = Told(default: int, predicted: int, dispersion: real)

  ghost predicate Tells(f: Fields, cfg: Config, t: Told) {
    && (exists d :: TellsDefault(f, cfg.totalBudget, d) && t.default == Max(d, Max(cfg.nMin, 1)))
    && (exists p :: TellsPrediction(f, t.default, p) && t.predicted == Max(p, Max(cfg.nMin, 1)))
    && (exists c :: TellsDispersion(f, cfg.weightKey, c) && t.dispersion == if c >= 0.0 then c else 0.0)
  }

  /** A redundancy finding: the prediction is below the default, and the mode heeds it. */
  predicate Redundant(cfg: Config, t: Told) {
    cfg.capMode != ConfiguredMaxForAll && t.predicted < t.default
  }

  /** The cap before any repair. */
  predicate CapBefore(cfg: Config, t: Told, cap: int) {
    var follows := cfg.capMode == PredictedForAll || (cfg.capMode == BelowDefaultOnly && t.predicted < t.default);
    if follows then cap == t.predicted else cap == Max(cfg.maxK, Max(cfg.nMin, 1))
  }

  /** The cap that a repair lifts to. */
  function LiftedTo(cfg: Config): (cap: int)
    ensures cap >= cfg.maxK && cap >= cfg.nMin && cap >= 1
    ensures cfg.maxRepairK.Some? ==> cap >= cfg.maxRepairK.value
    ensures cap in {cfg.maxK, cfg.nMin, 1} || cfg.maxRepairK == Some(cap)
  {
    cfg.RepairCap()
  }

  /** Caps are repaired when they cannot take the budget and the policy is to expand them. */
  ghost predicate Repaired(cfg: Config, before: map<string, int>) {
    cfg.totalBudget > Sum(before) && cfg.policy == ExpandNonredundantCaps
  }

  /** The entries of a summary for a node that tells t. */
  ghost predicate Records(s: Summary, key: string, cfg: Config, t: Told, before: map<string, int>) {
    && key in before && key in s.upper && key in s.lower && key in s.defaults && key in s.predicted
    && key in s.dispersion && key in s.allocations
    && s.defaults[key] == t.default && s.predicted[key] == t.predicted && s.dispersion[key] == t.dispersion
    && s.lower[key] == Max(cfg.nMin, 1)
    && CapBefore(cfg, t, before[key])
    && s.upper[key] ==
       (if Repaired(cfg, before) && !Redundant(cfg, t) && before[key] < LiftedTo(cfg) then LiftedTo(cfg)
        else before[key])
    && s.lower[key] <= s.allocations[key] <= s.upper[key]
  }

  lemma LimitsTell(f: Fields, cfg: Config, t: Told)
    requires Tells(f, cfg, t)
    ensures var l := LimitsOf(f, cfg);
      && l.default == t.default && l.predicted == t.predicted && l.dispersion == t.dispersion
      && l.capped == Redundant(cfg, t) && CapBefore(cfg, t, l.upper)
  {
    hide FirstSome;
    hide RawDispersion;
    var d :| TellsDefault(f, cfg.totalBudget, d) && t.default == Max(d, Max(cfg.nMin, 1));
    var p :| TellsPrediction(f, t.default, p) && t.predicted == Max(p, Max(cfg.nMin, 1));
    var c :| TellsDispersion(f, cfg.weightKey, c) && t.dispersion == if c >= 0.0 then c else 0.0;
    FirstGivenIs([f.vdraDefaultK, f.defaultK, f.gearDefaultBranchFactor], cfg.totalBudget, d);
    FirstGivenIs([f.vdraPredictedK, f.gearPredictedK, f.predictedK], t.default, p);
    RawIs(f, cfg.weightKey, c);
  }

  lemma RawIs(f: Fields, weightKey: Option<string>, c: real)
    ensures TellsDispersion(f, weightKey, c) <==> c == RawDispersion(f, weightKey)
  {
    FirstGivenIs([f.vdraDispersionC, f.gearRewardVariance], 0.0, c);
  }

  /** Every node tells something. */
  lemma TellsSomething(f: Fields, cfg: Config) returns (t: Told)
    ensures Tells(f, cfg, t)
  {
    hide FirstSome;
    hide RawDispersion;
    var d := ValueOr(FirstSome([f.vdraDefaultK, f.defaultK, f.gearDefaultBranchFactor]), cfg.totalBudget);
    var default := Max(d, Max(cfg.nMin, 1));
    var p := ValueOr(FirstSome([f.vdraPredictedK, f.gearPredictedK, f.predictedK]), default);
    var c := RawDispersion(f, cfg.weightKey);
    FirstGivenIs([f.vdraDefaultK, f.defaultK, f.gearDefaultBranchFactor], cfg.totalBudget, d);
    FirstGivenIs([f.vdraPredictedK, f.gearPredictedK, f.predictedK], default, p);
    RawIs(f, cfg.weightKey, c);
    t := Told(default, Max(p, Max(cfg.nMin, 1)), if c >= 0.0 then c else 0.0);
  }

  lemma CapsSettled(t: map<string, Limits>, cfg: Config, key: string)
    requires key in t
    ensures FinalUppers(t, cfg)[key] ==
      if Repaired(cfg, Uppers(t)) && !t[key].capped && t[key].upper < LiftedTo(cfg) then LiftedTo(cfg)
      else t[key].upper
  {
  }

  lemma RepairsCounted(t: map<string, Limits>, cfg: Config)
    ensures Repairs(t, cfg) == |set k | k in t && FinalUppers(t, cfg)[k] != Uppers(t)[k]|
  {
    var lifted := set k | k in t && FinalUppers(t, cfg)[k] != Uppers(t)[k];
    if NeedsRepair(t, cfg) {
      assert lifted == set k | k in t && Liftable(t[k], cfg);
    } else {
      assert lifted == {};
    }
  }

  lemma {:induction false} SummaryParts(fs: seq<Fields>, cfg: Config, s: Summary)
    requires Allocate(fs, cfg) == Ok(s)
    ensures Intake(fs, cfg).Ok?
    ensures var t := Intake(fs, cfg).value;
      && s.predicted == Predictions(t) && s.repairs == Repairs(t, cfg)
      && s.dispersion == Dispersions(t) && s.defaults == Defaults(t)
      && s.lower == Lowers(t, cfg) && s.upper == FinalUppers(t, cfg)
      && s.allocations.Keys == t.Keys && InBoxOf(s)
  {
    hide Allocate;
    hide Intake;
    hide Greedily;
    hide WellPosed;
    hide FinalUppers;
    hide Repairs;
    hide Balanced;
    hide Summarize;
    SettingOf(fs, cfg, s);
    AllocateSummarizes(fs, cfg);
    AllocateBalanced(fs, cfg, s);
    BoxOfBalanced(s, cfg.totalBudget);
    SummaryRest(Intake(fs, cfg).value, cfg);
  }

  lemma BoxOfBalanced(s: Summary, budget: int)
    requires Balanced(s, budget)
    ensures InBoxOf(s)
  {
    hide WellPosed;
  }

  predicate InBoxOf(s: Summary) {
    && s.allocations.Keys == s.lower.Keys == s.upper.Keys
    && forall k :: k in s.allocations ==> s.lower[k] <= s.allocations[k] <= s.upper[k]
  }

  lemma SummaryRest(t: map<string, Limits>, cfg: Config)
    requires Sum(Lowers(t, cfg)) <= cfg.totalBudget && Sum(Lowers(t, cfg)) <= Sum(FinalUppers(t, cfg))
    ensures Summarize(t, cfg).predicted == Predictions(t) && Summarize(t, cfg).repairs == Repairs(t, cfg)
  {
    hide FinalUppers;
    hide Repairs;
    TableKeys(t, cfg);
  }

  lemma {:induction false} NodeRecorded(fs: seq<Fields>, cfg: Config, s: Summary, i: nat, key: string, t: Told)
    requires Allocate(fs, cfg) == Ok(s) && Intake(fs, cfg).Ok? && i < |fs|
    requires GoesBy(fs[i], i, key) && Tells(fs[i], cfg, t)
    ensures Records(s, key, cfg, t, Uppers(Intake(fs, cfg).value))
  {
    hide Allocate;
    hide Intake;
    hide GoesBy;
    hide NodeId;
    hide LimitsOf;
    hide Tells;
    hide FinalUppers;
    hide Repairs;
    SummaryParts(fs, cfg, s);
    IntakeDescribes(fs, cfg);
    GoesByIs(fs[i], i, key);
    LimitsTell(fs[i], cfg, t);
    CapsSettled(Intake(fs, cfg).value, cfg, key);
  }

  lemma {:induction false} OnlyTheseNodes(fs: seq<Fields>, cfg: Config, key: string)
    requires Intake(fs, cfg).Ok? && key in Intake(fs, cfg).value
    ensures exists i :: 0 <= i < |fs| && GoesBy(fs[i], i, key)
  {
    hide Intake;
    hide GoesBy;
    hide NodeId;
    hide LimitsOf;
    IntakeDescribes(fs, cfg);
    var i :| 0 <= i < |fs| && NodeId(fs[i], i) == key;
    GoesByIs(fs[i], i, key);
  }

  /** A successful call, from the keys of its nodes: every node is in the summary under its
      name with the figures that its keys tell and the bounds that follow from them, nothing
      else is, and as many repairs are reported as caps were lifted. */
  lemma {:induction false} SummaryFromKeys(fs: seq<Fields>, cfg: Config, s: Summary)
    returns (before: map<string, int>)
    requires Allocate(fs, cfg) == Ok(s)
    ensures before.Keys == s.upper.Keys
    ensures forall i, key, t :: 0 <= i < |fs| && GoesBy(fs[i], i, key) && Tells(fs[i], cfg, t) ==>
      Records(s, key, cfg, t, before)
    ensures forall key :: key in before ==> exists i :: 0 <= i < |fs| && GoesBy(fs[i], i, key)
    ensures s.repairs == |set k | k in before && s.upper[k] != before[k]|
  {
    hide Allocate;
    hide Intake;
    hide GoesBy;
    hide Tells;
    hide Records;
    hide Repairs;
    hide FinalUppers;
    SummaryParts(fs, cfg, s);
    before := Uppers(Intake(fs, cfg).value);
    RepairsCounted(Intake(fs, cfg).value, cfg);
    TableKeys(Intake(fs, cfg).value, cfg);
    forall i, key, t | 0 <= i < |fs| && GoesBy(fs[i], i, key) && Tells(fs[i], cfg, t)
      ensures Records(s, key, cfg, t, before)
    {
      NodeRecorded(fs, cfg, s, i, key, t);
    }
    forall key | key in before ensures exists i :: 0 <= i < |fs| && GoesBy(fs[i], i, key) {
      OnlyTheseNodes(fs, cfg, key);
    }
  }

  /** In the default mode a node whose own keys hold a default and a smaller prediction gets no
      more than the prediction, whatever the budget. */
  lemma RedundantNodeCapped(fs: seq<Fields>, cfg: Config, s: Summary, i: nat, key: string, d: int, p: int)
    requires Allocate(fs, cfg) == Ok(s) && cfg.capMode == BelowDefaultOnly && i < |fs| && GoesBy(fs[i], i, key)
    requires fs[i].vdraDefaultK == Some(d) && fs[i].vdraPredictedK == Some(p)
    requires Max(p, Max(cfg.nMin, 1)) < d
    ensures key in s.upper && key in s.allocations
    ensures s.upper[key] == Max(p, Max(cfg.nMin, 1)) && s.allocations[key] <= Max(p, Max(cfg.nMin, 1))
  {
    hide Allocate;
    hide GoesBy;
    var t := TellsSomething(fs[i], cfg);
    var before := SummaryFromKeys(fs, cfg, s);
    OwnKeysTold(fs[i], cfg, t, d, p);
    assert Records(s, key, cfg, t, before);
  }

  lemma OwnKeysTold(f: Fields, cfg: Config, t: Told, d: int, p: int)
    requires Tells(f, cfg, t) && f.vdraDefaultK == Some(d) && f.vdraPredictedK == Some(p)
    ensures t.default == Max(d, Max(cfg.nMin, 1)) && t.predicted == Max(p, Max(cfg.nMin, 1))
  {
    var d' :| TellsDefault(f, cfg.totalBudget, d') && t.default == Max(d', Max(cfg.nMin, 1));
    var p' :| TellsPrediction(f, t.default, p') && t.predicted == Max(p', Max(cfg.nMin, 1));
    FirstGivenIs([f.vdraDefaultK, f.defaultK, f.gearDefaultBranchFactor], cfg.totalBudget, d');
    FirstGivenIs([f.vdraPredictedK, f.gearPredictedK, f.predictedK], t.default, p');
  }

  /** Different nodes go by different names. */
  ghost predicate NamesDiffer(fs: seq<Fields>) {
    forall i, j, a, b :: 0 <= i < j < |fs| && GoesBy(fs[i], i, a) && GoesBy(fs[j], j, b) ==> a != b
  }

  /** No node tells a negative dispersion. */
  ghost predicate NoneNegative(fs: seq<Fields>, cfg: Config) {
    forall i, c :: 0 <= i < |fs| && TellsDispersion(fs[i], cfg.weightKey, c) ==> c >= 0.0
  }

  /** The caps of these nodes before any repair. */
  ghost predicate CapsBefore(fs: seq<Fields>, cfg: Config, before: map<string, int>) {
    && (forall i, key, t :: 0 <= i < |fs| && GoesBy(fs[i], i, key) && Tells(fs[i], cfg, t) ==>
          key in before && CapBefore(cfg, t, before[key]))
    && (forall key :: key in before ==> exists i :: 0 <= i < |fs| && GoesBy(fs[i], i, key))
  }

  lemma DistinctIff(fs: seq<Fields>)
    ensures DistinctIds(fs) <==> NamesDiffer(fs)
  {
    hide GoesBy;
    hide NodeId;
    forall i: nat, key: string | i < |fs| ensures GoesBy(fs[i], i, key) <==> key == NodeId(fs[i], i) {
      GoesByIs(fs[i], i, key);
    }
    if NamesDiffer(fs) {
      forall i, j | 0 <= i < j < |fs| ensures NodeId(fs[i], i) != NodeId(fs[j], j) {
        assert GoesBy(fs[i], i, NodeId(fs[i], i)) && GoesBy(fs[j], j, NodeId(fs[j], j));
      }
    }
  }

  lemma ValidIff(fs: seq<Fields>, cfg: Config)
    ensures ValidDispersions(fs, cfg) <==> (cfg.strict ==> NoneNegative(fs, cfg))
  {
    hide TellsDispersion;
    hide RawDispersion;
    forall i: nat, c: real | i < |fs|
      ensures TellsDispersion(fs[i], cfg.weightKey, c) <==> c == RawDispersion(fs[i], cfg.weightKey)
    {
      RawIs(fs[i], cfg.weightKey, c);
    }
    if NoneNegative(fs, cfg) {
      forall i | 0 <= i < |fs| ensures RawDispersion(fs[i], cfg.weightKey) >= 0.0 {
        assert TellsDispersion(fs[i], cfg.weightKey, RawDispersion(fs[i], cfg.weightKey));
      }
    }
  }

  /** Exactly when a call succeeds, from the keys: under the expanding policy. */
  lemma AcceptsFromKeys(fs: seq<Fields>, cfg: Config)
    requires cfg.policy == ExpandNonredundantCaps
    ensures Allocate(fs, cfg).Ok? <==>
      && fs != [] && NamesDiffer(fs) && (cfg.strict ==> NoneNegative(fs, cfg))
      && cfg.totalBudget >= |fs| * Max(cfg.nMin, 1)
  {
    hide Allocate;
    hide NamesDiffer;
    hide NoneNegative;
    hide DistinctIds;
    hide ValidDispersions;
    AllocateAccepts(fs, cfg);
    DistinctIff(fs);
    ValidIff(fs, cfg);
  }

  lemma {:induction false} CapsOfTable(fs: seq<Fields>, cfg: Config)
    requires Intake(fs, cfg).Ok?
    ensures CapsBefore(fs, cfg, Uppers(Intake(fs, cfg).value))
  {
    hide Intake;
    hide GoesBy;
    hide NodeId;
    hide LimitsOf;
    hide Tells;
    IntakeDescribes(fs, cfg);
    var before := Uppers(Intake(fs, cfg).value);
    forall i, key, t | 0 <= i < |fs| && GoesBy(fs[i], i, key) && Tells(fs[i], cfg, t)
      ensures key in before && CapBefore(cfg, t, before[key])
    {
      GoesByIs(fs[i], i, key);
      LimitsTell(fs[i], cfg, t);
    }
    forall key | key in before ensures exists i :: 0 <= i < |fs| && GoesBy(fs[i], i, key) {
      OnlyTheseNodes(fs, cfg, key);
    }
  }

  /** And under the policy that rejects: the caps must take the budget as well. */
  lemma RejectsFromKeys(fs: seq<Fields>, cfg: Config) returns (before: map<string, int>)
    requires cfg.policy == RaiseError
    ensures NamesDiffer(fs) && (cfg.strict ==> NoneNegative(fs, cfg)) ==> CapsBefore(fs, cfg, before)
    ensures Allocate(fs, cfg).Ok? <==>
      && fs != [] && NamesDiffer(fs) && (cfg.strict ==> NoneNegative(fs, cfg))
      && cfg.totalBudget >= |fs| * Max(cfg.nMin, 1) && cfg.totalBudget <= Sum(before)
  {
    hide Allocate;
    hide Intake;
    hide NamesDiffer;
    hide NoneNegative;
    hide DistinctIds;
    hide ValidDispersions;
    hide CapsBefore;
    AllocateAccepts(fs, cfg);
    IntakeAccepts(fs, cfg);
    DistinctIff(fs);
    ValidIff(fs, cfg);
    before := map[];
    if Intake(fs, cfg).Ok? {
      before := Uppers(Intake(fs, cfg).value);
      CapsOfTable(fs, cfg);
    }
  }

  /** The two objectives that are reported. What the allocation is compared with are the defaults
      moved into the bounds, if those spend what is granted, and otherwise the bare defaults. */
  lemma {:induction false} ObjectivesCompared(fs: seq<Fields>, cfg: Config, s: Summary, moved: map<string, int>)
    requires Allocate(fs, cfg) == Ok(s)
    requires moved.Keys == s.defaults.Keys && s.defaults.Keys <= s.lower.Keys && s.defaults.Keys <= s.upper.Keys
    requires forall k :: k in moved ==> MovedInto(s.defaults[k], s.lower[k], s.upper[k], moved[k])
    ensures s.objectiveAfter == Objective(s.dispersion, s.allocations)
    ensures s.objectiveBefore ==
      Objective(s.dispersion, if Sum(moved) == Min(cfg.totalBudget, Sum(s.upper)) then moved else s.defaults)
  {
    hide Allocate;
    hide Intake;
    hide Balanced;
    hide Greedily;
    AllocateBalanced(fs, cfg, s);
    SameKeys(s, cfg.totalBudget);
    GreedyObjectives(s, cfg.totalBudget, moved);
  }

  lemma SameKeys(s: Summary, budget: int)
    requires Balanced(s, budget)
    ensures s.lower.Keys == s.upper.Keys == s.defaults.Keys && s.granted == Min(budget, Sum(s.upper))
  {
    hide WellPosed;
    hide Sum;
  }

  lemma {:induction false} GreedyObjectives(s: Summary, budget: int, moved: map<string, int>)
    requires s.lower.Keys == s.upper.Keys == s.defaults.Keys == moved.Keys && Sum(s.lower) <= s.granted
    requires Greedily(s) && s.granted == Min(budget, Sum(s.upper))
    requires forall k :: k in moved ==> MovedInto(s.defaults[k], s.lower[k], s.upper[k], moved[k])
    ensures s.objectiveAfter == Objective(s.dispersion, s.allocations)
    ensures s.objectiveBefore ==
      Objective(s.dispersion, if Sum(moved) == Min(budget, Sum(s.upper)) then moved else s.defaults)
  {
    hide Allocation;
    hide Objective;
    hide Sum;
    assert moved == Clamped(s.defaults, s.lower, s.upper);
  }
}
