/** The feasibility repair of the allocator: which settings let it lift a cap at all. */
module FeasibilityRepair {
  import opened Prelude
  import opened Dicts
  import opened Schema
  import opened BranchCost
  import opened AllocatorSpec
  import opened AllocatorTheorems

  /** The settings under which some call lifts a cap. A cap that may be lifted is at least the
      floor when caps follow the predictions, and the ceiling otherwise. */
  predicate CanRepair(cfg: Config) {
    var least := if cfg.capMode == PredictedForAll then cfg.Floor() else cfg.Ceiling();
    cfg.policy == ExpandNonredundantCaps && least < cfg.RepairCap() && cfg.totalBudget > least
  }

  ghost predicate Lifts(fs: seq<Fields>, cfg: Config) {
    Allocate(fs, cfg).Ok? && Allocate(fs, cfg).value.repairs > 0
  }

  lemma OutcomeUpper(t: map<string, Limits>, cfg: Config)
    requires Sum(Lowers(t, cfg)) <= cfg.totalBudget && Sum(Lowers(t, cfg)) <= Sum(FinalUppers(t, cfg))
    ensures Summarize(t, cfg).upper == FinalUppers(t, cfg) && Summarize(t, cfg).repairs == Repairs(t, cfg)
  {
    hide Allocation;
    hide Objective;
    hide Reference;
    hide FinalUppers;
    hide Repairs;
    TableKeys(t, cfg);
  }

  lemma NoLiftNoRepair(t: map<string, Limits>, cfg: Config)
    requires NeedsRepair(t, cfg) ==> forall k :: k in t ==> !Liftable(t[k], cfg)
    ensures Repairs(t, cfg) == 0 && FinalUppers(t, cfg) == Uppers(t)
  {
    hide NeedsRepair;
    hide Liftable;
    if NeedsRepair(t, cfg) {
      assert (set k | k in t && Liftable(t[k], cfg)) == {};
      assert RepairedUppers(t, cfg) == Uppers(t);
    }
  }

  lemma {:induction false} MemberBelowSum(m: map<string, int>, k: string)
    requires k in m && forall j :: j in m ==> m[j] >= 0
    ensures m[k] <= Sum(m)
  {
    SumSplit(m, k);
    var rest := m - {k};
    var zeros := map j | j in rest :: 0;
    SumConstant(zeros, 0);
    SumLeq(zeros, rest);
  }

  lemma LeastCap(f: Fields, cfg: Config)
    ensures var l := LimitsOf(f, cfg);
      && l.upper >= cfg.Floor()
      && (!l.capped && cfg.capMode != PredictedForAll ==> l.upper == cfg.Ceiling())
  {
    hide FirstSome;
    hide RawDispersion;
  }

  lemma {:induction false} CapInTable(fs: seq<Fields>, cfg: Config, k: string)
    requires Intake(fs, cfg).Ok? && k in Intake(fs, cfg).value
    ensures var l := Intake(fs, cfg).value[k];
      && l.upper >= cfg.Floor()
      && (!l.capped && cfg.capMode != PredictedForAll ==> l.upper == cfg.Ceiling())
  {
    hide Intake;
    hide NodeId;
    hide LimitsOf;
    IntakeDescribes(fs, cfg);
    var i :| 0 <= i < |fs| && NodeId(fs[i], i) == k;
    LeastCap(fs[i], cfg);
  }

  lemma {:induction false} LiftableMeansCanRepair(fs: seq<Fields>, cfg: Config, k: string)
    requires Intake(fs, cfg).Ok? && k in Intake(fs, cfg).value
    requires NeedsRepair(Intake(fs, cfg).value, cfg) && Liftable(Intake(fs, cfg).value[k], cfg)
    ensures CanRepair(cfg)
  {
    hide Intake;
    var t := Intake(fs, cfg).value;
    forall j | j in t ensures Uppers(t)[j] >= cfg.Floor() {
      CapInTable(fs, cfg, j);
    }
    CapInTable(fs, cfg, k);
    MemberBelowSum(Uppers(t), k);
  }

  /** Under all other settings no call lifts a cap, and the caps stay as they are. */
  lemma {:induction false} RepairIsIdle(fs: seq<Fields>, cfg: Config, s: Summary)
    requires Allocate(fs, cfg) == Ok(s) && !CanRepair(cfg)
    ensures s.repairs == 0
    ensures s.upper == Uppers(Intake(fs, cfg).value)
  {
    hide Intake;
    hide Allocate;
    hide WellPosed;
    hide FinalUppers;
    hide Repairs;
    hide Summarize;
    hide CanRepair;
    hide NeedsRepair;
    hide Liftable;
    AllocateSummarizes(fs, cfg);
    var t := Intake(fs, cfg).value;
    forall k | k in t && NeedsRepair(t, cfg) && Liftable(t[k], cfg) ensures false {
      LiftableMeansCanRepair(fs, cfg, k);
    }
    NoLiftNoRepair(t, cfg);
    OutcomeUpper(t, cfg);
  }

  /** A single node at the least cap that may be lifted. */
  function Lone(cfg: Config): Fields {
    BLANK.(id := Some("a"), vdraDefaultK := Some(cfg.Floor()))
  }

  lemma LoneLimits(cfg: Config)
    ensures NodeId(Lone(cfg), 0) == "a" && RawDispersion(Lone(cfg), cfg.weightKey) == 0.0
    ensures LimitsOf(Lone(cfg), cfg) == Limits(0.0, cfg.Floor(), cfg.Floor(),
      if cfg.capMode == PredictedForAll then cfg.Floor() else cfg.Ceiling(), false)
  {
    NoneGiven<real>([None, None]);
    NoneGiven<int>([None, None, None]);
  }

  lemma {:induction false} LoneIntake(cfg: Config)
    ensures Intake([Lone(cfg)], cfg) == Ok(map["a" := LimitsOf(Lone(cfg), cfg)])
  {
    hide NodeId;
    hide LimitsOf;
    hide RawDispersion;
    LoneLimits(cfg);
    var fs := [Lone(cfg)];
    assert fs[..0] == [];
    assert Intake(fs[..0], cfg) == Ok(map[]);
  }

  lemma LoneRepaired(cfg: Config, l: Limits)
    requires CanRepair(cfg) && !l.capped
    requires l.upper == if cfg.capMode == PredictedForAll then cfg.Floor() else cfg.Ceiling()
    ensures Repairs(map["a" := l], cfg) == 1
  {
    var t := map["a" := l];
    assert Uppers(t) == map["a" := l.upper];
    SumSet(map[], "a", l.upper);
    assert map[]["a" := l.upper] == map["a" := l.upper];
    assert (set k | k in t && Liftable(t[k], cfg)) == {"a"};
  }

  /** Under these settings some call does. */
  lemma LoneLifts(cfg: Config)
    requires CanRepair(cfg)
    ensures Lifts([Lone(cfg)], cfg)
  {
    hide Allocate;
    hide Intake;
    hide LimitsOf;
    hide NodeId;
    hide RawDispersion;
    hide Repairs;
    hide Summarize;
    hide WellPosed;
    var fs := [Lone(cfg)];
    LoneLimits(cfg);
    LoneIntake(cfg);
    AllocateAccepts(fs, cfg);
    AllocateSummarizes(fs, cfg);
    LoneRepaired(cfg, LimitsOf(Lone(cfg), cfg));
    OutcomeUpper(Intake(fs, cfg).value, cfg);
  }

  /** Exactly when the repair can lift anything, whatever the nodes. */
  lemma RepairLiftsIff(cfg: Config)
    ensures (exists fs :: Lifts(fs, cfg)) <==> CanRepair(cfg)
  {
    hide Allocate;
    hide CanRepair;
    if fs :| Lifts(fs, cfg) {
      if !CanRepair(cfg) {
        RepairIsIdle(fs, cfg, Allocate(fs, cfg).value);
      }
    }
    if CanRepair(cfg) {
      LoneLifts(cfg);
    }
  }
}
