/** What the allocator promises, for every node list and every configuration. */
module AllocatorTheorems {
  import opened Prelude
  import opened Dicts
  import opened Schema
  import opened Separable
  import opened Greedy
  import opened BranchCost
  import opened AllocatorSpec

  predicate DistinctIds(fs: seq<Fields>) {
    forall i, j :: 0 <= i < j < |fs| ==> NodeId(fs[i], i) != NodeId(fs[j], j)
  }

  predicate ValidDispersions(fs: seq<Fields>, cfg: Config) {
    cfg.strict ==> forall i :: 0 <= i < |fs| ==> RawDispersion(fs[i], cfg.weightKey) >= 0.0
  }

  lemma DistinctOneMore(t: map<string, Limits>, fs: seq<Fields>, f: Fields, cfg: Config)
    requires Describes(t, fs, cfg) && DistinctIds(fs)
    ensures DistinctIds(fs + [f]) <==> NodeId(f, |fs|) !in t
  {
    hide NodeId;
    hide LimitsOf;
    var all := fs + [f];
    assert forall i :: 0 <= i < |fs| ==> all[i] == fs[i];
    if NodeId(f, |fs|) in t {
      var i :| 0 <= i < |fs| && NodeId(fs[i], i) == NodeId(f, |fs|);
      assert NodeId(all[i], i) == NodeId(all[|fs|], |fs|);
    }
  }

  lemma {:induction false} IntakeAccepts(fs: seq<Fields>, cfg: Config)
    ensures Intake(fs, cfg).Ok? <==> DistinctIds(fs) && ValidDispersions(fs, cfg)
  {
    hide NodeId;
    hide LimitsOf;
    hide RawDispersion;
    hide Describes;
    if fs != [] {
      var n := |fs| - 1;
      var earlier := fs[..n];
      assert earlier + [fs[n]] == fs;
      assert forall i :: 0 <= i < n ==> earlier[i] == fs[i];
      IntakeAccepts(earlier, cfg);
      assert ValidDispersions(fs, cfg) <==>
        ValidDispersions(earlier, cfg) && (cfg.strict ==> RawDispersion(fs[n], cfg.weightKey) >= 0.0);
      assert DistinctIds(fs) ==> DistinctIds(earlier);
      if Intake(earlier, cfg).Ok? {
        IntakeDescribes(earlier, cfg);
        DistinctOneMore(Intake(earlier, cfg).value, earlier, fs[n], cfg);
      }
    }
  }

  /** Exactly when a call succeeds. */
  lemma {:induction false} AllocateAccepts(fs: seq<Fields>, cfg: Config)
    ensures Allocate(fs, cfg).Ok? <==>
      && fs != [] && DistinctIds(fs) && ValidDispersions(fs, cfg)
      && cfg.totalBudget >= |fs| * cfg.Floor()
      && (Intake(fs, cfg).Ok? && cfg.policy == RaiseError ==> cfg.totalBudget <= Sum(Uppers(Intake(fs, cfg).value)))
  {
    hide Intake;
    hide Summarize;
    hide WellPosed;
    hide DistinctIds;
    hide ValidDispersions;
    IntakeAccepts(fs, cfg);
    if Intake(fs, cfg).Ok? {
      TableWellPosed(fs, cfg);
    }
  }

  /** The bookkeeping of one summary. Every allocation is within its bounds; all of the
      budget that the caps can take is spent, and the rest, and only the rest, is reported
      as underallocated. What pruning frees is what expansion takes, up to the part of the
      defaults that was not granted. */
  ghost predicate Balanced(s: Summary, budget: int) {
    && s.dispersion.Keys == s.lower.Keys == s.upper.Keys == s.allocations.Keys
    && WellPosed(s.dispersion, s.lower, s.upper)
    && InBox(s.allocations, s.lower, s.upper)
    && s.requested == budget
    && s.granted == Sum(s.allocations) == Min(budget, Sum(s.upper))
    && s.granted + s.underallocated == budget
    && s.underallocated >= 0
    && s.defaults.Keys == s.allocations.Keys
    && s.pruned == Pruned(s.defaults, s.allocations)
    && s.expanded == Expanded(s.defaults, s.allocations)
    && Sum(s.pruned) - Sum(s.expanded) == Sum(s.defaults) - s.granted
    && s.transferred == Min(Sum(s.pruned), Sum(s.expanded))
  }

  /** The allocation is the greedy one, and both objectives are those of C/k. */
  ghost predicate Greedily(s: Summary)
    requires s.lower.Keys == s.upper.Keys && s.defaults.Keys == s.lower.Keys && Sum(s.lower) <= s.granted
  {
    && s.allocations == Allocation(s.dispersion, s.lower, s.upper, s.granted - Sum(s.lower))
    && s.objectiveAfter == Objective(s.dispersion, s.allocations)
    && s.objectiveBefore == Objective(s.dispersion, Reference(s.defaults, s.lower, s.upper, s.granted))
  }

  lemma {:induction false} OutcomeBalanced(c: map<string, real>, defaults: map<string, int>,
                                           predicted: map<string, int>,
                        lo: map<string, int>, hi: map<string, int>, budget: int, repairs: nat)
    requires WellPosed(c, lo, hi) && defaults.Keys == lo.Keys
    requires Sum(lo) <= budget && Sum(lo) <= Sum(hi)
    ensures var s := Outcome(c, defaults, predicted, lo, hi, budget, repairs);
      Balanced(s, budget) && Sum(s.lower) <= s.granted && Greedily(s)
  {
    hide Allocation;
    hide Objective;
    hide Reference;
    hide Pruned;
    hide Expanded;
    hide Sum;
    AllocationSpends(c, lo, hi, Min(budget, Sum(hi)) - Sum(lo));
    PrunedLessExpanded(defaults, Allocation(c, lo, hi, Min(budget, Sum(hi)) - Sum(lo)));
  }

  lemma {:induction false} PrunedLessExpanded(defaults: map<string, int>, a: map<string, int>)
    requires defaults.Keys == a.Keys
    ensures Sum(Pruned(defaults, a)) - Sum(Expanded(defaults, a)) == Sum(defaults) - Sum(a)
  {
    SumBalance(Pruned(defaults, a), Expanded(defaults, a), defaults, a);
  }

  lemma SummaryBalanced(t: map<string, Limits>, cfg: Config)
    requires WellPosed(Dispersions(t), Lowers(t, cfg), FinalUppers(t, cfg))
    requires Sum(Lowers(t, cfg)) <= cfg.totalBudget && Sum(Lowers(t, cfg)) <= Sum(FinalUppers(t, cfg))
    ensures var s := Summarize(t, cfg);
      Balanced(s, cfg.totalBudget) && Sum(s.lower) <= s.granted && Greedily(s)
  {
    hide Balanced;
    hide Greedily;
    hide Outcome;
    hide FinalUppers;
    hide WellPosed;
    TableKeys(t, cfg);
    OutcomeBalanced(Dispersions(t), Defaults(t), Predictions(t), Lowers(t, cfg), FinalUppers(t, cfg),
                    cfg.totalBudget, Repairs(t, cfg));
  }

  /** A successful call summarises the table of its intake. */
  lemma {:induction false} AllocateSummarizes(fs: seq<Fields>, cfg: Config)
    requires Allocate(fs, cfg).Ok?
    ensures Intake(fs, cfg).Ok?
    ensures var t := Intake(fs, cfg).value;
      && |t| == |fs|
      && WellPosed(Dispersions(t), Lowers(t, cfg), FinalUppers(t, cfg))
      && Sum(Lowers(t, cfg)) <= cfg.totalBudget && Sum(Lowers(t, cfg)) <= Sum(FinalUppers(t, cfg))
      && Allocate(fs, cfg).value == Summarize(t, cfg)
  {
    hide Intake;
    hide Summarize;
    hide WellPosed;
    hide FinalUppers;
    TableWellPosed(fs, cfg);
    IntakeDescribes(fs, cfg);
  }

  lemma {:induction false} AllocateBalanced(fs: seq<Fields>, cfg: Config, s: Summary)
    requires Allocate(fs, cfg) == Ok(s)
    ensures Balanced(s, cfg.totalBudget) && Sum(s.lower) <= s.granted && Greedily(s)
    ensures s.allocations.Keys == Intake(fs, cfg).value.Keys && |s.allocations| == |fs|
  {
    hide Allocate;
    hide Summarize;
    hide WellPosed;
    hide Greedily;
    hide FinalUppers;
    hide Intake;
    AllocateSummarizes(fs, cfg);
    SummaryBalanced(Intake(fs, cfg).value, cfg);
    SummaryKeys(Intake(fs, cfg).value, cfg);
  }

  /** What the caps can take of the budget. */
  ghost function Spendable(t: map<string, Limits>, cfg: Config): int {
    Min(cfg.totalBudget, Sum(FinalUppers(t, cfg)))
  }

  /** Bounds, defaults and spending of a successful call, as the intake has them. */
  lemma {:induction false} SettingOf(fs: seq<Fields>, cfg: Config, s: Summary)
    requires Allocate(fs, cfg) == Ok(s)
    ensures Intake(fs, cfg).Ok?
    ensures var t := Intake(fs, cfg).value;
      && s.lower == Lowers(t, cfg) && s.upper == FinalUppers(t, cfg) && s.defaults == Defaults(t)
      && s.dispersion == Dispersions(t) && s.granted == Spendable(t, cfg)
  {
    hide Allocate;
    hide Intake;
    hide Greedily;
    hide Summarize;
    hide WellPosed;
    hide InBox;
    hide FinalUppers;
    AllocateSummarizes(fs, cfg);
    SummaryFields(Intake(fs, cfg).value, cfg);
    AllocateBalanced(fs, cfg, s);
  }

  lemma SummaryFields(t: map<string, Limits>, cfg: Config)
    requires Sum(Lowers(t, cfg)) <= cfg.totalBudget && Sum(Lowers(t, cfg)) <= Sum(FinalUppers(t, cfg))
    ensures var s := Summarize(t, cfg);
      && s.lower == Lowers(t, cfg) && s.upper == FinalUppers(t, cfg) && s.defaults == Defaults(t)
      && s.dispersion == Dispersions(t)
  {
    hide Allocation;
    hide Objective;
    hide Reference;
    hide FinalUppers;
    hide Repairs;
    TableKeys(t, cfg);
  }

  lemma SummaryKeys(t: map<string, Limits>, cfg: Config)
    requires Sum(Lowers(t, cfg)) <= cfg.totalBudget && Sum(Lowers(t, cfg)) <= Sum(FinalUppers(t, cfg))
    ensures Summarize(t, cfg).allocations.Keys == t.Keys
  {
    hide Allocation;
    hide FinalUppers;
    hide Objective;
    hide Reference;
    TableKeys(t, cfg);
  }

  /** No integer allocation within the same bounds that spends at most as much has a smaller
      sum of C/k. */
  lemma {:induction false} AllocateOptimal(fs: seq<Fields>, cfg: Config, s: Summary, b: map<string, int>)
    requires Allocate(fs, cfg) == Ok(s)
    requires InBox(b, s.lower, s.upper) && Sum(b) <= s.granted
    ensures s.objectiveAfter == Objective(s.dispersion, s.allocations) <= Objective(s.dispersion, b)
  {
    hide Allocate;
    hide Balanced;
    hide Greedily;
    hide InBox;
    hide Objective;
    AllocateBalanced(fs, cfg, s);
    SummaryOptimal(s, cfg.totalBudget, b);
  }

  lemma {:induction false} SummaryOptimal(s: Summary, budget: int, b: map<string, int>)
    requires Balanced(s, budget) && Sum(s.lower) <= s.granted && Greedily(s)
    requires InBox(b, s.lower, s.upper) && Sum(b) <= s.granted
    ensures s.objectiveAfter == Objective(s.dispersion, s.allocations) <= Objective(s.dispersion, b)
  {
    hide Objective;
    hide Allocation;
    hide Reference;
    hide WellPosed;
    hide InBox;
    hide Pruned;
    hide Expanded;
    AllocationOptimal(s.dispersion, s.lower, s.upper, s.granted - Sum(s.lower), b);
  }

  /** Pruning pays for expansion and slack together exactly when the defaults add up to the
      budget, and the transfer is the whole expansion exactly when the defaults come to no less
      than what is allocated. */
  lemma AllocateLedger(fs: seq<Fields>, cfg: Config, s: Summary)
    requires Allocate(fs, cfg) == Ok(s)
    ensures Sum(s.defaults) == cfg.totalBudget <==> Sum(s.pruned) == Sum(s.expanded) + s.underallocated
    ensures s.transferred == Sum(s.expanded) <==> Sum(s.defaults) >= s.granted
  {
    hide Allocate;
    hide Pruned;
    hide Expanded;
    hide Greedily;
    AllocateBalanced(fs, cfg, s);
  }

  /** gs lists the same nodes as fs in the order given by perm. */
  predicate Reordering(fs: seq<Fields>, gs: seq<Fields>, perm: seq<nat>) {
    && |gs| == |fs| == |perm|
    && (forall i :: 0 <= i < |gs| ==> perm[i] < |fs| && gs[i] == fs[perm[i]])
    && (forall i, j :: 0 <= i < j < |gs| ==> perm[i] != perm[j])
  }

  /** When every node carries an identifier of its own, the order of the node list is
      immaterial to the whole summary. */
  lemma OrderIsImmaterial(fs: seq<Fields>, gs: seq<Fields>, perm: seq<nat>, cfg: Config)
    requires Reordering(fs, gs, perm)
    requires forall f :: f in fs ==> HasOwnId(f)
    requires Allocate(fs, cfg).Ok?
    ensures Allocate(gs, cfg) == Allocate(fs, cfg)
  {
    hide Intake;
    hide Summarize;
    hide Reordering;
    hide HasOwnId;
    SameTable(fs, gs, perm, cfg);
    assert gs != [] by { SameLength(fs, gs, perm); }
    TableWellPosed(fs, cfg);
  }

  lemma SameLength(fs: seq<Fields>, gs: seq<Fields>, perm: seq<nat>)
    requires Reordering(fs, gs, perm)
    ensures |gs| == |fs|
  {
  }

  lemma OwnIdIgnoresPosition(f: Fields, i: nat, j: nat)
    requires HasOwnId(f)
    ensures NodeId(f, i) == NodeId(f, j)
  {
  }

  lemma {:induction false} SameTable(fs: seq<Fields>, gs: seq<Fields>, perm: seq<nat>, cfg: Config)
    requires Reordering(fs, gs, perm)
    requires forall f :: f in fs ==> HasOwnId(f)
    requires Intake(fs, cfg).Ok?
    ensures Intake(gs, cfg) == Intake(fs, cfg)
  {
    hide NodeId;
    hide LimitsOf;
    hide Intake;
    hide HasOwnId;
    hide RawDispersion;
    IntakeAccepts(fs, cfg);
    forall i, j | 0 <= i < j < |gs| ensures NodeId(gs[i], i) != NodeId(gs[j], j) {
      OwnIdIgnoresPosition(gs[i], i, perm[i]);
      OwnIdIgnoresPosition(gs[j], j, perm[j]);
      if perm[i] < perm[j] {
        assert NodeId(fs[perm[i]], perm[i]) != NodeId(fs[perm[j]], perm[j]);
      } else {
        assert NodeId(fs[perm[j]], perm[j]) != NodeId(fs[perm[i]], perm[i]);
      }
    }
    IntakeAccepts(gs, cfg);
    IntakeDescribes(fs, cfg);
    IntakeDescribes(gs, cfg);
    var t, u := Intake(fs, cfg).value, Intake(gs, cfg).value;
    forall k | k in u ensures k in t && u[k] == t[k] {
      var i :| 0 <= i < |gs| && NodeId(gs[i], i) == k;
      OwnIdIgnoresPosition(gs[i], i, perm[i]);
      assert NodeId(fs[perm[i]], perm[i]) in t;
    }
    SameKeys(u, t);
  }

  lemma SameKeys<T>(u: map<string, T>, t: map<string, T>)
    requires forall k :: k in u ==> k in t && u[k] == t[k]
    requires |u| == |t|
    ensures u == t
  {
    if exists k :: k in t && k !in u {
      var k :| k in t && k !in u;
      assert u.Keys <= t.Keys - {k};
      SubsetSize(u.Keys, t.Keys - {k});
    }
  }

  lemma {:induction false} SubsetSize<T>(a: set<T>, b: set<T>)
    requires a <= b
    ensures |a| <= |b|
  {
    if a != {} {
      var x :| x in a;
      SubsetSize(a - {x}, b - {x});
    }
  }

  /** Every node names its own default, so the budget does not leak into the bounds. */
  predicate ExplicitDefaults(fs: seq<Fields>) {
    forall f :: f in fs ==> FirstSome([f.vdraDefaultK, f.defaultK, f.gearDefaultBranchFactor]).Some?
  }

  /** Raising the budget by one, within the caps as they stand, raises exactly one node by
      one and lowers none. */
  lemma OneMoreUnit(fs: seq<Fields>, cfg: Config, s: Summary) returns (key: string)
    requires Allocate(fs, cfg) == Ok(s) && ExplicitDefaults(fs)
    requires cfg.totalBudget < Sum(Uppers(Intake(fs, cfg).value))
    ensures var r := Allocate(fs, cfg.(totalBudget := cfg.totalBudget + 1));
      && r.Ok? && key in s.allocations
      && r.value.allocations == s.allocations[key := s.allocations[key] + 1]
      && r.value.lower == s.lower && r.value.upper == s.upper
  {
    var cfg' := cfg.(totalBudget := cfg.totalBudget + 1);
    SameLimits(fs, cfg, cfg');
    OneMoreAccepted(fs, cfg, s);
    key := OneMoreSummary(fs, cfg, s);
  }

  lemma OneMoreAccepted(fs: seq<Fields>, cfg: Config, s: Summary)
    requires Allocate(fs, cfg) == Ok(s)
    requires Intake(fs, cfg.(totalBudget := cfg.totalBudget + 1)) == Intake(fs, cfg)
    requires cfg.totalBudget < Sum(Uppers(Intake(fs, cfg).value))
    ensures Allocate(fs, cfg.(totalBudget := cfg.totalBudget + 1)).Ok?
  {
    hide Intake;
    hide Summarize;
    hide WellPosed;
    var cfg' := cfg.(totalBudget := cfg.totalBudget + 1);
    var t := Intake(fs, cfg).value;
    TableWellPosed(fs, cfg);
    assert Lowers(t, cfg') == Lowers(t, cfg);
  }

  lemma OneMoreSummary(fs: seq<Fields>, cfg: Config, s: Summary) returns (key: string)
    requires Allocate(fs, cfg) == Ok(s)
    requires Intake(fs, cfg.(totalBudget := cfg.totalBudget + 1)) == Intake(fs, cfg)
    requires Allocate(fs, cfg.(totalBudget := cfg.totalBudget + 1)).Ok?
    requires cfg.totalBudget < Sum(Uppers(Intake(fs, cfg).value))
    ensures var r := Allocate(fs, cfg.(totalBudget := cfg.totalBudget + 1)).value;
      && key in s.allocations
      && r.allocations == s.allocations[key := s.allocations[key] + 1]
      && r.lower == s.lower && r.upper == s.upper
  {
    hide Intake;
    hide Allocate;
    hide WellPosed;
    hide Outcome;
    hide FinalUppers;
    hide Repairs;
    var cfg' := cfg.(totalBudget := cfg.totalBudget + 1);
    AllocateSummarizes(fs, cfg);
    AllocateSummarizes(fs, cfg');
    var t := Intake(fs, cfg).value;
    CapsAsTheyStand(t, cfg, cfg');
    TableKeys(t, cfg);
    key := OneMoreOutcome(Dispersions(t), Defaults(t), Predictions(t), Lowers(t, cfg), Uppers(t),
                          cfg.totalBudget, Repairs(t, cfg), Repairs(t, cfg'));
  }

  lemma CapsAsTheyStand(t: map<string, Limits>, cfg: Config, cfg': Config)
    requires cfg.totalBudget < Sum(Uppers(t)) && cfg' == cfg.(totalBudget := cfg.totalBudget + 1)
    ensures Lowers(t, cfg') == Lowers(t, cfg)
    ensures FinalUppers(t, cfg') == FinalUppers(t, cfg) == Uppers(t)
  {
  }

  lemma OneMoreOutcome(c: map<string, real>, defaults: map<string, int>, predicted: map<string, int>,
                       lo: map<string, int>, hi: map<string, int>, budget: int, repairs: nat, repairs': nat)
    returns (key: string)
    requires WellPosed(c, lo, hi) && defaults.Keys == lo.Keys
    requires Sum(lo) <= budget < Sum(hi)
    ensures var s, r := Outcome(c, defaults, predicted, lo, hi, budget, repairs),
                        Outcome(c, defaults, predicted, lo, hi, budget + 1, repairs');
      && key in s.allocations
      && r.allocations == s.allocations[key := s.allocations[key] + 1]
      && r.lower == s.lower && r.upper == s.upper
  {
    hide Objective;
    hide Reference;
    hide Instance;
    hide Raise;
    hide Spend;
    hide Pruned;
    hide Expanded;
    DiminishingReturns(c, lo, hi);
    key := SpendOneMore(DispersionCost(c), lo, hi, budget - Sum(lo));
  }

  lemma {:induction false} SameLimits(fs: seq<Fields>, cfg: Config, cfg': Config)
    requires ExplicitDefaults(fs) && cfg' == cfg.(totalBudget := cfg.totalBudget + 1)
    ensures Intake(fs, cfg') == Intake(fs, cfg)
  {
    hide NodeId;
    hide RawDispersion;
    if fs != [] {
      var n := |fs| - 1;
      SameLimits(fs[..n], cfg, cfg');
      assert fs[n] in fs;
      assert LimitsOf(fs[n], cfg') == LimitsOf(fs[n], cfg);
    }
  }
}
