/** allocate_branch_factors_integer over node dictionaries that are updated in place. */
module Allocator {
  import opened Prelude
  import opened Dicts
  import opened Schema
  import opened Separable
  import opened BranchCost
  import opened AllocatorSpec

  ghost function NodeSet(nodes: seq<Node>): set<Node> {
    set n | n in nodes
  }

  /** The intake loop: it stops at the first node it cannot accept. */
  method TakeIn(nodes: seq<Node>, cfg: Config) returns (r: Result<map<string, Limits>, Error>)
    ensures r == Intake(Contents(nodes, Snapshot(NodeSet(nodes))), cfg)
  {
    ghost var fs := Contents(nodes, Snapshot(NodeSet(nodes)));
    var table: map<string, Limits> := map[];
    assert fs[..0] == [];
    for i := 0 to |nodes|
      invariant Intake(fs[..i], cfg) == Ok(table)
    {
      assert fs[..i + 1][..i] == fs[..i] && fs[i] == nodes[i].fields;
      r := IntakeOne(table, nodes[i].fields, i, cfg);
      if r.Err? {
        ErrorStops(fs, i + 1, cfg);
        return;
      }
      table := r.value;
    }
    assert fs[..|nodes|] == fs;
    r := Ok(table);
  }

  lemma {:induction false} ErrorStops(fs: seq<Fields>, i: nat, cfg: Config)
    requires i <= |fs| && Intake(fs[..i], cfg).Err?
    ensures Intake(fs, cfg) == Intake(fs[..i], cfg)
    decreases |fs|
  {
    if i == |fs| {
      assert fs[..i] == fs;
    } else {
      var n := |fs| - 1;
      assert fs[..n][..i] == fs[..i];
      ErrorStops(fs[..n], i, cfg);
    }
  }

  /** The caps while the keys ahead are still to be looked at. */
  ghost function PartlyLifted(table: map<string, Limits>, ahead: set<string>, cfg: Config): (upper: map<string, int>)
    ensures upper.Keys == table.Keys
  {
    map k | k in table :: if k !in ahead && Liftable(table[k], cfg) then cfg.RepairCap() else table[k].upper
  }

  ghost function LiftedKeys(table: map<string, Limits>, ahead: set<string>, cfg: Config): set<string> {
    set k | k in table && k !in ahead && Liftable(table[k], cfg)
  }

  lemma LiftStep(table: map<string, Limits>, ahead: set<string>, key: string, cfg: Config)
    requires key in ahead && key in table
    ensures var now, next := PartlyLifted(table, ahead, cfg), PartlyLifted(table, ahead - {key}, cfg);
      && now[key] == table[key].upper
      && next == if Liftable(table[key], cfg) then now[key := cfg.RepairCap()] else now
    ensures |LiftedKeys(table, ahead - {key}, cfg)| ==
      |LiftedKeys(table, ahead, cfg)| + if Liftable(table[key], cfg) then 1 else 0
  {
    var more := LiftedKeys(table, ahead, cfg) + if Liftable(table[key], cfg) then {key} else {};
    assert LiftedKeys(table, ahead - {key}, cfg) == more;
  }

  lemma LiftEnds(table: map<string, Limits>, cfg: Config)
    ensures PartlyLifted(table, table.Keys, cfg) == Uppers(table)
    ensures LiftedKeys(table, table.Keys, cfg) == {}
    ensures PartlyLifted(table, {}, cfg) == RepairedUppers(table, cfg)
    ensures LiftedKeys(table, {}, cfg) == set k | k in table && Liftable(table[k], cfg)
  {
  }

  /** The repair loop, over the sorted keys. */
  method LiftCaps(table: map<string, Limits>, cfg: Config) returns (upper: map<string, int>, repairs: nat)
    ensures upper == RepairedUppers(table, cfg)
    ensures repairs == |set k | k in table && Liftable(table[k], cfg)|
  {
    hide SortedKeys;
    hide Increasing;
    hide PartlyLifted;
    hide LiftedKeys;
    LiftEnds(table, cfg);
    upper := Uppers(table);
    repairs := 0;
    var order := SortedKeys(table.Keys);
    ghost var ahead: set<string> := table.Keys;
    for i := 0 to |order|
      invariant ahead <= table.Keys
      invariant forall k :: k in order[i..] <==> k in ahead
      invariant upper == PartlyLifted(table, ahead, cfg)
      invariant repairs == |LiftedKeys(table, ahead, cfg)|
    {
      var key := order[i];
      TakeNext(order, i, ahead);
      LiftStep(table, ahead, key, cfg);
      ahead := ahead - {key};
      if !table[key].capped {
        if upper[key] < cfg.RepairCap() {
          upper := upper[key := cfg.RepairCap()];
          repairs := repairs + 1;
        }
      }
    }
    assert ahead == {} by {
      assert order[|order|..] == [];
    }
  }

  lemma TakeNext(order: seq<string>, i: nat, ahead: set<string>)
    requires Increasing(order) && i < |order|
    requires forall k :: k in order[i..] <==> k in ahead
    ensures order[i] in ahead
    ensures forall k :: k in order[i + 1..] <==> k in ahead - {order[i]}
  {
    IncreasingAhead(order, i);
    assert order[i..] == [order[i]] + order[i + 1..];
  }

  /** The write-back loop: node by node, so that a dictionary that is listed twice ends with
      its last entry. */
  method WriteAll(nodes: seq<Node>, s: Summary, cfg: Config)
    modifies nodes
    ensures Snapshot(NodeSet(nodes)) == WriteBack(nodes, |nodes|, s, cfg, old(Snapshot(NodeSet(nodes))))
  {
    hide WriteAccounting;
    hide TraceArgs;
    hide NodeId;
    ghost var store := Snapshot(NodeSet(nodes));
    for i := 0 to |nodes|
      invariant Snapshot(NodeSet(nodes)) == WriteBack(nodes, i, s, cfg, store)
    {
      ghost var before := Snapshot(NodeSet(nodes));
      assert nodes[i] in nodes && before[nodes[i]] == nodes[i].fields;
      var key := NodeId(nodes[i].fields, i);
      WriteNodeAccounting(nodes[i], TraceArgs(s, key, cfg));
      assert Snapshot(NodeSet(nodes)) == before[nodes[i] := nodes[i].fields];
    }
  }

  /** The caps to solve with, lifted when they cannot take the budget and may be lifted. */
  method SettleCaps(table: map<string, Limits>, cfg: Config)
    returns (upper: map<string, int>, upperSum: int, repairs: nat)
    ensures upper == FinalUppers(table, cfg) && upperSum == Sum(upper) && repairs == Repairs(table, cfg)
  {
    hide RepairedUppers;
    hide Liftable;
    hide Uppers;
    upper := Uppers(table);
    upperSum := SumValues(upper);
    repairs := 0;
    if cfg.totalBudget > upperSum && cfg.policy == ExpandNonredundantCaps {
      upper, repairs := LiftCaps(table, cfg);
      upperSum := SumValues(upper);
    }
  }

  method AllocateBranchFactors(nodes: seq<Node>, cfg: Config) returns (r: Result<Summary, Error>)
    modifies nodes
    ensures r == Allocate(Contents(nodes, old(Snapshot(NodeSet(nodes)))), cfg)
    ensures Snapshot(NodeSet(nodes)) == AllocateStore(nodes, cfg, old(Snapshot(NodeSet(nodes))))
  {
    if nodes == [] {
      return Err(EmptyNodeList);
    }
    r := Decide(nodes, cfg);
    if r.Ok? {
      WriteAll(nodes, r.value, cfg);
    }
  }

  /** Everything up to the write-back; it reads the nodes and changes none. */
  method Decide(nodes: seq<Node>, cfg: Config) returns (r: Result<Summary, Error>)
    requires nodes != []
    ensures r == Allocate(Contents(nodes, Snapshot(NodeSet(nodes))), cfg)
  {
    hide Intake;
    hide Outcome;
    hide WellPosed;
    hide FinalUppers;
    hide Repairs;
    ghost var fs := Contents(nodes, Snapshot(NodeSet(nodes)));
    var intake := TakeIn(nodes, cfg);
    if intake.Err? {
      return Err(intake.error);
    }
    var table := intake.value;
    TableWellPosed(fs, cfg);
    TableKeys(table, cfg);
    var lower := Lowers(table, cfg);
    var lowerSum := SumValues(lower);
    if cfg.totalBudget < lowerSum {
      return Err(BelowLowerBounds(cfg.totalBudget, lowerSum));
    }
    var upper, upperSum, repairs := SettleCaps(table, cfg);
    if cfg.totalBudget > upperSum && cfg.policy == RaiseError {
      return Err(AboveUpperBounds(cfg.totalBudget, upperSum));
    }
    var slack := Max(cfg.totalBudget - upperSum, 0);
    var s := SolveAndSummarize(Dispersions(table), Defaults(table), Predictions(table),
                               lower, upper, cfg.totalBudget - slack, slack, repairs);
    r := Ok(s);
  }

  method Objectives(c: map<string, real>, defaults: map<string, int>, lower: map<string, int>, upper: map<string, int>,
                    spendable: int, a: map<string, int>)
    returns (before: real, after: real)
    requires c.Keys == defaults.Keys == lower.Keys == upper.Keys == a.Keys
    ensures before == Objective(c, Reference(defaults, lower, upper, spendable))
    ensures after == Objective(c, a)
  {
    hide Clamped;
    hide Objective;
    var clamped := Clamped(defaults, lower, upper);
    var clampedSum := SumValues(clamped);
    if clampedSum == spendable {
      before := ComputeObjective(c, clamped);
    } else {
      before := ComputeObjective(c, defaults);
    }
    after := ComputeObjective(c, a);
  }

  method Transfers(defaults: map<string, int>, a: map<string, int>)
    returns (pruned: map<string, int>, expanded: map<string, int>, transferred: int)
    requires defaults.Keys == a.Keys
    ensures pruned == Pruned(defaults, a) && expanded == Expanded(defaults, a)
    ensures transferred == Min(Sum(pruned), Sum(expanded))
  {
    pruned, expanded := Pruned(defaults, a), Expanded(defaults, a);
    var prunedSum := SumValues(pruned);
    var expandedSum := SumValues(expanded);
    transferred := Min(prunedSum, expandedSum);
  }

  method SolveCounted(c: map<string, real>, lower: map<string, int>, upper: map<string, int>, spendable: int)
    returns (a: map<string, int>, granted: int)
    requires WellPosed(c, lower, upper) && Sum(lower) <= spendable <= Sum(upper)
    ensures a == Allocation(c, lower, upper, spendable - Sum(lower))
    ensures granted == Sum(a) == spendable
  {
    hide Allocation;
    hide InBox;
    var lowerSum := SumValues(lower);
    AllocationSpends(c, lower, upper, spendable - lowerSum);
    a := SolveBranches(c, lower, upper, spendable - lowerSum);
    granted := SumValues(a);
  }

  method Report(c: map<string, real>, defaults: map<string, int>, predicted: map<string, int>,
                lower: map<string, int>, upper: map<string, int>, spendable: int, slack: nat, repairs: nat,
                a: map<string, int>, granted: int, before: real, after: real)
    returns (s: Summary)
    requires defaults.Keys == a.Keys
    ensures s == Summary(
      a, c, defaults, predicted, lower, upper, Pruned(defaults, a), Expanded(defaults, a),
      Min(Sum(Pruned(defaults, a)), Sum(Expanded(defaults, a))), spendable + slack, granted,
      slack + Max(spendable - granted, 0), before, after, repairs)
  {
    var pruned, expanded, transferred := Transfers(defaults, a);
    s := Summary(
      a, c, defaults, predicted, lower, upper, pruned, expanded,
      transferred, spendable + slack, granted, slack + Max(spendable - granted, 0),
      before, after, repairs);
  }

  lemma PosedKeys(c: map<string, real>, lo: map<string, int>, hi: map<string, int>)
    requires WellPosed(c, lo, hi)
    ensures c.Keys == lo.Keys == hi.Keys
  {
  }

  /** The solver call and the figures of the summary. The test that the solver spent no more
      than it was given, which raises RuntimeError in the original, cannot fail. */
  method SolveAndSummarize(c: map<string, real>, defaults: map<string, int>, predicted: map<string, int>,
                           lower: map<string, int>, upper: map<string, int>, spendable: int, slack: nat, repairs: nat)
    returns (s: Summary)
    requires WellPosed(c, lower, upper) && defaults.Keys == lower.Keys
    requires Sum(lower) <= spendable <= Sum(upper)
    requires slack > 0 ==> spendable == Sum(upper)
    ensures s == Outcome(c, defaults, predicted, lower, upper, spendable + slack, repairs)
  {
    hide Allocation;
    hide Objective;
    hide Pruned;
    hide Expanded;
    hide Reference;
    hide WellPosed;
    hide Sum;
    PosedKeys(c, lower, upper);
    var a, granted := SolveCounted(c, lower, upper, spendable);
    assert granted <= spendable;
    var before, after := Objectives(c, defaults, lower, upper, spendable, a);
    s := Report(c, defaults, predicted, lower, upper, spendable, slack, repairs, a, granted, before, after);
    assert Min(spendable + slack, Sum(upper)) == spendable;
  }
}
