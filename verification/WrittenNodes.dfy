/** What a successful call leaves on its nodes: on every dictionary the figures of the summary,
    and everything else as it was. */
module WrittenNodes {
  import opened Prelude
  import opened Dicts
  import opened Schema
  import opened BranchCost
  import opened AllocatorSpec
  import opened AllocatorTheorems
  import opened NodeKeys
  import opened SummaryKeys

  lemma {:induction false} WriteBackAt(nodes: seq<Node>, n: nat, s: Summary, cfg: Config, store: Store, i: nat)
    requires n <= |nodes| && i < |nodes| && forall m :: m in nodes ==> m in store
    requires forall j, k :: 0 <= j < k < |nodes| ==> nodes[j] != nodes[k]
    ensures var f := store[nodes[i]];
      WriteBack(nodes, n, s, cfg, store)[nodes[i]] ==
        if i < n then WriteAccounting(f, TraceArgs(s, NodeId(f, i), cfg)) else f
  {
    hide WriteAccounting;
    hide TraceArgs;
    hide NodeId;
    if n > 0 {
      WriteBackAt(nodes, n - 1, s, cfg, store, i);
      if i != n - 1 {
        assert nodes[i] != nodes[n - 1];
      }
    }
  }

  /** A node that carries the figures of a summary under a key. */
  ghost predicate Carries(g: Fields, s: Summary, key: string)
    requires key in s.allocations && key in s.lower && key in s.upper && key in s.defaults && key in s.predicted
    requires key in s.dispersion && key in s.pruned && key in s.expanded
  {
    && g.accounting == Some(Accounting(
                              s.upper[key], s.lower[key], s.lower[key], s.upper[key],
                              s.pruned[key], s.expanded[key], s.expanded[key], s.pruned[key], s.expanded[key]))
    && g.vdraAllocatedK == g.gearBranchAllocation == g.gearAllocatedBranchFactor == Some(s.allocations[key])
    && g.vdraDefaultK == Some(s.defaults[key])
    && g.vdraPredictedK == g.gearPredictedK == Some(s.predicted[key])
    && g.vdraDispersionC == g.gearRewardVariance == Some(s.dispersion[key])
  }

  /** The figures of a summary at one key fit together. */
  predicate Fits(s: Summary, key: string) {
    && key in s.allocations && key in s.lower && key in s.upper && key in s.defaults && key in s.predicted
    && key in s.dispersion && key in s.pruned && key in s.expanded
    && s.lower[key] >= 1 && s.lower[key] <= s.allocations[key] <= s.upper[key]
    && s.pruned[key] == Max(s.defaults[key] - s.allocations[key], 0)
    && s.expanded[key] == Max(s.allocations[key] - s.defaults[key], 0)
    && s.dispersion[key] >= 0.0
  }

  lemma TracedCarries(f: Fields, s: Summary, key: string, cfg: Config)
    requires Fits(s, key) && s.lower[key] == Max(cfg.nMin, 1)
    ensures Carries(WriteAccounting(f, TraceArgs(s, key, cfg)), s, key)
    ensures SameOtherwise(f, WriteAccounting(f, TraceArgs(s, key, cfg)))
  {
    hide NodeId;
  }

  lemma {:induction false} SummaryFits(fs: seq<Fields>, cfg: Config, s: Summary, i: nat)
    requires Allocate(fs, cfg) == Ok(s) && i < |fs|
    ensures Fits(s, NodeId(fs[i], i)) && s.lower[NodeId(fs[i], i)] == Max(cfg.nMin, 1)
  {
    hide Allocate;
    hide Intake;
    hide NodeId;
    hide LimitsOf;
    hide Greedily;
    hide FinalUppers;
    hide Repairs;
    SummaryParts(fs, cfg, s);
    IntakeDescribes(fs, cfg);
    IntakeInOrder(fs, cfg);
    AllocateBalanced(fs, cfg, s);
  }

  /** After a successful call on different dictionaries every one of them carries the figures of
      the summary, cap and bounds included, and is otherwise as it was. */
  lemma {:induction false} NodesAfterCall(nodes: seq<Node>, cfg: Config, store: Store, s: Summary, i: nat)
    requires forall m :: m in nodes ==> m in store
    requires forall j, k :: 0 <= j < k < |nodes| ==> nodes[j] != nodes[k]
    requires Allocate(Contents(nodes, store), cfg) == Ok(s) && i < |nodes|
    ensures var key := NodeId(store[nodes[i]], i);
      && Fits(s, key)
      && Carries(AllocateStore(nodes, cfg, store)[nodes[i]], s, key)
      && SameOtherwise(store[nodes[i]], AllocateStore(nodes, cfg, store)[nodes[i]])
  {
    hide Allocate;
    hide NodeId;
    hide WriteAccounting;
    hide TraceArgs;
    hide Carries;
    hide Fits;
    hide SameOtherwise;
    SummaryFits(Contents(nodes, store), cfg, s, i);
    WriteBackAt(nodes, |nodes|, s, cfg, store, i);
    TracedCarries(store[nodes[i]], s, NodeId(store[nodes[i]], i), cfg);
  }
}
