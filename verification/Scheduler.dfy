/** FlexibleBudgetScheduler: queue objects that are cleared and refilled on every call, proved
    against SchedulerSpec. */
module Scheduler {
  import opened Prelude
  import opened Schema
  import opened AllocatorSpec
  import opened Sharing
  import opened SchedulerSpec
  import Allocator

  class BudgetQueue {
    const queueId: nat
    var nodes: seq<Node>

    constructor (queueId: nat)
      ensures this.queueId == queueId && nodes == []
    {
      this.queueId := queueId;
      nodes := [];
    }
  }

  ghost function NodesOf(queues: seq<BudgetQueue>): (held: seq<seq<Node>>)
    reads queues
    ensures |held| == |queues|
  {
    seq(|queues|, i requires 0 <= i < |queues| reads queues => queues[i].nodes)
  }

  class FlexibleBudgetScheduler {
    const queues: seq<BudgetQueue>
    const nMin: nat
    const strict: bool

    ghost predicate Valid() {
      && queues != []
      && (forall i :: 0 <= i < |queues| ==> queues[i].queueId == i)
      && (forall i, j :: 0 <= i < j < |queues| ==> queues[i] != queues[j])
    }

    constructor (queueCount: int, nMin: int, strict: bool)
      ensures Valid() && |queues| == Max(queueCount, 1)
      ensures this.nMin == Max(nMin, 0) && this.strict == strict
    {
      var qs: seq<BudgetQueue> := [];
      for i := 0 to Max(queueCount, 1)
        invariant |qs| == i
        invariant forall j :: 0 <= j < i ==> qs[j].queueId == j
        invariant forall j, k :: 0 <= j < k < i ==> qs[j] != qs[k]
      {
        var q := new BudgetQueue(i);
        qs := qs + [q];
      }
      queues := qs;
      this.nMin := Max(nMin, 0);
      this.strict := strict;
    }

    method ClearQueues()
      requires Valid()
      modifies queues
      ensures NodesOf(queues) == Deal<Node>([], |queues|)
    {
      for i := 0 to |queues|
        invariant forall j :: 0 <= j < i ==> queues[j].nodes == []
      {
        queues[i].nodes := [];
      }
    }

    method Shortest() returns (i: nat)
      requires Valid()
      ensures i == LeastLoaded(NodesOf(queues))
    {
      hide LeastLoaded;
      i := 0;
      ghost var held := NodesOf(queues);
      LeastLoadedFirst(held);
      for n := 1 to |queues|
        invariant i < n && i == LeastLoaded(held[..n])
      {
        LeastLoadedNext(held, n);
        if |queues[n].nodes| < |queues[i].nodes| {
          i := n;
        }
      }
      assert held[..|queues|] == held;
    }

    /** One node joins the least loaded queue and is marked with its number. */
    method Place(node: Node, ghost all: set<Node>)
      requires Valid() && node in all
      modifies queues, node
      ensures var held, i := old(NodesOf(queues)), LeastLoaded(old(NodesOf(queues)));
        && NodesOf(queues) == held[i := held[i] + [node]]
        && Snapshot(all) == old(Snapshot(all))[node := old(node.fields).(queueId := Some(i))]
    {
      hide LeastLoaded;
      var i := Shortest();
      ghost var held := NodesOf(queues);
      queues[i].nodes := queues[i].nodes + [node];
      node.fields := node.fields.(queueId := Some(queues[i].queueId));
      assert NodesOf(queues) == held[i := held[i] + [node]];
    }

    method PlaceAll(nodes: seq<Node>, ghost all: set<Node>)
      requires Valid() && NodesOf(queues) == Deal<Node>([], |queues|)
      requires forall n :: n in nodes ==> n in all
      modifies queues, nodes
      ensures NodesOf(queues) == Deal(nodes, |queues|)
      ensures Stored(nodes, old(Snapshot(all)))
      ensures Snapshot(all) == Placed(nodes, |queues|, |nodes|, old(Snapshot(all)))
    {
      hide NodesOf;
      ghost var store := Snapshot(all);
      assert nodes[..0] == [];
      for n := 0 to |nodes|
        invariant NodesOf(queues) == Deal(nodes[..n], |queues|)
        invariant Snapshot(all) == Placed(nodes, |queues|, n, store)
      {
        assert nodes[..n + 1][..n] == nodes[..n];
        Place(nodes[n], all);
      }
      assert nodes[..|nodes|] == nodes;
    }

    /** One turn of the allocation loop, on a queue that is not empty. */
    method ServeQueue(nodes: seq<Node>, budget: int, left: int, done: seq<Summary>, ghost all: set<Node>)
      returns (r: Result<Summary, Error>, share: int)
      requires nodes != [] && forall n :: n in nodes ==> n in all
      modifies all
      ensures share == QueueBudget(Rest(budget, left), |nodes|)
      ensures Stored(nodes, old(Snapshot(all)))
      ensures var p := ServeOne(nodes, Progress(old(Snapshot(all)), Rest(budget, left), done, None), nMin, strict);
        && Snapshot(all) == p.store
        && (r.Ok? ==> p == Progress(p.store, Rest(budget - share, left - |nodes|), done + [r.value], None))
        && (r.Err? ==> p == Progress(p.store, Rest(budget, left), done, Some(r.error)))
    {
      hide AllocatorSpec.Allocate;
      hide AllocateStore;
      share := RoundedQuotient(budget * |nodes|, Max(left, 1));
      ghost var store := Snapshot(all);
      assert Snapshot(Allocator.NodeSet(nodes)) == Only(nodes, store);
      r := Allocator.AllocateBranchFactors(nodes, DefaultConfig(share, nMin, strict));
      assert Snapshot(all) == store + Snapshot(Allocator.NodeSet(nodes));
      if r.Err? {
        RejectedUnchanged(nodes, DefaultConfig(share, nMin, strict), Only(nodes, store));
        assert store + Only(nodes, store) == store;
      }
    }

    static lemma RejectedUnchanged(nodes: seq<Node>, cfg: Config, store: Store)
      requires Stored(nodes, store) && AllocatorSpec.Allocate(Contents(nodes, store), cfg).Err?
      ensures AllocateStore(nodes, cfg, store) == store
    {
    }

    static lemma {:induction false} ErrorEnds(held: seq<seq<Node>>, n: nat, start: Progress, nMin: int, strict: bool)
      requires n <= |held| && AllStored(held, start.store) && AllStored(held[..n], start.store)
      requires Serve(held[..n], start, nMin, strict).error.Some?
      ensures Serve(held, start, nMin, strict) == Serve(held[..n], start, nMin, strict)
      decreases |held|
    {
      hide AllStored;
      hide Stored;
      hide ServeOne;
      if n == |held| {
        assert held[..n] == held;
      } else {
        var m := |held| - 1;
        assert held[..m][..n] == held[..n];
        PrefixStored(held, m, start.store);
        ErrorEnds(held[..m], n, start, nMin, strict);
        LastStored(held, start.store);
        ErrorStays(held[m], Serve(held[..m], start, nMin, strict), nMin, strict);
      }
    }

    static lemma LastStored(held: seq<seq<Node>>, store: Store)
      requires held != [] && AllStored(held, store)
      ensures forall after: Store :: after.Keys == store.Keys ==> Stored(held[|held| - 1], after)
    {
    }

    static lemma ErrorStays(queue: seq<Node>, p: Progress, nMin: int, strict: bool)
      requires Stored(queue, p.store) && p.error.Some?
      ensures ServeOne(queue, p, nMin, strict) == p
    {
    }

    static lemma PrefixStored(held: seq<seq<Node>>, n: nat, store: Store)
      requires n <= |held| && AllStored(held, store)
      ensures AllStored(held[..n], store)
    {
    }

    /** The allocation loop over the queues that were dealt. */
    method ServeAll(nodes: seq<Node>, total: nat, ghost all: set<Node>) returns (r: Result<seq<Summary>, Error>)
      requires Valid() && NodesOf(queues) == Deal(nodes, |queues|)
      requires all == set n | n in nodes
      modifies all
      ensures AllStored(NodesOf(queues), old(Snapshot(all)))
      ensures var p := Serve(NodesOf(queues), Progress(old(Snapshot(all)), Rest(total, |nodes|), [], None), nMin,
        strict);
        Snapshot(all) == p.store && r == (if p.error.None? then Ok(p.summaries) else Err(p.error.value))
    {
      hide Deal;
      hide ServeOne;
      ghost var held := NodesOf(queues);
      ghost var start := Progress(Snapshot(all), Rest(total, |nodes|), [], None);
      DealStored(nodes, |queues|, start.store);
      var summaries: seq<Summary> := [];
      var budget, left: int := total, |nodes|;
      for i := 0 to |queues|
        invariant NodesOf(queues) == held && AllStored(held, start.store) && AllStored(held[..i], start.store)
        invariant Serve(held[..i], start, nMin, strict) == Progress(Snapshot(all), Rest(budget, left), summaries, None)
      {
        PrefixStored(held, i + 1, start.store);
        assert held[..i + 1][..i] == held[..i] && held[i] == queues[i].nodes && Stored(held[i], start.store);
        if queues[i].nodes == [] {
          SkipEmpty(Serve(held[..i], start, nMin, strict));
          continue;
        }
        var outcome, share := ServeQueue(queues[i].nodes, budget, left, summaries, all);
        if outcome.Err? {
          ErrorEnds(held, i + 1, start, nMin, strict);
          return Err(outcome.error);
        }
        summaries := summaries + [outcome.value];
        budget, left := budget - share, left - |queues[i].nodes|;
      }
      assert held[..|queues|] == held;
      r := Ok(summaries);
    }

    lemma SkipEmpty(p: Progress)
      ensures ServeOne([], p, nMin, strict) == p
    {
    }

    method Allocate(nodes: seq<Node>, totalDepthBudget: int) returns (r: Result<seq<Summary>, Error>)
      requires Valid()
      modifies queues, nodes
      ensures NodesOf(queues) == Deal(nodes, |queues|)
      ensures Stored(nodes, old(Snapshot(Allocator.NodeSet(nodes))))
      ensures var p := Schedule(nodes, |queues|, totalDepthBudget, nMin, strict,
        old(Snapshot(Allocator.NodeSet(nodes))));
        && Snapshot(Allocator.NodeSet(nodes)) == p.store
        && r == (if p.error.None? then Ok(p.summaries) else Err(p.error.value))
    {
      hide Deal;
      hide Placed;
      hide Serve;
      hide NodesOf;
      ghost var all := Allocator.NodeSet(nodes);
      ClearQueues();
      PlaceAll(nodes, all);
      r := ServeAll(nodes, Max(totalDepthBudget, 0), all);
    }
  }
}
