/** The online queues and their manager, as objects that are updated in place. Each method
    is proved against the state machine of OnlineSpec. */
module OnlineBudget {
  import opened Prelude
  import opened Schema
  import opened AllocatorSpec
  import opened OnlineSpec
  import Allocator

  class OnlineBudgetQueue {
    const queueId: nat
    const capacity: nat
    const snapshot: string
    var items: seq<Item>
    var first: Option<real>

    function State(): QueueState
      reads this
    {
      QueueState(items, first)
    }

    constructor (queueId: nat, capacity: nat, snapshot: string)
      ensures this.queueId == queueId && this.capacity == capacity && this.snapshot == snapshot
      ensures State() == QueueState([], None)
    {
      this.queueId, this.capacity, this.snapshot := queueId, capacity, snapshot;
      items, first := [], None;
    }

    /** A foreign policy snapshot is rejected; the queue and the node are then untouched. */
    method Append(item: Item, now: real) returns (ok: bool)
      modifies this, item.node
      ensures ok <==> (item.snapshot.None? || item.snapshot == Some("") || item.snapshot == Some(snapshot))
      ensures ok ==> items == old(items) + [item]
      ensures ok ==> first == if old(items) == [] then Some(now) else old(first)
      ensures State() == if ok then OnlineSpec.Append(old(State()), item, now) else old(State())
      ensures item.node.fields == if ok then old(item.node.fields).(queueId := Some(queueId), snapshotId :=
        Some(snapshot)) else old(item.node.fields)
    {
      if EffectiveSnapshot(item, snapshot) != snapshot {
        return false;
      }
      if items == [] {
        first := Some(now);
      }
      items := items + [item];
      item.node.fields := item.node.fields.(queueId := Some(queueId));
      item.node.fields := item.node.fields.(snapshotId := Some(snapshot));
      ok := true;
    }

    method FlushReason(timeout: real, now: real) returns (r: Option<FlushReason>)
      ensures forall p: Params :: p.capacity == capacity && p.timeout == timeout ==> r == ReadyReason(State(), p, now)
      ensures r == Some(Capacity) <==> items != [] && |items| >= capacity
      ensures r == Some(Timeout) <==>
        0 < |items| < capacity && timeout > 0.0 && first.Some? && now - first.value >= timeout
      ensures r.Some? ==> r.value == Capacity || r.value == Timeout
    {
      if items == [] {
        return None;
      }
      if |items| >= capacity {
        return Some(Capacity);
      }
      if timeout > 0.0 && first.Some? && now - first.value >= timeout {
        return Some(Timeout);
      }
      r := None;
    }

    method PopAll() returns (popped: seq<Item>)
      modifies this
      ensures popped == old(items) && State() == QueueState([], None)
    {
      popped := items;
      items := [];
      first := None;
    }
  }

  ghost function ItemNodes(items: seq<Item>): (nodes: set<Node>)
    ensures forall i :: 0 <= i < |items| ==> items[i].node in nodes
    ensures nodes == Allocator.NodeSet(NodesOf(items))
  {
    assert forall i :: 0 <= i < |items| ==> NodesOf(items)[i] == items[i].node;
    set n | n in NodesOf(items)
  }

  /** The default and the prediction are written before the allocation. */
  method PrepareOne(item: Item, ghost nodes: set<Node>)
    requires item.node in nodes
    modifies item.node
    ensures Snapshot(nodes) == old(Snapshot(nodes))[item.node := Prepared(old(item.node.fields), item)]
  {
    var node := item.node;
    node.fields := node.fields.(vdraDefaultK := Some(item.defaultK));
    if node.fields.vdraPredictedK.None? {
      node.fields := node.fields.(vdraPredictedK := Some(ValueOr(node.fields.gearPredictedK, item.defaultK)));
    }
  }

  method PrepareAll(items: seq<Item>)
    modifies ItemNodes(items)
    ensures Snapshot(ItemNodes(items)) == Prepare(items, |items|, old(Snapshot(ItemNodes(items))))
  {
    hide Prepared;
    hide ItemNodes;
    ghost var nodes := ItemNodes(items);
    ghost var store := Snapshot(nodes);
    for i := 0 to |items|
      invariant Snapshot(nodes) == Prepare(items, i, store)
    {
      PrepareOne(items[i], nodes);
    }
  }

  method RecordAll(items: seq<Item>, s: Summary, nMin: int, wait: real, reason: FlushReason)
    modifies ItemNodes(items)
    ensures Snapshot(ItemNodes(items)) == Record(items, |items|, s, nMin, wait, reason, old(Snapshot(ItemNodes(items))))
  {
    hide Recorded;
    hide NodeId;
    hide ItemNodes;
    ghost var nodes := ItemNodes(items);
    ghost var store := Snapshot(nodes);
    for i := 0 to |items|
      invariant Snapshot(nodes) == Record(items, i, s, nMin, wait, reason, store)
    {
      RecordOne(items[i], nodes, NodeId(items[i].node.fields, i), s, nMin, wait, reason);
    }
  }

  /** The accounting write, then the keys that describe the flush. */
  method RecordOne(item: Item, ghost nodes: set<Node>, key: string, s: Summary, nMin: int, wait: real,
                   reason: FlushReason)
    requires item.node in nodes
    modifies item.node
    ensures Snapshot(nodes) == old(Snapshot(nodes))[item.node :=
      Recorded(old(item.node.fields), item, key, s, nMin, wait, reason)]
  {
    hide WriteAccounting;
    WriteNodeAccounting(item.node, FlushArgs(item.node.fields, item, key, s, nMin));
    item.node.fields := item.node.fields.(flush := Some(TraceOf(key, s, wait, reason)));
  }

  method SumBudget(items: seq<Item>, nMin: int) returns (total: int)
    ensures total == BaseBudget(items, nMin)
  {
    total := 0;
    for i := 0 to |items|
      invariant total == BaseBudget(items[..i], nMin)
    {
      assert items[..i + 1][..i] == items[..i];
      total := total + Max(items[i].defaultK, nMin);
    }
    assert items[..|items|] == items;
  }

  /** The part of _flush_queue between the pop and the counters. */
  method FlushNodes(items: seq<Item>, p: Params, wait: real, reason: FlushReason)
    returns (outcome: Result<Summary, Error>)
    modifies ItemNodes(items)
    ensures (Snapshot(ItemNodes(items)), outcome) == FlushItems(items, p, wait, reason, old(Snapshot(ItemNodes(items))))
  {
    hide Prepare;
    hide Record;
    hide Allocate;
    hide AllocateStore;
    hide BaseBudget;
    hide ItemNodes;
    PrepareAll(items);
    var total := SumBudget(items, p.nMin);
    var overridden := exists i :: 0 <= i < |items| && items[i].weightKey == Some(OVERRIDE);
    var cfg := DefaultConfig(total, p.nMin, p.strict).(weightKey := if overridden then Some(OVERRIDE) else None);
    outcome := Allocator.AllocateBranchFactors(NodesOf(items), cfg);
    if outcome.Ok? {
      RecordAll(items, outcome.value, p.nMin, wait, reason);
    }
  }

  ghost function StatesOf(queues: seq<OnlineBudgetQueue>): seq<QueueState>
    reads queues
  {
    seq(|queues|, i requires 0 <= i < |queues| reads queues => queues[i].State())
  }

  class RootQueueManager {
    const p: Params
    var queues: seq<OnlineBudgetQueue>
    var flushCount: nat
    var timeoutCount: nat
    var capacityCount: nat
    var drainCount: nat
    var reserveConsumed: int
    ghost var arrivals: seq<Arrival>
    ghost var departures: seq<Departure>

    ghost predicate Valid()
      reads this`queues, queues
    {
      && ValidParams(p)
      && |queues| == p.queueCount
      && (forall i :: 0 <= i < |queues| ==>
            queues[i].queueId == i && queues[i].capacity == p.capacity && queues[i].snapshot == p.snapshot)
      && (forall i, j :: 0 <= i < j < |queues| ==> queues[i] != queues[j])
    }

    ghost function View(): ManagerState
      reads this, queues
    {
      ManagerState(
        StatesOf(queues),
        flushCount, timeoutCount, capacityCount, drainCount, reserveConsumed, arrivals, departures)
    }

    /** The dictionaries of all queued items. */
    ghost function QueuedNodes(): set<Node>
      reads this`queues, queues
    {
      set i, k | 0 <= i < |queues| && 0 <= k < |queues[i].items| :: queues[i].items[k].node
    }

    constructor (queueCount: int, capacity: int, timeout: real, nMin: int, snapshot: string, strict: bool)
      ensures p == Params(
                     if queueCount >= 1 then queueCount else 1, if capacity >= 1 then capacity else 1,
                     if timeout >= 0.0 then timeout else 0.0, if nMin >= 0 then nMin else 0, snapshot, strict)
      ensures Valid() && View() == Initial(p) && fresh(queues)
    {
      p := MakeParams(queueCount, capacity, timeout, nMin, snapshot, strict);
      queues := [];
      flushCount, timeoutCount, capacityCount, drainCount := 0, 0, 0, 0;
      reserveConsumed := 0;
      arrivals, departures := [], [];
      new;
      for i := 0 to p.queueCount
        invariant |queues| == i && fresh(queues)
        invariant forall j :: 0 <= j < i ==> queues[j].queueId == j && queues[j].capacity == p.capacity
                                             && queues[j].snapshot == p.snapshot
                                               && queues[j].State() == QueueState([], None)
        invariant forall j, k :: 0 <= j < k < i ==> queues[j] != queues[k]
        invariant flushCount == timeoutCount == capacityCount == drainCount == 0 && reserveConsumed == 0
        invariant arrivals == [] && departures == []
      {
        var q := new OnlineBudgetQueue(i, p.capacity, p.snapshot);
        queues := queues + [q];
      }
      assert View().queues == Initial(p).queues;
    }

    method ShortestQueue() returns (i: nat)
      requires Valid()
      ensures i == Shortest(StatesOf(queues))
    {
      hide LeastLoaded;
      i := 0;
      ghost var items := ItemsOf(StatesOf(queues));
      LeastLoadedFirst(items);
      for n := 1 to |queues|
        invariant i < n && i == LeastLoaded(items[..n])
      {
        LeastLoadedNext(items, n);
        if |queues[n].items| < |queues[i].items| {
          i := n;
        }
      }
      assert items[..|queues|] == items;
    }

    method Enqueue(item: Item, now: real) returns (ok: bool)
      requires Valid()
      modifies this, queues, item.node
      ensures Valid() && queues == old(queues)
      ensures View() == EnqueueStep(p, old(View()), item, now)
      ensures ok <==> (item.snapshot.None? || item.snapshot == Some("") || item.snapshot == Some(p.snapshot))
      ensures item.node.fields == if ok
        then old(item.node.fields).(queueId := Some(Shortest(old(View()).queues)), snapshotId := Some(p.snapshot))
        else old(item.node.fields)
    {
      hide Shortest;
      ghost var before := StatesOf(queues);
      var i := ShortestQueue();
      ok := queues[i].Append(item, now);
      assert StatesOf(queues) == before[i := queues[i].State()];
      if ok {
        arrivals := arrivals + [Arrival(i, item)];
      }
    }

    lemma CoversQueued(nodes: set<Node>)
      requires QueuedNodes() <= nodes
      ensures Covers(Snapshot(nodes), View().queues)
    {
      forall q, i | 0 <= q < |queues| && 0 <= i < |queues[q].items|
        ensures queues[q].items[i].node in nodes
      {
        assert queues[q].items[i].node in QueuedNodes();
      }
    }

    lemma QueuedCovered(nodes: set<Node>)
      requires Covers(Snapshot(nodes), View().queues)
      ensures QueuedNodes() <= nodes
    {
      forall n | n in QueuedNodes() ensures n in nodes {
        var q, i :| 0 <= q < |queues| && 0 <= i < |queues[q].items| && queues[q].items[i].node == n;
        assert View().queues[q].items[i].node in Snapshot(nodes);
      }
    }

    /** The items leave the queue, and the waiting time is taken. */
    method PopQueue(i: nat, now: real) returns (items: seq<Item>, wait: real)
      requires Valid() && i < |queues|
      modifies queues[i]
      ensures Valid()
      ensures items == old(queues[i].items) && wait == WaitOf(old(queues[i].State()), now)
      ensures queues[i].State() == QueueState([], None)
      ensures View() == old(View()).(queues := old(View()).queues[i := QueueState([], None)])
      ensures forall k :: 0 <= k < |items| ==> items[k].node in old(QueuedNodes())
    {
      ghost var before := StatesOf(queues);
      wait := WaitOf(queues[i].State(), now);
      items := queues[i].PopAll();
      assert StatesOf(queues) == before[i := QueueState([], None)];
    }

    /** The dictionaries of the popped items are worked on. nodes is any set that holds them;
        the other dictionaries in it keep their contents. */
    method AllocatePopped(items: seq<Item>, wait: real, reason: FlushReason, ghost nodes: set<Node>)
      returns (outcome: Result<Summary, Error>)
      requires forall k :: 0 <= k < |items| ==> items[k].node in nodes
      modifies ItemNodes(items)
      ensures var store := old(Snapshot(nodes));
        var f := FlushItems(items, p, wait, reason, Local(items, store));
        Snapshot(nodes) == store + f.0 && outcome == f.1
    {
      hide FlushItems;
      ghost var store := Snapshot(nodes);
      LocalIsSnapshot(items, nodes);
      outcome := FlushNodes(items, p, wait, reason);
      assert Snapshot(nodes) == store + Snapshot(ItemNodes(items));
    }

    /** _flush_queue on queue i. */
    method FlushQueue(i: nat, reason: FlushReason, now: real, ghost nodes: set<Node>)
      returns (r: Result<FlushResult, Error>)
      requires Valid() && i < |queues| && queues[i].items != [] && QueuedNodes() <= nodes
      modifies this, queues[i], ItemNodes(queues[i].items)
      ensures Valid() && queues == old(queues)
      ensures Covers(old(Snapshot(nodes)), old(View()).queues)
      ensures Matches(r, FlushOne(p, old(View()), i, reason, now, old(Snapshot(nodes))), nodes)
    {
      hide FlushItems;
      hide Local;
      hide WaitOf;
      hide Snapshot;
      hide QueuedNodes;
      hide AfterSuccess;
      hide AfterRejection;
      hide FlushOne;
      hide BaseBudget;
      CoversQueued(nodes);
      ghost var before := View();
      FlushOneCases(p, before, i, reason, now, Snapshot(nodes));
      var items, wait := PopQueue(i, now);
      var outcome := AllocatePopped(items, wait, reason, nodes);
      if outcome.Err? {
        PoppedTwice(before, i, items);
        CountRejection(i, items);
        return Err(outcome.error);
      }
      var base := SumBudget(items, p.nMin);
      var result := FlushResult(i, items, outcome.value, reason, wait, base);
      CountFlush(result);
      PoppedOnce(before, i, result);
      r := Ok(result);
    }

    static lemma PoppedOnce(s: ManagerState, i: nat, result: FlushResult)
      requires i < |s.queues|
      ensures AfterSuccess(s.(queues := s.queues[i := QueueState([], None)]), i, result) == AfterSuccess(s, i, result)
    {
      var empty := QueueState([], None);
      assert s.queues[i := empty][i := empty] == s.queues[i := empty];
    }

    static lemma PoppedTwice(s: ManagerState, i: nat, items: seq<Item>)
      requires i < |s.queues|
      ensures AfterRejection(s.(queues := s.queues[i := QueueState([], None)]), i, items) == AfterRejection(s, i, items)
    {
      var empty := QueueState([], None);
      assert s.queues[i := empty][i := empty] == s.queues[i := empty];
    }

    ghost method CountRejection(i: nat, items: seq<Item>)
      requires i < |queues| && queues[i].State() == QueueState([], None)
      modifies this`departures
      ensures View() == AfterRejection(old(View()), i, items)
    {
      departures := departures + [Departure(i, items, None)];
      assert StatesOf(queues) == StatesOf(queues)[i := QueueState([], None)];
    }

    /** The objects are in the state, and the call has the result, that the step says. */
    ghost predicate Matches(r: Result<FlushResult, Error>, step: Step, nodes: set<Node>)
      reads this, queues, nodes
    {
      && View() == step.state
      && Snapshot(nodes) == step.store
      && (r.Ok? ==> step.error.None? && step.results == [r.value])
      && (r.Err? ==> step.error == Some(r.error))
    }

    /** The counters move after the queue was emptied. */
    method CountFlush(result: FlushResult)
      requires result.queueId < |queues| && queues[result.queueId].State() == QueueState([], None)
      modifies this`flushCount, this`timeoutCount, this`capacityCount, this`drainCount, this`reserveConsumed,
        this`departures
      ensures View() == AfterSuccess(old(View()), result.queueId, result)
    {
      flushCount := flushCount + 1;
      timeoutCount := timeoutCount + CountIf(result.reason == Timeout);
      capacityCount := capacityCount + CountIf(result.reason == Capacity);
      drainCount := drainCount + CountIf(result.reason == FinalDrain);
      reserveConsumed := reserveConsumed + result.summary.transferred;
      departures := departures + [Departure(result.queueId, result.items, Some(result))];
      assert StatesOf(queues) == StatesOf(queues)[result.queueId := QueueState([], None)];
    }

    /** The whole call does what was done so far followed by the rest. */
    static ghost predicate Continues(whole: Step, done: seq<FlushResult>, rest: Step) {
      && whole.state == rest.state && whole.store == rest.store && whole.error == rest.error
      && (whole.error.None? ==> whole.results == done + rest.results)
    }

    static lemma SkipOne(p: Params, s: ManagerState, i: nat, mode: Mode, now: real, store: Store)
      requires i < |s.queues| && Covers(store, s.queues) && ReasonFor(mode, s.queues[i], p, now).None?
      ensures FlushFrom(p, s, i, mode, now, store) == FlushFrom(p, s, i + 1, mode, now, store)
    {
    }

    static lemma TakeOne(p: Params, s: ManagerState, i: nat, mode: Mode, now: real, store: Store, whole: Step,
                         done: seq<FlushResult>)
      requires i < |s.queues| && Covers(store, s.queues) && ReasonFor(mode, s.queues[i], p, now).Some?
      requires Continues(whole, done, FlushFrom(p, s, i, mode, now, store))
      ensures var one := FlushOne(p, s, i, ReasonFor(mode, s.queues[i], p, now).value, now, store);
        if one.error.Some? then Continues(whole, done, one)
        else Continues(whole, done + one.results, FlushFrom(p, one.state, i + 1, mode, now, one.store))
    {
      hide FlushOne;
    }

    /** One turn of the flush loops. */
    method FlushTurn(i: nat, mode: Mode, reason: FlushReason, now: real, ghost nodes: set<Node>,
                     ghost whole: Step, done: seq<FlushResult>)
      returns (r: Result<seq<FlushResult>, Error>)
      requires Valid() && i < |queues| && Covers(Snapshot(nodes), View().queues)
      requires ReasonFor(mode, queues[i].State(), p, now) == Some(reason)
      requires Continues(whole, done, FlushFrom(p, View(), i, mode, now, Snapshot(nodes)))
      modifies this, queues[i], ItemNodes(queues[i].items)
      ensures Valid() && queues == old(queues) && Covers(Snapshot(nodes), View().queues)
      ensures r.Ok? ==> Continues(whole, r.value, FlushFrom(p, View(), i + 1, mode, now, Snapshot(nodes)))
      ensures r.Err? ==> whole.error == Some(r.error) && View() == whole.state && Snapshot(nodes) == whole.store
    {
      hide FlushOne;
      hide FlushFrom;
      QueuedCovered(nodes);
      TakeOne(p, View(), i, mode, now, Snapshot(nodes), whole, done);
      var one := FlushQueue(i, reason, now, nodes);
      if one.Err? {
        return Err(one.error);
      }
      r := Ok(done + [one.value]);
    }

    lemma ItemsCovered(i: nat, nodes: set<Node>)
      requires i < |queues| && Covers(Snapshot(nodes), View().queues)
      ensures ItemNodes(queues[i].items) <= nodes
    {
      forall n | n in ItemNodes(queues[i].items) ensures n in nodes {
        var k :| 0 <= k < |queues[i].items| && NodesOf(queues[i].items)[k] == n;
        assert View().queues[i].items[k].node in Snapshot(nodes);
      }
    }

    /** One turn of flush_ready: the queue is flushed if there is a reason to. */
    method ReadyTurn(i: nat, now: real, ghost nodes: set<Node>, ghost whole: Step, done: seq<FlushResult>)
      returns (r: Result<seq<FlushResult>, Error>)
      requires Valid() && i < |queues| && Covers(Snapshot(nodes), View().queues)
      requires Continues(whole, done, FlushFrom(p, View(), i, Ready, now, Snapshot(nodes)))
      modifies this, queues[i], ItemNodes(queues[i].items)
      ensures Valid() && queues == old(queues) && Covers(Snapshot(nodes), View().queues)
      ensures r.Ok? ==> Continues(whole, r.value, FlushFrom(p, View(), i + 1, Ready, now, Snapshot(nodes)))
      ensures r.Err? ==> whole.error == Some(r.error) && View() == whole.state && Snapshot(nodes) == whole.store
    {
      hide FlushFrom;
      hide Continues;
      hide Covers;
      hide ReadyReason;
      var reason := queues[i].FlushReason(p.timeout, now);
      if reason.Some? {
        r := FlushTurn(i, Ready, reason.value, now, nodes, whole, done);
      } else {
        SkipOne(p, View(), i, Ready, now, Snapshot(nodes));
        r := Ok(done);
      }
    }

    method FlushReady(now: real) returns (r: Result<seq<FlushResult>, Error>)
      requires Valid()
      modifies this, queues, QueuedNodes()
      ensures Valid() && queues == old(queues)
      ensures Covers(old(Snapshot(QueuedNodes())), old(View()).queues)
      ensures var step := FlushFrom(p, old(View()), 0, Ready, now, old(Snapshot(QueuedNodes())));
        && View() == step.state && Snapshot(old(QueuedNodes())) == step.store
        && (r.Ok? ==> step.error.None? && r.value == step.results)
        && (r.Err? ==> step.error == Some(r.error))
    {
      hide FlushFrom;
      hide FlushOne;
      hide ReadyReason;
      hide Continues;
      hide Covers;
      ghost var nodes := QueuedNodes();
      CoversQueued(nodes);
      ghost var whole := FlushFrom(p, View(), 0, Ready, now, Snapshot(nodes));
      var results: seq<FlushResult> := [];
      Starting(whole);
      for i := 0 to |queues|
        invariant Valid() && queues == old(queues) && Covers(Snapshot(nodes), View().queues)
        invariant Continues(whole, results, FlushFrom(p, View(), i, Ready, now, Snapshot(nodes)))
      {
        ItemsCovered(i, nodes);
        r := ReadyTurn(i, now, nodes, whole, results);
        if r.Err? {
          return;
        }
        results := r.value;
      }
      LastOne(p, View(), Ready, now, Snapshot(nodes), whole, results);
      r := Ok(results);
    }

    static lemma Starting(whole: Step)
      ensures Continues(whole, [], whole)
    {
    }

    static lemma {:induction false} LastOne(p: Params, s: ManagerState, mode: Mode, now: real, store: Store,
                                            whole: Step, done: seq<FlushResult>)
      requires Covers(store, s.queues)
      requires Continues(whole, done, FlushFrom(p, s, |s.queues|, mode, now, store))
      ensures whole == Step(s, store, done, None)
    {
    }

    method Drain(now: real) returns (r: Result<seq<FlushResult>, Error>)
      requires Valid()
      modifies this, queues, QueuedNodes()
      ensures Valid() && queues == old(queues)
      ensures Covers(old(Snapshot(QueuedNodes())), old(View()).queues)
      ensures var step := FlushFrom(p, old(View()), 0, Final, now, old(Snapshot(QueuedNodes())));
        && View() == step.state && Snapshot(old(QueuedNodes())) == step.store
        && (r.Ok? ==> step.error.None? && r.value == step.results)
        && (r.Err? ==> step.error == Some(r.error))
    {
      hide FlushFrom;
      hide FlushOne;
      hide Continues;
      hide Covers;
      ghost var nodes := QueuedNodes();
      CoversQueued(nodes);
      ghost var whole := FlushFrom(p, View(), 0, Final, now, Snapshot(nodes));
      var results: seq<FlushResult> := [];
      Starting(whole);
      for i := 0 to |queues|
        invariant Valid() && queues == old(queues) && Covers(Snapshot(nodes), View().queues)
        invariant Continues(whole, results, FlushFrom(p, View(), i, Final, now, Snapshot(nodes)))
      {
        if queues[i].items != [] {
          ItemsCovered(i, nodes);
          r := FlushTurn(i, Final, FinalDrain, now, nodes, whole, results);
          if r.Err? {
            return;
          }
          results := r.value;
        } else {
          SkipOne(p, View(), i, Final, now, Snapshot(nodes));
        }
      }
      LastOne(p, View(), Final, now, Snapshot(nodes), whole, results);
      r := Ok(results);
    }

    lemma LocalIsSnapshot(items: seq<Item>, nodes: set<Node>)
      requires forall k :: 0 <= k < |items| ==> items[k].node in nodes
      ensures Snapshot(ItemNodes(items)) == Local(items, Snapshot(nodes))
    {
      var store := Snapshot(nodes);
      forall n ensures n in Snapshot(ItemNodes(items)) <==> n in Local(items, store) {
        if n in ItemNodes(items) {
          var k :| 0 <= k < |items| && NodesOf(items)[k] == n;
          assert items[k].node == n;
        }
      }
    }
  }
}
