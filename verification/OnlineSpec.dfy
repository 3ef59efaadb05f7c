/** The online queue manager as a state machine on values: what each call makes of the
    queues, the counters and the node dictionaries. */
module OnlineSpec {
  import opened Prelude
  import opened Schema
  import opened AllocatorSpec

  datatype Item = Item(node: Node, defaultK: int, depth: int, weightKey: Option<string>, snapshot: Option<string>)

  datatype QueueState = QueueState(items: seq<Item>, first: Option<real>)

  /** The manager's settings, as its constructor clamps them. */
  datatype Params = Params(queueCount: nat, capacity: nat, timeout: real, nMin: nat, snapshot: string, strict: bool)

  function MakeParams(queueCount: int, capacity: int, timeout: real, nMin: int, snapshot: string,
                      strict: bool): (p: Params)
    ensures ValidParams(p)
  {
    Params(Max(queueCount, 1), Max(capacity, 1), MaxReal(timeout, 0.0), Max(nMin, 0), snapshot, strict)
  }

  predicate ValidParams(p: Params) {
    p.queueCount >= 1 && p.capacity >= 1 && p.timeout >= 0.0
  }

  /** item.policy_snapshot_id or self.policy_snapshot_id */
  function EffectiveSnapshot(item: Item, snapshot: string): string {
    if Truthy(item.snapshot) then item.snapshot.value else snapshot
  }

  function Append(q: QueueState, item: Item, now: real): QueueState {
    QueueState(q.items + [item], if q.items == [] then Some(now) else q.first)
  }

  function ReadyReason(q: QueueState, p: Params, now: real): Option<FlushReason> {
    if q.items == [] then None
    else if |q.items| >= p.capacity then Some(Capacity)
    else if p.timeout > 0.0 && q.first.Some? && now - q.first.value >= p.timeout then Some(Timeout)
    else None
  }

  datatype Mode = Ready | Final

  /** Why queue q is flushed by flush_ready or by drain, if it is. */
  function ReasonFor(mode: Mode, q: QueueState, p: Params, now: real): Option<FlushReason> {
    match mode
    case Ready => ReadyReason(q, p, now)
    case Final => if q.items == [] then None else Some(FinalDrain)
  }

  /** The waiting time; a first arrival at time zero is taken for no arrival, because the
      original writes `first_enqueued_at or current`. */
  function WaitOf(q: QueueState, now: real): real {
    var first := if q.first.Some? && q.first.value != 0.0 then q.first.value else now;
    MaxReal(now - first, 0.0)
  }

  /** The waiting time is what has passed since the first arrival, exactly unless that was at
      time zero and some time has passed. */
  lemma WaitKeptIff(q: QueueState, now: real)
    requires q.first.Some?
    ensures WaitOf(q, now) == MaxReal(now - q.first.value, 0.0) <==> q.first.value != 0.0 || now <= 0.0
  {
  }

  const OVERRIDE := "gear_allocation_weight_override"

  function NodesOf(items: seq<Item>): seq<Node> {
    seq(|items|, i requires 0 <= i < |items| => items[i].node)
  }

  function BaseBudget(items: seq<Item>, nMin: int): int {
    if items == [] then 0
    else BaseBudget(items[..|items| - 1], nMin) + Max(items[|items| - 1].defaultK, nMin)
  }

  function FlushConfig(items: seq<Item>, p: Params): Config {
    var overridden := exists i :: 0 <= i < |items| && items[i].weightKey == Some(OVERRIDE);
    DefaultConfig(BaseBudget(items, p.nMin), p.nMin, p.strict)
      .(weightKey := if overridden then Some(OVERRIDE) else None)
  }

  /** The defaults and predictions written onto a node before the allocation. */
  function Prepared(f: Fields, item: Item): Fields {
    f.(vdraDefaultK := Some(item.defaultK),
       vdraPredictedK := if f.vdraPredictedK.Some? then f.vdraPredictedK
         else Some(ValueOr(f.gearPredictedK, item.defaultK)))
  }

  function Prepare(items: seq<Item>, n: nat, store: Store): (after: Store)
    requires n <= |items| && forall i :: 0 <= i < |items| ==> items[i].node in store
    ensures after.Keys == store.Keys
  {
    if n == 0 then store
    else
      var before := Prepare(items, n - 1, store);
      var item := items[n - 1];
      before[item.node := Prepared(before[item.node], item)]
  }

  /** The arguments of the manager's own accounting write, which follows the allocator's. */
  function FlushArgs(f: Fields, item: Item, key: string, s: Summary, nMin: int): WriteArgs {
    WriteArgs(
      Some(item.defaultK),
      Some(ValueOr(f.vdraPredictedK, 0)),
      Some(ValueOr(FirstSome([f.vdraDispersionC, f.gearRewardVariance]), 0.0)),
      if key in s.allocations then Some(s.allocations[key]) else None,
      nMin,
      if key in s.lower then Some(s.lower[key]) else None,
      if key in s.upper then Some(s.upper[key]) else None)
  }

  function TraceOf(key: string, s: Summary, wait: real, reason: FlushReason): FlushTrace {
    FlushTrace(
      s.requested, s.granted,
      if key in s.pruned then s.pruned[key] else 0,
      if key in s.expanded then s.expanded[key] else 0,
      s.transferred, s.objectiveBefore, s.objectiveAfter, s.repairs, wait, reason)
  }

  /** One node after the manager's write. */
  function Recorded(f: Fields, item: Item, key: string, s: Summary, nMin: int, wait: real,
                    reason: FlushReason): Fields {
    WriteAccounting(f, FlushArgs(f, item, key, s, nMin)).(flush := Some(TraceOf(key, s, wait, reason)))
  }

  function Record(items: seq<Item>, n: nat, s: Summary, nMin: int, wait: real, reason: FlushReason,
                  store: Store): (after: Store)
    requires n <= |items| && forall i :: 0 <= i < |items| ==> items[i].node in store
    ensures after.Keys == store.Keys
  {
    if n == 0 then store
    else
      var before := Record(items, n - 1, s, nMin, wait, reason, store);
      var item := items[n - 1];
      var f := before[item.node];
      before[item.node := Recorded(f, item, NodeId(f, n - 1), s, nMin, wait, reason)]
  }

  datatype FlushResult = FlushResult(queueId: nat, items: seq<Item>, summary: Summary, reason: FlushReason,
    wait: real, baseBudget: int)

  /** What one flush makes of the dictionaries of its items. */
  ghost function FlushItems(items: seq<Item>, p: Params, wait: real, reason: FlushReason,
                            store: Store): (r: (Store, Result<Summary, Error>))
    requires forall i :: 0 <= i < |items| ==> items[i].node in store
    ensures r.0.Keys == store.Keys
  {
    var nodes, cfg := NodesOf(items), FlushConfig(items, p);
    var prepared := Prepare(items, |items|, store);
    assert forall n :: n in nodes ==> exists i :: 0 <= i < |items| && items[i].node == n;
    var outcome := Allocate(Contents(nodes, prepared), cfg);
    var allocated' := AllocateStore(nodes, cfg, prepared);
    if outcome.Err? then (allocated', outcome)
    else (Record(items, |items|, outcome.value, p.nMin, wait, reason, allocated'), outcome)
  }

  /** One flush: the items leave their queue before the allocation, and are lost to it if the
      allocation is rejected. */
  datatype Departure = Departure(queueId: nat, items: seq<Item>, result: Option<FlushResult>)

  datatype Arrival = Arrival(queueId: nat, item: Item)

  datatype ManagerState = ManagerState(
    queues: seq<QueueState>,
    flushCount: nat, timeoutCount: nat, capacityCount: nat, drainCount: nat,
    reserveConsumed: int,
    arrivals: seq<Arrival>, departures: seq<Departure>)

  function Initial(p: Params): ManagerState {
    ManagerState(seq(p.queueCount, _ => QueueState([], None)), 0, 0, 0, 0, 0, [], [])
  }

  function ItemsOf(queues: seq<QueueState>): (items: seq<seq<Item>>)
    ensures |items| == |queues|
    ensures forall j :: 0 <= j < |queues| ==> items[j] == queues[j].items
  {
    seq(|queues|, j requires 0 <= j < |queues| => queues[j].items)
  }

  function Shortest(queues: seq<QueueState>): (i: nat)
    requires queues != []
    ensures i < |queues|
    ensures forall j :: 0 <= j < |queues| ==> |queues[i].items| <= |queues[j].items|
    ensures forall j :: 0 <= j < i ==> |queues[i].items| < |queues[j].items|
  {
    LeastLoaded(ItemsOf(queues))
  }

  /** enqueue; a foreign snapshot is rejected before anything changes. */
  function EnqueueStep(p: Params, s: ManagerState, item: Item, now: real): ManagerState
    requires s.queues != []
  {
    if EffectiveSnapshot(item, p.snapshot) != p.snapshot then s
    else
      var i := Shortest(s.queues);
      s.(queues := s.queues[i := Append(s.queues[i], item, now)],
         arrivals := s.arrivals + [Arrival(i, item)])
  }

  function CountIf(b: bool): nat {
    if b then 1 else 0
  }

  /** The dictionaries of these items, out of a larger store. */
  ghost function Local(items: seq<Item>, store: Store): (local: Store)
    requires forall i :: 0 <= i < |items| ==> items[i].node in store
    ensures forall i :: 0 <= i < |items| ==> items[i].node in local
  {
    map n | n in store && (exists i :: 0 <= i < |items| && items[i].node == n) :: store[n]
  }

  ghost predicate Covers(store: Store, queues: seq<QueueState>) {
    forall q, i :: 0 <= q < |queues| && 0 <= i < |queues[q].items| ==> queues[q].items[i].node in store
  }

  datatype Step = Step(state: ManagerState, store: Store, results: seq<FlushResult>, error: Option<Error>)

  /** The state after queue i was popped for a rejected flush. */
  function AfterRejection(s: ManagerState, i: nat, items: seq<Item>): ManagerState
    requires i < |s.queues|
  {
    s.(queues := s.queues[i := QueueState([], None)],
       departures := s.departures + [Departure(i, items, None)])
  }

  /** The state after queue i was popped and allocated. */
  function AfterSuccess(s: ManagerState, i: nat, result: FlushResult): ManagerState
    requires i < |s.queues|
  {
    s.(queues := s.queues[i := QueueState([], None)],
       departures := s.departures + [Departure(i, result.items, Some(result))],
       flushCount := s.flushCount + 1,
       timeoutCount := s.timeoutCount + CountIf(result.reason == Timeout),
       capacityCount := s.capacityCount + CountIf(result.reason == Capacity),
       drainCount := s.drainCount + CountIf(result.reason == FinalDrain),
       reserveConsumed := s.reserveConsumed + result.summary.transferred)
  }

  /** _flush_queue on queue i, for the given reason. */
  ghost function FlushOne(p: Params, s: ManagerState, i: nat, reason: FlushReason, now: real, store: Store): (r: Step)
    requires i < |s.queues| && Covers(store, s.queues)
    ensures r.store.Keys == store.Keys && |r.state.queues| == |s.queues|
    ensures Covers(r.store, r.state.queues)
  {
    hide FlushItems;
    var q := s.queues[i];
    var wait := WaitOf(q, now);
    var (local, outcome) := FlushItems(q.items, p, wait, reason, Local(q.items, store));
    if outcome.Err? then
      Step(AfterRejection(s, i, q.items), store + local, [], Some(outcome.error))
    else
      var result := FlushResult(i, q.items, outcome.value, reason, wait, BaseBudget(q.items, p.nMin));
      Step(AfterSuccess(s, i, result), store + local, [result], None)
  }

  lemma FlushOneCases(p: Params, s: ManagerState, i: nat, reason: FlushReason, now: real, store: Store)
    requires i < |s.queues| && Covers(store, s.queues)
    ensures var items := s.queues[i].items;
      var wait := WaitOf(s.queues[i], now);
      var f := FlushItems(items, p, wait, reason, Local(items, store));
      var step := FlushOne(p, s, i, reason, now, store);
      && step.store == store + f.0
      && (f.1.Err? ==> step.state == AfterRejection(s, i, items) && step.error == Some(f.1.error))
      && (f.1.Ok? ==>
            var result := FlushResult(i, items, f.1.value, reason, wait, BaseBudget(items, p.nMin));
            step.state == AfterSuccess(s, i, result) && step.results == [result] && step.error.None?)
  {
  }

  /** flush_ready or drain from queue i on; a rejected flush ends the call. */
  ghost function FlushFrom(p: Params, s: ManagerState, i: nat, mode: Mode, now: real, store: Store): (r: Step)
    requires i <= |s.queues| && Covers(store, s.queues)
    ensures r.store.Keys == store.Keys && |r.state.queues| == |s.queues|
    ensures Covers(r.store, r.state.queues)
    decreases |s.queues| - i
  {
    if i == |s.queues| then Step(s, store, [], None)
    else
      var reason := ReasonFor(mode, s.queues[i], p, now);
      if reason.None? then FlushFrom(p, s, i + 1, mode, now, store)
      else
        var one := FlushOne(p, s, i, reason.value, now, store);
        if one.error.Some? then one
        else
          var rest := FlushFrom(p, one.state, i + 1, mode, now, one.store);
          rest.(results := one.results + rest.results)
  }
}
