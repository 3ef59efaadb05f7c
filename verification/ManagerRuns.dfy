/** What holds over every run of the queue manager, whatever is enqueued, whenever it is
    flushed, and whether or not the allocator accepts a flush. */
module ManagerRuns {
  import opened Prelude
  import opened Schema
  import opened AllocatorSpec
  import opened OnlineSpec

  /** One call to the manager. A flush sees the node dictionaries as they are at the time. */
  datatype Event =
    | Enqueue(item: Item, now: real)
    | FlushReady(now: real, store: Store)
    | Drain(now: real, store: Store)

  /** A flush finds the dictionary of every queued node. */
  ghost predicate Possible(s: ManagerState, e: Event) {
    match e
    case Enqueue(_, _) => true
    case FlushReady(_, store) => Covers(store, s.queues)
    case Drain(_, store) => Covers(store, s.queues)
  }

  ghost function After(p: Params, s: ManagerState, e: Event): (r: ManagerState)
    requires Possible(s, e) && s.queues != []
    ensures |r.queues| == |s.queues|
  {
    match e
    case Enqueue(item, now) => EnqueueStep(p, s, item, now)
    case FlushReady(now, store) => FlushFrom(p, s, 0, Ready, now, store).state
    case Drain(now, store) => FlushFrom(p, s, 0, Final, now, store).state
  }

  /** The state after the calls in events. A flush whose store lacks a queued node is not a
      call the manager can receive, and is skipped. */
  ghost function Run(p: Params, events: seq<Event>): (s: ManagerState)
    requires ValidParams(p)
    ensures s.queues != []
  {
    if events == [] then Initial(p)
    else
      var n := |events| - 1;
      var s := Run(p, events[..n]);
      if Possible(s, events[n]) then After(p, s, events[n]) else s
  }

  /** The items that were accepted into queue i, in order. */
  function Arrived(arrivals: seq<Arrival>, i: nat): seq<Item> {
    if arrivals == [] then []
    else
      var n := |arrivals| - 1;
      Arrived(arrivals[..n], i) + if arrivals[n].queueId == i then [arrivals[n].item] else []
  }

  /** The items that left queue i, flush after flush. */
  function Departed(departures: seq<Departure>, i: nat): seq<Item> {
    if departures == [] then []
    else
      var n := |departures| - 1;
      Departed(departures[..n], i) + if departures[n].queueId == i then departures[n].items else []
  }

  function AllArrived(arrivals: seq<Arrival>): multiset<Item> {
    if arrivals == [] then multiset{}
    else AllArrived(arrivals[..|arrivals| - 1]) + multiset{arrivals[|arrivals| - 1].item}
  }

  function AllQueued(queues: seq<QueueState>): multiset<Item> {
    if queues == [] then multiset{}
    else AllQueued(queues[..|queues| - 1]) + multiset(queues[|queues| - 1].items)
  }

  function AllDeparted(departures: seq<Departure>): multiset<Item> {
    if departures == [] then multiset{}
    else AllDeparted(departures[..|departures| - 1]) + multiset(departures[|departures| - 1].items)
  }

  /** How many flushes succeeded, for a given reason or in all, and what they transferred. */
  function Flushes(departures: seq<Departure>): nat {
    if departures == [] then 0
    else Flushes(departures[..|departures| - 1]) + CountIf(departures[|departures| - 1].result.Some?)
  }

  function FlushesFor(departures: seq<Departure>, reason: FlushReason): nat {
    if departures == [] then 0
    else
      var d := departures[|departures| - 1];
      FlushesFor(departures[..|departures| - 1], reason) + CountIf(d.result.Some? && d.result.value.reason == reason)
  }

  function Transferred(departures: seq<Departure>): int {
    if departures == [] then 0
    else
      var d := departures[|departures| - 1];
      Transferred(departures[..|departures| - 1]) + if d.result.Some? then d.result.value.summary.transferred else 0
  }

  /** A successful flush reports the items it took, under its own queue. */
  predicate Faithful(d: Departure) {
    d.items != [] && (d.result.Some? ==> d.result.value.items == d.items && d.result.value.queueId == d.queueId)
  }

  /** First in, first out, per queue: what arrived is what departed followed by what waits. */
  ghost predicate Fifo(s: ManagerState) {
    && (forall i :: 0 <= i < |s.queues| ==> Arrived(s.arrivals, i) == Departed(s.departures, i) + s.queues[i].items)
    && (forall d :: d in s.departures ==> Faithful(d))
  }

  ghost predicate Conserved(s: ManagerState) {
    AllArrived(s.arrivals) == AllQueued(s.queues) + AllDeparted(s.departures)
  }

  ghost predicate Counted(s: ManagerState) {
    && s.flushCount == Flushes(s.departures) == s.timeoutCount + s.capacityCount + s.drainCount
    && s.timeoutCount == FlushesFor(s.departures, Timeout)
    && s.capacityCount == FlushesFor(s.departures, Capacity)
    && s.drainCount == FlushesFor(s.departures, FinalDrain)
    && s.reserveConsumed == Transferred(s.departures)
  }

  ghost predicate OneSnapshot(p: Params, q: QueueState) {
    && (q.first.None? <==> q.items == [])
    && forall item :: item in q.items ==> EffectiveSnapshot(item, p.snapshot) == p.snapshot
  }

  ghost predicate Tidy(p: Params, s: ManagerState) {
    |s.queues| == p.queueCount && forall i :: 0 <= i < |s.queues| ==> OneSnapshot(p, s.queues[i])
  }

  ghost predicate Invariant(p: Params, s: ManagerState) {
    Fifo(s) && Conserved(s) && Counted(s) && Tidy(p, s)
  }

  lemma {:induction false} QueuedAfterUpdate(queues: seq<QueueState>, i: nat, q: QueueState)
    requires i < |queues|
    ensures AllQueued(queues[i := q]) + multiset(queues[i].items) == AllQueued(queues) + multiset(q.items)
  {
    var n := |queues| - 1;
    if i == n {
      assert queues[i := q][..n] == queues[..n];
    } else {
      assert queues[i := q][..n] == queues[..n][i := q];
      assert queues[..n][i] == queues[i] && queues[i := q][n] == queues[n];
      QueuedAfterUpdate(queues[..n], i, q);
      Carry(AllQueued(queues[..n][i := q]), multiset(queues[i].items), AllQueued(queues[..n]), multiset(q.items),
            multiset(queues[n].items));
    }
  }

  lemma Carry<T>(a: multiset<T>, b: multiset<T>, c: multiset<T>, d: multiset<T>, last: multiset<T>)
    requires a + b == c + d
    ensures a + last + b == c + last + d
  {
    assert a + last + b == (a + b) + last;
    assert c + last + d == (c + d) + last;
  }

  lemma Cancel<T>(a: multiset<T>, b: multiset<T>, c: multiset<T>, d: multiset<T>)
    requires a + b == c + (b + d)
    ensures a == c + d
  {
    forall x ensures a[x] == (c + d)[x] {
      assert (a + b)[x] == (c + (b + d))[x];
    }
  }

  lemma {:induction false} ArrivedOneMore(arrivals: seq<Arrival>, a: Arrival, i: nat)
    ensures Arrived(arrivals + [a], i) == Arrived(arrivals, i) + if a.queueId == i then [a.item] else []
    ensures AllArrived(arrivals + [a]) == AllArrived(arrivals) + multiset{a.item}
  {
    assert (arrivals + [a])[..|arrivals|] == arrivals;
  }

  lemma {:induction false} DepartedOneMore(departures: seq<Departure>, d: Departure, i: nat)
    ensures Departed(departures + [d], i) == Departed(departures, i) + if d.queueId == i then d.items else []
    ensures AllDeparted(departures + [d]) == AllDeparted(departures) + multiset(d.items)
  {
    assert (departures + [d])[..|departures|] == departures;
  }

  lemma {:induction false} HistoryOneMore(departures: seq<Departure>, d: Departure)
    ensures var more := departures + [d];
      && Flushes(more) == Flushes(departures) + CountIf(d.result.Some?)
      && (forall reason ::
            FlushesFor(more, reason)
            == FlushesFor(departures, reason) + CountIf(d.result.Some? && d.result.value.reason == reason))
      && Transferred(more) == Transferred(departures) + if d.result.Some? then d.result.value.summary.transferred else 0
  {
    assert (departures + [d])[..|departures|] == departures;
  }

  lemma ArrivalKeepsFifo(s: ManagerState, t: ManagerState, i: nat, item: Item)
    requires Fifo(s) && i < |s.queues|
    requires t.departures == s.departures && t.arrivals == s.arrivals + [Arrival(i, item)]
    requires |t.queues| == |s.queues| && t.queues[i].items == s.queues[i].items + [item]
    requires forall j :: 0 <= j < |s.queues| && j != i ==> t.queues[j] == s.queues[j]
    ensures Fifo(t)
  {
    forall j | 0 <= j < |t.queues|
      ensures Arrived(t.arrivals, j) == Departed(t.departures, j) + t.queues[j].items
    {
      ArrivedOneMore(s.arrivals, Arrival(i, item), j);
      assert Arrived(s.arrivals, j) == Departed(s.departures, j) + s.queues[j].items;
    }
  }

  lemma ArrivalConserves(s: ManagerState, t: ManagerState, i: nat, item: Item, q: QueueState)
    requires Conserved(s) && i < |s.queues| && q.items == s.queues[i].items + [item]
    requires t.departures == s.departures && t.arrivals == s.arrivals + [Arrival(i, item)]
    requires t.queues == s.queues[i := q]
    ensures Conserved(t)
  {
    QueuedAfterUpdate(s.queues, i, q);
    assert multiset(q.items) == multiset(s.queues[i].items) + multiset{item};
    Cancel(AllQueued(t.queues), multiset(s.queues[i].items), AllQueued(s.queues), multiset{item});
    ArrivedOneMore(s.arrivals, Arrival(i, item), i);
  }

  lemma EnqueueKeeps(p: Params, s: ManagerState, item: Item, now: real)
    requires Invariant(p, s) && s.queues != []
    ensures Invariant(p, EnqueueStep(p, s, item, now))
  {
    hide Fifo;
    hide Conserved;
    if EffectiveSnapshot(item, p.snapshot) == p.snapshot {
      var i := Shortest(s.queues);
      var t := EnqueueStep(p, s, item, now);
      ArrivalKeepsFifo(s, t, i, item);
      ArrivalConserves(s, t, i, item, t.queues[i]);
    }
  }

  /** The state after one flush, apart from what the allocator decides. */
  lemma FlushOneShape(p: Params, s: ManagerState, i: nat, reason: FlushReason, now: real, store: Store)
    returns (d: Departure)
    requires i < |s.queues| && Covers(store, s.queues) && s.queues[i].items != []
    ensures var t := FlushOne(p, s, i, reason, now, store).state;
      && d.queueId == i && d.items == s.queues[i].items && Faithful(d)
      && (d.result.Some? ==> d.result.value.reason == reason)
      && t == s.(
        queues := s.queues[i := QueueState([], None)],
        departures := s.departures + [d],
        flushCount := s.flushCount + CountIf(d.result.Some?),
        timeoutCount := s.timeoutCount + CountIf(d.result.Some? && reason == Timeout),
        capacityCount := s.capacityCount + CountIf(d.result.Some? && reason == Capacity),
        drainCount := s.drainCount + CountIf(d.result.Some? && reason == FinalDrain),
        reserveConsumed := s.reserveConsumed + if d.result.Some? then d.result.value.summary.transferred else 0)
    ensures d.result.Some? <==> FlushOne(p, s, i, reason, now, store).error.None?
  {
    hide FlushItems;
    d := FlushOne(p, s, i, reason, now, store).state.departures[|s.departures|];
  }

  lemma DepartureKeepsFifo(s: ManagerState, t: ManagerState, i: nat, d: Departure)
    requires Fifo(s) && i < |s.queues|
    requires d.queueId == i && d.items == s.queues[i].items && Faithful(d)
    requires t.arrivals == s.arrivals && t.departures == s.departures + [d]
    requires t.queues == s.queues[i := QueueState([], None)]
    ensures Fifo(t)
  {
    forall j | 0 <= j < |t.queues|
      ensures Arrived(t.arrivals, j) == Departed(t.departures, j) + t.queues[j].items
    {
      DepartedOneMore(s.departures, d, j);
      assert Arrived(s.arrivals, j) == Departed(s.departures, j) + s.queues[j].items;
    }
  }

  lemma DepartureConserves(s: ManagerState, t: ManagerState, i: nat, d: Departure)
    requires Conserved(s) && i < |s.queues| && d.items == s.queues[i].items
    requires t.arrivals == s.arrivals && t.departures == s.departures + [d]
    requires t.queues == s.queues[i := QueueState([], None)]
    ensures Conserved(t)
  {
    QueuedAfterUpdate(s.queues, i, QueueState([], None));
    DepartedOneMore(s.departures, d, i);
    assert AllQueued(s.queues) == AllQueued(t.queues) + multiset(d.items);
  }

  /** A flush moves the contents of one queue, in order, into the departures. */
  lemma FlushOneKeeps(p: Params, s: ManagerState, i: nat, reason: FlushReason, now: real, store: Store)
    requires Invariant(p, s) && i < |s.queues| && Covers(store, s.queues) && s.queues[i].items != []
    ensures Invariant(p, FlushOne(p, s, i, reason, now, store).state)
  {
    hide FlushOne;
    hide Fifo;
    hide Conserved;
    var d := FlushOneShape(p, s, i, reason, now, store);
    HistoryOneMore(s.departures, d);
    DepartureKeepsFifo(s, FlushOne(p, s, i, reason, now, store).state, i, d);
    DepartureConserves(s, FlushOne(p, s, i, reason, now, store).state, i, d);
  }

  lemma {:induction false} FlushFromKeeps(p: Params, s: ManagerState, i: nat, mode: Mode, now: real, store: Store)
    requires Invariant(p, s) && i <= |s.queues| && Covers(store, s.queues)
    ensures Invariant(p, FlushFrom(p, s, i, mode, now, store).state)
    decreases |s.queues| - i
  {
    hide Invariant;
    hide FlushOne;
    if i < |s.queues| {
      var reason := ReasonFor(mode, s.queues[i], p, now);
      if reason.None? {
        FlushFromKeeps(p, s, i + 1, mode, now, store);
      } else {
        FlushOneKeeps(p, s, i, reason.value, now, store);
        var one := FlushOne(p, s, i, reason.value, now, store);
        if one.error.None? {
          FlushFromKeeps(p, one.state, i + 1, mode, now, one.store);
        }
      }
    }
  }

  lemma InitialHolds(p: Params)
    ensures Invariant(p, Initial(p))
  {
    EmptyQueues(Initial(p).queues);
  }

  lemma {:induction false} EmptyQueues(queues: seq<QueueState>)
    requires forall q :: q in queues ==> q.items == []
    ensures AllQueued(queues) == multiset{}
  {
    if queues != [] {
      EmptyQueues(queues[..|queues| - 1]);
    }
  }

  /** Over every run: first in first out in each queue, every accepted item queued or
      departed, the counters equal to the history, one snapshot, and a recorded first
      arrival exactly in the non-empty queues. */
  lemma {:induction false} RunKeepsInvariant(p: Params, events: seq<Event>)
    requires ValidParams(p)
    ensures Invariant(p, Run(p, events))
  {
    hide Invariant;
    if events == [] {
      InitialHolds(p);
    } else {
      var n := |events| - 1;
      RunKeepsInvariant(p, events[..n]);
      var s := Run(p, events[..n]);
      if Possible(s, events[n]) {
        match events[n]
        case Enqueue(item, now) => EnqueueKeeps(p, s, item, now);
        case FlushReady(now, store) => FlushFromKeeps(p, s, 0, Ready, now, store);
        case Drain(now, store) => FlushFromKeeps(p, s, 0, Final, now, store);
      }
    }
  }

  /** What a call returns is what it added to the history: the results of its successful
      flushes, in the order in which the queues were visited. */
  function Successes(departures: seq<Departure>): seq<FlushResult> {
    if departures == [] then []
    else
      var n := |departures| - 1;
      Successes(departures[..n]) + if departures[n].result.Some? then [departures[n].result.value] else []
  }

  lemma {:induction false} SuccessesAppend(a: seq<Departure>, b: seq<Departure>)
    ensures Successes(a + b) == Successes(a) + Successes(b)
  {
    if b == [] {
      assert a + b == a;
    } else {
      var n := |b| - 1;
      assert (a + b)[..|a| + n] == a + b[..n];
      SuccessesAppend(a, b[..n]);
    }
  }

  lemma {:induction false} CallReturnsItsFlushes(p: Params, s: ManagerState, i: nat, mode: Mode, now: real,
                                                 store: Store)
    returns (added: seq<Departure>)
    requires i <= |s.queues| && Covers(store, s.queues)
    ensures var r := FlushFrom(p, s, i, mode, now, store);
      && r.state.departures == s.departures + added
      && (r.error.None? ==> r.results == Successes(added) && |added| == |r.results|)
      && (r.error.Some? ==> added != [] && added[|added| - 1].result.None?)
    decreases |s.queues| - i
  {
    hide FlushOne;
    added := [];
    if i < |s.queues| {
      var reason := ReasonFor(mode, s.queues[i], p, now);
      if reason.None? {
        added := CallReturnsItsFlushes(p, s, i + 1, mode, now, store);
      } else {
        var one := FlushOne(p, s, i, reason.value, now, store);
        var d := FlushOneShape(p, s, i, reason.value, now, store);
        added := [d];
        assert Successes([d]) == one.results by { OneFlushResult(p, s, i, reason.value, now, store, d); }
        if one.error.None? {
          var more := CallReturnsItsFlushes(p, one.state, i + 1, mode, now, one.store);
          SuccessesAppend([d], more);
          added := [d] + more;
        }
      }
    }
  }

  lemma OneFlushResult(p: Params, s: ManagerState, i: nat, reason: FlushReason, now: real, store: Store, d: Departure)
    requires i < |s.queues| && Covers(store, s.queues)
    requires FlushOne(p, s, i, reason, now, store).state.departures == s.departures + [d]
    ensures Successes([d]) == FlushOne(p, s, i, reason, now, store).results
  {
    hide FlushItems;
    assert [d][..0] == [];
    assert (s.departures + [d])[|s.departures|] == d;
  }

  /** A drain that no rejection interrupts leaves every queue empty. */
  lemma {:induction false} DrainEmpties(p: Params, s: ManagerState, i: nat, now: real, store: Store)
    requires i <= |s.queues| && Covers(store, s.queues)
    requires FlushFrom(p, s, i, Final, now, store).error.None?
    ensures forall j :: i <= j < |s.queues| ==> FlushFrom(p, s, i, Final, now, store).state.queues[j].items == []
    ensures forall j :: 0 <= j < i ==> FlushFrom(p, s, i, Final, now, store).state.queues[j] == s.queues[j]
    decreases |s.queues| - i
  {
    hide FlushOne;
    if i < |s.queues| {
      if s.queues[i].items == [] {
        DrainEmpties(p, s, i + 1, now, store);
      } else {
        var one := FlushOne(p, s, i, FinalDrain, now, store);
        var d := FlushOneShape(p, s, i, FinalDrain, now, store);
        DrainEmpties(p, one.state, i + 1, now, one.store);
      }
    }
  }

  /** The queue is empty, or it has room and no timeout has run out. */
  predicate AtRest(q: QueueState, p: Params, now: real) {
    q.items == [] ||
    (|q.items| < p.capacity && (p.timeout <= 0.0 || q.first.None? || now - q.first.value < p.timeout))
  }

  /** A flush of the ready queues that no rejection interrupts leaves every queue at rest. */
  lemma {:induction false} FlushReadyLeavesNoneReady(p: Params, s: ManagerState, i: nat, now: real, store: Store)
    requires i <= |s.queues| && Covers(store, s.queues)
    requires FlushFrom(p, s, i, Ready, now, store).error.None?
    ensures var r := FlushFrom(p, s, i, Ready, now, store).state;
      && (forall j :: i <= j < |s.queues| ==> AtRest(r.queues[j], p, now))
      && (forall j :: 0 <= j < i ==> r.queues[j] == s.queues[j])
    decreases |s.queues| - i
  {
    hide FlushOne;
    if i < |s.queues| {
      var reason := ReadyReason(s.queues[i], p, now);
      if reason.None? {
        FlushReadyLeavesNoneReady(p, s, i + 1, now, store);
      } else {
        var one := FlushOne(p, s, i, reason.value, now, store);
        var d := FlushOneShape(p, s, i, reason.value, now, store);
        FlushReadyLeavesNoneReady(p, one.state, i + 1, now, one.store);
      }
    }
  }

  /** Over every run: after an unrejected flush_ready every queue that still holds something has
      room, and its first item has not waited for the timeout. */
  lemma {:induction false} ReadyRunAtRest(p: Params, events: seq<Event>, i: nat)
    requires ValidParams(p) && events != [] && events[|events| - 1].FlushReady?
    requires var s, e := Run(p, events[..|events| - 1]), events[|events| - 1];
      Covers(e.store, s.queues) && FlushFrom(p, s, 0, Ready, e.now, e.store).error.None?
    requires i < |Run(p, events).queues| && Run(p, events).queues[i].items != []
    ensures var q, now := Run(p, events).queues[i], events[|events| - 1].now;
      && |q.items| < p.capacity && q.first.Some?
      && (p.timeout > 0.0 ==> now - q.first.value < p.timeout)
  {
    hide FlushFrom;
    hide Covers;
    var n := |events| - 1;
    RunKeepsInvariant(p, events);
    FlushReadyLeavesNoneReady(p, Run(p, events[..n]), 0, events[n].now, events[n].store);
  }

  /** No queue is over capacity and some queue has room. */
  ghost predicate Roomy(p: Params, queues: seq<QueueState>) {
    && WithinCapacity(p, queues)
    && exists i :: 0 <= i < |queues| && |queues[i].items| < p.capacity
  }

  ghost predicate WithinCapacity(p: Params, queues: seq<QueueState>) {
    forall i :: 0 <= i < |queues| ==> |queues[i].items| <= p.capacity
  }

  /** A flush from queue i on leaves some queue with room: a rejected flush has emptied its
      queue, and otherwise every full queue was flushed. */
  lemma {:induction false} FlushMakesRoom(p: Params, s: ManagerState, i: nat, mode: Mode, now: real, store: Store)
    requires ValidParams(p) && i <= |s.queues| && s.queues != [] && Covers(store, s.queues)
    requires WithinCapacity(p, s.queues) && forall j :: 0 <= j < i ==> |s.queues[j].items| < p.capacity
    ensures Roomy(p, FlushFrom(p, s, i, mode, now, store).state.queues)
    decreases |s.queues| - i
  {
    hide FlushOne;
    if i == |s.queues| {
      assert |s.queues[0].items| < p.capacity;
    } else {
      var reason := ReasonFor(mode, s.queues[i], p, now);
      if reason.None? {
        FlushMakesRoom(p, s, i + 1, mode, now, store);
      } else {
        var one := FlushOne(p, s, i, reason.value, now, store);
        var d := FlushOneShape(p, s, i, reason.value, now, store);
        assert one.state.queues == s.queues[i := QueueState([], None)];
        if one.error.None? {
          FlushMakesRoom(p, one.state, i + 1, mode, now, one.store);
        } else {
          assert |one.state.queues[i].items| < p.capacity;
        }
      }
    }
  }

  lemma EnqueueFits(p: Params, s: ManagerState, item: Item, now: real)
    requires s.queues != [] && Roomy(p, s.queues)
    ensures WithinCapacity(p, EnqueueStep(p, s, item, now).queues)
  {
    var i :| 0 <= i < |s.queues| && |s.queues[i].items| < p.capacity;
    assert |s.queues[Shortest(s.queues)].items| <= |s.queues[i].items|;
  }

  /** flush_ready is called right after each enqueue. */
  predicate Prompt(events: seq<Event>) {
    forall i :: 0 <= i < |events| - 1 ==> events[i].Enqueue? ==> events[i + 1].FlushReady?
  }

  /** Every event is a call that the manager can receive. */
  ghost predicate Uninterrupted(p: Params, events: seq<Event>)
    requires ValidParams(p)
  {
    events == [] || (
      var n := |events| - 1;
      Uninterrupted(p, events[..n]) && Possible(Run(p, events[..n]), events[n]))
  }

  /** In a prompt run no queue ever exceeds its capacity, even when flushes are rejected. */
  lemma {:induction false} PromptRunsFit(p: Params, events: seq<Event>)
    requires ValidParams(p) && Prompt(events) && Uninterrupted(p, events)
    ensures WithinCapacity(p, Run(p, events).queues)
    ensures events == [] || !events[|events| - 1].Enqueue? ==> Roomy(p, Run(p, events).queues)
  {
    hide FlushFrom;
    if events == [] {
      assert |Run(p, events).queues[0].items| < p.capacity;
    } else {
      var n := |events| - 1;
      PromptRunsFit(p, events[..n]);
      var s := Run(p, events[..n]);
      match events[n]
      case Enqueue(item, now) => {
        assert n > 0 ==> !events[n - 1].Enqueue?;
        EnqueueFits(p, s, item, now);
      }
      case FlushReady(now, store) => FlushMakesRoom(p, s, 0, Ready, now, store);
      case Drain(now, store) => FlushMakesRoom(p, s, 0, Final, now, store);
    }
  }
}
