/** Which queues a call flushes, and why: said of the queues as they were before the call, and
    of the time that their first items have waited. */
module ReadyFlushes {
  import opened Prelude
  import opened Dicts
  import opened Schema
  import opened AllocatorSpec
  import opened OnlineSpec
  import opened ManagerRuns

  /** The queue holds as many items as it should. */
  predicate Full(p: Params, q: QueueState) {
    |q.items| >= p.capacity
  }

  /** There is a timeout, and the first item has waited that long. */
  predicate Waited(p: Params, q: QueueState, now: real) {
    p.timeout > 0.0 && q.first.Some? && now - q.first.value >= p.timeout
  }

  predicate Due(mode: Mode, p: Params, q: QueueState, now: real) {
    q.items != [] && (mode == Final || Full(p, q) || Waited(p, q, now))
  }

  /** The reason and the waiting time that a flush of q reports. */
  predicate Reported(mode: Mode, p: Params, q: QueueState, now: real, r: FlushResult) {
    && (r.reason == FinalDrain <==> mode == Final)
    && (r.reason == Capacity <==> mode == Ready && Full(p, q))
    && (r.reason == Timeout <==> mode == Ready && !Full(p, q))
    && (q.first.Some? && q.first.value != 0.0 && q.first.value <= now ==> r.wait == now - q.first.value)
    && (q.first.Some? && (q.first.value == 0.0 || q.first.value > now) ==> r.wait == 0.0)
  }

  /** d is what became of one due queue of s. */
  ghost predicate Left(mode: Mode, p: Params, s: ManagerState, now: real, d: Departure) {
    && d.queueId < |s.queues| && d.items == s.queues[d.queueId].items
    && Due(mode, p, s.queues[d.queueId], now)
    && (d.result.Some? ==>
          && d.result.value.queueId == d.queueId && d.result.value.items == d.items
          && Reported(mode, p, s.queues[d.queueId], now, d.result.value))
  }

  /** The departures of a call that began at queue i: due queues in order, all of them unless a
      rejection ended the call, which then is the last; and no other queue has changed. */
  ghost predicate Swept(mode: Mode, p: Params, s: ManagerState, i: nat, now: real, rejected: bool,
                        added: seq<Departure>, after: seq<QueueState>)
    requires |after| == |s.queues|
  {
    && (forall k :: 0 <= k < |added| ==> i <= added[k].queueId && Left(mode, p, s, now, added[k]))
    && (forall k, l :: 0 <= k < l < |added| ==> added[k].queueId < added[l].queueId)
    && (forall k :: 0 <= k < |added| ==> (added[k].result.None? <==> rejected && k == |added| - 1))
    && (rejected ==> added != [])
    && (forall j :: i <= j < |s.queues| && Due(mode, p, s.queues[j], now) ==>
          Departs(added, j) || (rejected && j > added[|added| - 1].queueId))
    && (forall j :: 0 <= j < |s.queues| ==>
          after[j] == if Departs(added, j) then QueueState([], None) else s.queues[j])
  }

  predicate Departs(added: seq<Departure>, j: int) {
    exists k :: 0 <= k < |added| && added[k].queueId == j
  }

  lemma ReasonIffDue(mode: Mode, q: QueueState, p: Params, now: real)
    ensures ReasonFor(mode, q, p, now).Some? <==> Due(mode, p, q, now)
    ensures forall r: FlushResult :: ReasonFor(mode, q, p, now) == Some(r.reason) && r.wait == WaitOf(q, now) ==>
      Reported(mode, p, q, now, r)
  {
  }

  lemma OneLeaves(mode: Mode, p: Params, s: ManagerState, i: nat, now: real, store: Store) returns (d: Departure)
    requires i < |s.queues| && Covers(store, s.queues) && ReasonFor(mode, s.queues[i], p, now).Some?
    ensures var one := FlushOne(p, s, i, ReasonFor(mode, s.queues[i], p, now).value, now, store);
      && d.queueId == i && Left(mode, p, s, now, d)
      && one.state.departures == s.departures + [d] && one.state.queues == s.queues[i := QueueState([], None)]
      && (d.result.None? <==> one.error.Some?)
  {
    hide FlushItems;
    hide ReasonFor;
    hide Reported;
    hide Due;
    hide WaitOf;
    var reason := ReasonFor(mode, s.queues[i], p, now).value;
    ReasonIffDue(mode, s.queues[i], p, now);
    d := FlushOne(p, s, i, reason, now, store).state.departures[|s.departures|];
  }

  lemma SweptNone(mode: Mode, p: Params, s: ManagerState, i: nat, now: real)
    requires i == |s.queues|
    ensures Swept(mode, p, s, i, now, false, [], s.queues)
  {
  }

  lemma SweptSkip(mode: Mode, p: Params, s: ManagerState, i: nat, now: real, rejected: bool,
                  added: seq<Departure>, after: seq<QueueState>)
    requires |after| == |s.queues| && i < |s.queues| && !Due(mode, p, s.queues[i], now)
    requires Swept(mode, p, s, i + 1, now, rejected, added, after)
    ensures Swept(mode, p, s, i, now, rejected, added, after)
  {
    hide Left;
    hide Due;
  }

  lemma SweptRejected(mode: Mode, p: Params, s: ManagerState, i: nat, now: real, d: Departure)
    requires i < |s.queues| && d.queueId == i && Left(mode, p, s, now, d) && d.result.None?
    ensures Swept(mode, p, s, i, now, true, [d], s.queues[i := QueueState([], None)])
  {
    hide Left;
    hide Due;
    assert Departs([d], i) by { assert [d][0].queueId == i; }
  }

  lemma SweptMore(mode: Mode, p: Params, s: ManagerState, i: nat, now: real, d: Departure, t: ManagerState,
                  rejected: bool, rest: seq<Departure>, after: seq<QueueState>)
    requires i < |s.queues| && d.queueId == i && Left(mode, p, s, now, d) && d.result.Some?
    requires t.queues == s.queues[i := QueueState([], None)] && |after| == |s.queues|
    requires Swept(mode, p, t, i + 1, now, rejected, rest, after)
    ensures Swept(mode, p, s, i, now, rejected, [d] + rest, after)
  {
    hide Due;
    hide Reported;
    var added := [d] + rest;
    forall k | 0 <= k < |added| ensures i <= added[k].queueId && Left(mode, p, s, now, added[k]) {
      if k > 0 {
        assert Left(mode, p, t, now, rest[k - 1]);
      }
    }
    forall j ensures Departs(added, j) <==> j == i || Departs(rest, j) {
      DepartsMore(d, rest, j);
    }
    assert rejected ==> added[|added| - 1] == rest[|rest| - 1];
  }

  lemma DepartsMore(d: Departure, rest: seq<Departure>, j: int)
    ensures Departs([d] + rest, j) <==> j == d.queueId || Departs(rest, j)
  {
    var added := [d] + rest;
    if Departs(rest, j) {
      var k :| 0 <= k < |rest| && rest[k].queueId == j;
      assert added[k + 1].queueId == j;
    }
    if j == d.queueId {
      assert added[0].queueId == j;
    }
  }

  /** Exactly what a call flushes: flush_ready the queues that are full or have waited, drain the
      ones that hold anything; with the reason and the waiting time that each reports. */
  lemma {:induction false} FlushesExactly(p: Params, s: ManagerState, i: nat, mode: Mode, now: real, store: Store)
    returns (added: seq<Departure>)
    requires i <= |s.queues| && Covers(store, s.queues)
    ensures var r := FlushFrom(p, s, i, mode, now, store);
      && r.state.departures == s.departures + added
      && Swept(mode, p, s, i, now, r.error.Some?, added, r.state.queues)
    decreases |s.queues| - i
  {
    hide FlushOne;
    hide Swept;
    hide ReasonFor;
    hide Left;
    hide Due;
    added := [];
    if i == |s.queues| {
      SweptNone(mode, p, s, i, now);
    } else {
      var reason := ReasonFor(mode, s.queues[i], p, now);
      ReasonIffDue(mode, s.queues[i], p, now);
      if reason.None? {
        added := FlushesExactly(p, s, i + 1, mode, now, store);
        SweptSkip(mode, p, s, i, now, FlushFrom(p, s, i, mode, now, store).error.Some?, added,
                  FlushFrom(p, s, i, mode, now, store).state.queues);
      } else {
        var d := OneLeaves(mode, p, s, i, now, store);
        var one := FlushOne(p, s, i, reason.value, now, store);
        if one.error.Some? {
          added := [d];
          SweptRejected(mode, p, s, i, now, d);
        } else {
          var rest := FlushesExactly(p, one.state, i + 1, mode, now, one.store);
          var r := FlushFrom(p, one.state, i + 1, mode, now, one.store);
          SweptMore(mode, p, s, i, now, d, one.state, r.error.Some?, rest, r.state.queues);
          added := [d] + rest;
        }
      }
    }
  }

  /** A call leaves each queue as it was or empty. */
  lemma {:induction false} KeptOrEmptied(p: Params, s: ManagerState, mode: Mode, now: real, store: Store, j: nat)
    requires Covers(store, s.queues) && j < |s.queues|
    ensures var q := FlushFrom(p, s, 0, mode, now, store).state.queues[j];
      q == s.queues[j] || q == QueueState([], None)
  {
    hide FlushFrom;
    hide Left;
    hide Due;
    var added := FlushesExactly(p, s, 0, mode, now, store);
  }

  /** Over every run: a queue that is not empty has been waiting since the call that put its
      first item into it while it was empty. */
  lemma {:induction false} WaitingSince(p: Params, events: seq<Event>, i: nat) returns (n: nat)
    requires ValidParams(p) && i < |Run(p, events).queues| && Run(p, events).queues[i].items != []
    ensures n < |events| && events[n].Enqueue?
    ensures var q := Run(p, events).queues[i];
      && q.first == Some(events[n].now) && q.items[0] == events[n].item
      && i < |Run(p, events[..n]).queues| && Run(p, events[..n]).queues[i].items == []
  {
    hide FlushFrom;
    hide Shortest;
    hide Covers;
    if events == [] {
      assert false;
    } else {
      var m := |events| - 1;
      var s := Run(p, events[..m]);
      var q := Run(p, events).queues[i];
      if q != s.queues[i] && Possible(s, events[m]) {
        match events[m]
        case Enqueue(item, now) =>
        case FlushReady(now, store) => KeptOrEmptied(p, s, Ready, now, store, i);
        case Drain(now, store) => KeptOrEmptied(p, s, Final, now, store, i);
      }
      if s.queues[i].items == [] {
        n := m;
      } else {
        n := WaitingSince(p, events[..m], i);
        assert events[..m][..n] == events[..n];
      }
    }
  }

  /** An accepted item goes to the first of the shortest queues, and is recorded as arrived. */
  lemma JoinsShortest(p: Params, s: ManagerState, item: Item, now: real) returns (i: nat)
    requires s.queues != []
    requires item.snapshot.None? || item.snapshot == Some("") || item.snapshot == Some(p.snapshot)
    ensures i < |s.queues|
    ensures forall j :: 0 <= j < |s.queues| ==> |s.queues[i].items| <= |s.queues[j].items|
    ensures forall j :: 0 <= j < i ==> |s.queues[i].items| < |s.queues[j].items|
    ensures var q := s.queues[i];
      var joined := QueueState(q.items + [item], if |q.items| == 0 then Some(now) else q.first);
      EnqueueStep(p, s, item, now) == s.(queues := s.queues[i := joined], arrivals := s.arrivals + [Arrival(i, item)])
  {
    i := Shortest(s.queues);
  }

  /** The flushes of a history that were accepted, in all and for one reason, and those whose
      allocation was transferred from. */
  function Accepted(departures: seq<Departure>): set<nat> {
    set k: nat | k < |departures| && departures[k].result.Some?
  }

  function AcceptedFor(departures: seq<Departure>, reason: FlushReason): set<nat> {
    set k: nat | k < |departures| && departures[k].result.Some? && departures[k].result.value.reason == reason
  }

  ghost function Transfers(departures: seq<Departure>): map<nat, int> {
    map k: nat | k < |departures| && departures[k].result.Some? :: departures[k].result.value.summary.transferred
  }

  lemma {:induction false} FlushesAreAccepted(departures: seq<Departure>)
    ensures Flushes(departures) == |Accepted(departures)|
  {
    if departures != [] {
      var n: nat := |departures| - 1;
      var rest, d := departures[..n], departures[n];
      FlushesAreAccepted(rest);
      assert Accepted(departures) == if d.result.Some? then Accepted(rest) + {n} else Accepted(rest);
    }
  }

  lemma AcceptedForMore(departures: seq<Departure>, reason: FlushReason, n: nat)
    requires |departures| == n + 1
    ensures AcceptedFor(departures, reason) ==
      if departures[n].result.Some? && departures[n].result.value.reason == reason
      then AcceptedFor(departures[..n], reason) + {n} else AcceptedFor(departures[..n], reason)
  {
  }

  lemma TransfersMore(departures: seq<Departure>, n: nat)
    requires |departures| == n + 1
    ensures Transfers(departures) ==
      if departures[n].result.Some?
      then Transfers(departures[..n])[n := departures[n].result.value.summary.transferred]
      else Transfers(departures[..n])
  {
  }

  lemma {:induction false} FlushesAreAcceptedFor(departures: seq<Departure>, reason: FlushReason)
    ensures FlushesFor(departures, reason) == |AcceptedFor(departures, reason)|
  {
    if departures != [] {
      var n: nat := |departures| - 1;
      FlushesAreAcceptedFor(departures[..n], reason);
      AcceptedForMore(departures, reason, n);
    }
  }

  lemma {:induction false} TransferredIsSum(departures: seq<Departure>)
    ensures Transferred(departures) == Sum(Transfers(departures))
  {
    if departures == [] {
      assert Transfers(departures) == map[];
    } else {
      var n: nat := |departures| - 1;
      TransferredIsSum(departures[..n]);
      TransfersMore(departures, n);
      if departures[n].result.Some? {
        SumSet(Transfers(departures[..n]), n, departures[n].result.value.summary.transferred);
      }
    }
  }

  /** Over every run the counters are the numbers of accepted flushes in the history, in all and
      for each reason, and the reserve counter is the sum of their transfers. */
  lemma {:induction false} RunCounts(p: Params, events: seq<Event>)
    requires ValidParams(p)
    ensures var s := Run(p, events);
      && s.flushCount == |Accepted(s.departures)|
      && s.timeoutCount == |AcceptedFor(s.departures, Timeout)|
      && s.capacityCount == |AcceptedFor(s.departures, Capacity)|
      && s.drainCount == |AcceptedFor(s.departures, FinalDrain)|
      && s.reserveConsumed == Sum(Transfers(s.departures))
  {
    hide Run;
    RunKeepsInvariant(p, events);
    var departures := Run(p, events).departures;
    FlushesAreAccepted(departures);
    FlushesAreAcceptedFor(departures, Timeout);
    FlushesAreAcceptedFor(departures, Capacity);
    FlushesAreAcceptedFor(departures, FinalDrain);
    TransferredIsSum(departures);
  }
}
