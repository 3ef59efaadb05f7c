/** The ledgers of all flushes of a run, and the reserve counter that adds them up. */
module ReserveRuns {
  import opened Prelude
  import opened Dicts
  import opened Schema
  import opened AllocatorSpec
  import opened OnlineSpec
  import opened ManagerRuns
  import opened FlushLedger

  /** The items are different dictionaries. */
  predicate DifferentNodes(items: seq<Item>) {
    forall i, j :: 0 <= i < j < |items| ==> items[i].node != items[j].node
  }

  predicate DefaultsPositive(items: seq<Item>) {
    forall i :: 0 <= i < |items| ==> items[i].defaultK >= 1
  }

  /** The record of a flush and the allocator's summary tell the same story, and pruning pays
      for expansion and slack exactly if no default is below the floor. */
  ghost predicate Agrees(p: Params, r: FlushResult) {
    var record := ToRecord(r);
    && record.transferred == r.summary.transferred
    && record.defaultBudget == r.summary.requested == r.summary.granted + r.summary.underallocated
    && (record.pruned == record.expanded + r.summary.underallocated <==> p.nMin >= 1 || DefaultsPositive(r.items))
  }

  /** The record never reports less than the summary transferred, and no more exactly when the
      defaults suffice. */
  ghost predicate ReportsNoLess(r: FlushResult) {
    && r.summary.transferred <= ToRecord(r).transferred
    && (r.summary.transferred == ToRecord(r).transferred <==> DefaultsSuffice(r.summary))
  }

  ghost predicate Genuine(p: Params, d: Departure) {
    d.result.Some? ==> ReportsNoLess(d.result.value) && (DifferentNodes(d.items) ==> Agrees(p, d.result.value))
  }

  ghost predicate AllGenuine(p: Params, departures: seq<Departure>) {
    forall i :: 0 <= i < |departures| ==> Genuine(p, departures[i])
  }

  lemma FlushOneGenuine(p: Params, s: ManagerState, i: nat, reason: FlushReason, now: real, store: Store)
    requires i < |s.queues| && Covers(store, s.queues) && AllGenuine(p, s.departures)
    ensures AllGenuine(p, FlushOne(p, s, i, reason, now, store).state.departures)
  {
    hide FlushItems;
    hide FlushOne;
    hide Genuine;
    FlushOneCases(p, s, i, reason, now, store);
    var t := FlushOne(p, s, i, reason, now, store).state;
    var d := t.departures[|s.departures|];
    assert t.departures == s.departures + [d];
    LastGenuine(p, s, i, reason, now, store, d);
  }

  lemma LastGenuine(p: Params, s: ManagerState, i: nat, reason: FlushReason, now: real, store: Store, d: Departure)
    requires i < |s.queues| && Covers(store, s.queues)
    requires FlushOne(p, s, i, reason, now, store).state.departures == s.departures + [d]
    ensures Genuine(p, d)
  {
    hide FlushItems;
    hide FlushOne;
    hide ToRecord;
    hide BaseBudget;
    FlushOneCases(p, s, i, reason, now, store);
    assert (s.departures + [d])[|s.departures|] == d;
    if d.result.Some? {
      RecordCounts(d.result.value, p, Local(s.queues[i].items, store));
      if DifferentNodes(d.items) {
        RecordAgrees(d.result.value, p, Local(s.queues[i].items, store));
      }
    }
  }

  lemma {:induction false} FlushFromGenuine(p: Params, s: ManagerState, i: nat, mode: Mode, now: real, store: Store)
    requires i <= |s.queues| && Covers(store, s.queues) && AllGenuine(p, s.departures)
    ensures AllGenuine(p, FlushFrom(p, s, i, mode, now, store).state.departures)
    decreases |s.queues| - i
  {
    hide FlushOne;
    hide AllGenuine;
    hide ReasonFor;
    if i < |s.queues| {
      var reason := ReasonFor(mode, s.queues[i], p, now);
      if reason.None? {
        FlushFromGenuine(p, s, i + 1, mode, now, store);
      } else {
        FlushOneGenuine(p, s, i, reason.value, now, store);
        var one := FlushOne(p, s, i, reason.value, now, store);
        if one.error.None? {
          FlushFromGenuine(p, one.state, i + 1, mode, now, one.store);
        }
      }
    }
  }

  /** Over every run, every flush of different dictionaries balances its ledger. */
  lemma {:induction false} RunGenuine(p: Params, events: seq<Event>)
    requires ValidParams(p)
    ensures AllGenuine(p, Run(p, events).departures)
  {
    hide FlushFrom;
    hide Genuine;
    if events != [] {
      var n := |events| - 1;
      RunGenuine(p, events[..n]);
      var s := Run(p, events[..n]);
      if Possible(s, events[n]) {
        match events[n]
        case Enqueue(item, now) =>
        case FlushReady(now, store) => FlushFromGenuine(p, s, 0, Ready, now, store);
        case Drain(now, store) => FlushFromGenuine(p, s, 0, Final, now, store);
      }
    }
  }

  /** The sum of transferred_budget_within_flush over the records of the history. */
  ghost function Reported(departures: seq<Departure>): int {
    if departures == [] then 0
    else
      var d := departures[|departures| - 1];
      Reported(departures[..|departures| - 1]) + if d.result.Some? then ToRecord(d.result.value).transferred else 0
  }

  ghost predicate AllSuffice(departures: seq<Departure>) {
    forall i :: 0 <= i < |departures| && departures[i].result.Some? ==>
      DefaultsSuffice(departures[i].result.value.summary)
  }

  lemma {:induction false} ReportedTransferred(p: Params, departures: seq<Departure>)
    requires AllGenuine(p, departures)
    ensures Transferred(departures) <= Reported(departures)
    ensures Transferred(departures) == Reported(departures) <==> AllSuffice(departures)
  {
    hide ToRecord;
    hide DifferentNodes;
    hide DefaultsSuffice;
    hide Agrees;
    if departures != [] {
      var n := |departures| - 1;
      var earlier, d := departures[..n], departures[n];
      assert forall i :: 0 <= i < n ==> earlier[i] == departures[i];
      ReportedTransferred(p, earlier);
      assert Genuine(p, d);
      assert AllSuffice(departures) <==>
        AllSuffice(earlier) && (d.result.Some? ==> DefaultsSuffice(d.result.value.summary));
    }
  }

  /** Over every run, the manager's counter never exceeds the sum of the transfers that the
      flush records report, and equals it exactly if in every accepted flush the defaults came
      to no less than what was allocated. */
  lemma {:induction false} RunReserveIff(p: Params, events: seq<Event>)
    requires ValidParams(p)
    ensures var s := Run(p, events);
      && s.reserveConsumed <= Reported(s.departures)
      && (s.reserveConsumed == Reported(s.departures) <==> AllSuffice(s.departures))
  {
    hide Run;
    hide AllGenuine;
    hide AllSuffice;
    RunKeepsInvariant(p, events);
    RunGenuine(p, events);
    ReportedTransferred(p, Run(p, events).departures);
  }

  /** So the two agree over every run whose flushes held different dictionaries. */
  lemma {:induction false} RunReserve(p: Params, events: seq<Event>)
    requires ValidParams(p)
    requires forall i :: 0 <= i < |Run(p, events).departures| ==> DifferentNodes(Run(p, events).departures[i].items)
    ensures Run(p, events).reserveConsumed == Reported(Run(p, events).departures)
  {
    hide Run;
    hide ToRecord;
    hide DefaultsSuffice;
    hide DifferentNodes;
    RunReserveIff(p, events);
    RunGenuine(p, events);
    forall i | 0 <= i < |Run(p, events).departures| && Run(p, events).departures[i].result.Some?
      ensures DefaultsSuffice(Run(p, events).departures[i].result.value.summary)
    {
      assert Genuine(p, Run(p, events).departures[i]);
    }
  }
}
