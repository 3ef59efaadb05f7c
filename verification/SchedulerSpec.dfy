/** The synchronous scheduler: what a call makes of the node dictionaries, and exactly when
    it succeeds. */
module SchedulerSpec {
  import opened Prelude
  import opened Dicts
  import opened Schema
  import opened AllocatorSpec
  import opened AllocatorTheorems
  import opened Sharing

  predicate Stored(nodes: seq<Node>, store: Store) {
    forall n :: n in nodes ==> n in store
  }

  ghost predicate AllStored(queues: seq<seq<Node>>, store: Store) {
    forall j :: 0 <= j < |queues| ==> Stored(queues[j], store)
  }

  /** The dictionaries once the first n nodes have been dealt out. */
  ghost function Placed(nodes: seq<Node>, q: nat, n: nat, store: Store): (after: Store)
    requires q > 0 && n <= |nodes| && Stored(nodes, store)
    ensures after.Keys == store.Keys
  {
    if n == 0 then store
    else
      var before := Placed(nodes, q, n - 1, store);
      var node := nodes[n - 1];
      before[node := before[node].(queueId := Some(LeastLoaded(Deal(nodes[..n - 1], q))))]
  }

  ghost function Only(nodes: seq<Node>, store: Store): (local: Store)
    requires Stored(nodes, store)
    ensures Stored(nodes, local)
  {
    map n | n in store && n in nodes :: store[n]
  }

  /** Where a call stands after some queues: an error ends it. */
  datatype Progress = Progress(store: Store, rest: Rest, summaries: seq<Summary>, error: Option<Error>)

  ghost function ServeOne(queue: seq<Node>, p: Progress, nMin: int, strict: bool): (r: Progress)
    requires Stored(queue, p.store)
    ensures r.store.Keys == p.store.Keys
  {
    if p.error.Some? || queue == [] then p
    else
      var budget, local := QueueBudget(p.rest, |queue|), Only(queue, p.store);
      var cfg := DefaultConfig(budget, nMin, strict);
      var r := Allocate(Contents(queue, local), cfg);
      if r.Err? then p.(error := Some(r.error))
      else Progress(p.store + AllocateStore(queue, cfg, local),
                    Rest(p.rest.budget - budget, p.rest.nodes - |queue|),
                    p.summaries + [r.value], None)
  }

  ghost function Serve(queues: seq<seq<Node>>, start: Progress, nMin: int, strict: bool): (r: Progress)
    requires AllStored(queues, start.store)
    ensures r.store.Keys == start.store.Keys
  {
    if queues == [] then start
    else
      var n := |queues| - 1;
      assert forall j :: 0 <= j < n ==> queues[..n][j] == queues[j];
      ServeOne(queues[n], Serve(queues[..n], start, nMin, strict), nMin, strict)
  }

  lemma {:induction false} DealStored(nodes: seq<Node>, q: nat, store: Store)
    requires q > 0 && Stored(nodes, store)
    ensures AllStored(Deal(nodes, q), store)
  {
    if nodes != [] {
      DealStored(nodes[..|nodes| - 1], q, store);
    }
  }

  ghost function Start(nodes: seq<Node>, q: nat, total: int, store: Store): Progress
    requires q > 0 && Stored(nodes, store)
  {
    Progress(Placed(nodes, q, |nodes|, store), Rest(Max(total, 0), |nodes|), [], None)
  }

  /** One call of allocate with q queues. */
  ghost function Schedule(nodes: seq<Node>, q: nat, total: int, nMin: int, strict: bool, store: Store): Progress
    requires q > 0 && Stored(nodes, store)
  {
    DealStored(nodes, q, Start(nodes, q, total, store).store);
    Serve(Deal(nodes, q), Start(nodes, q, total, store), nMin, strict)
  }

  /** The allocator has nothing to object to in these nodes but, perhaps, the budget. */
  ghost predicate Acceptable(queue: seq<Node>, store: Store, strict: bool)
    requires Stored(queue, store)
  {
    var fs := Contents(queue, store);
    DistinctIds(fs) && ValidDispersions(fs, DefaultConfig(0, 0, strict))
  }

  /** Identifiers and the sign of the dispersion are as they were. */
  predicate SameStanding(f: Fields, g: Fields, strict: bool) {
    && f.vdraNodeId == g.vdraNodeId && f.gearSegmentId == g.gearSegmentId
    && f.segmentId == g.segmentId && f.id == g.id
    && (strict ==> (RawDispersion(f, None) >= 0.0 <==> RawDispersion(g, None) >= 0.0))
  }

  ghost predicate Agree(a: Store, b: Store, strict: bool) {
    a.Keys == b.Keys && forall n :: n in a ==> SameStanding(a[n], b[n], strict)
  }

  lemma PlacingAgrees(f: Fields, id: int, strict: bool)
    ensures SameStanding(f, f.(queueId := Some(id)), strict)
  {
  }

  lemma {:induction false} PlacedAgrees(nodes: seq<Node>, q: nat, n: nat, store: Store, strict: bool)
    requires q > 0 && n <= |nodes| && Stored(nodes, store)
    ensures Agree(store, Placed(nodes, q, n, store), strict)
  {
    hide SameStanding;
    hide LeastLoaded;
    hide Deal;
    if n == 0 {
      forall m | m in store ensures SameStanding(store[m], store[m], strict) { SameStandingReflexive(store[m],
        strict); }
    } else {
      PlacedAgrees(nodes, q, n - 1, store, strict);
      var before, node := Placed(nodes, q, n - 1, store), nodes[n - 1];
      var id := LeastLoaded(Deal(nodes[..n - 1], q));
      PlacingAgrees(before[node], id, strict);
      SameStandingTransitive(store[node], before[node], before[node].(queueId := Some(id)), strict);
    }
  }

  lemma SameStandingReflexive(f: Fields, strict: bool)
    ensures SameStanding(f, f, strict)
  {
  }

  lemma SameStandingTransitive(f: Fields, g: Fields, h: Fields, strict: bool)
    requires SameStanding(f, g, strict) && SameStanding(g, h, strict)
    ensures SameStanding(f, h, strict)
  {
  }

  lemma WritingAgrees(f: Fields, w: WriteArgs, strict: bool)
    requires strict ==> RawDispersion(f, None) >= 0.0
    ensures SameStanding(f, WriteAccounting(f, w), strict)
    ensures strict ==> RawDispersion(WriteAccounting(f, w), None) >= 0.0
  {
  }

  lemma {:induction false} WriteBackAgrees(nodes: seq<Node>, n: nat, s: Summary, cfg: Config, store: Store)
    requires n <= |nodes| && Stored(nodes, store)
    requires cfg.strict ==> forall m :: m in nodes ==> RawDispersion(store[m], None) >= 0.0
    ensures Agree(store, WriteBack(nodes, n, s, cfg, store), cfg.strict)
  {
    hide SameStanding;
    hide WriteAccounting;
    hide RawDispersion;
    hide TraceArgs;
    hide NodeId;
    if n == 0 {
      forall m | m in store ensures SameStanding(store[m], store[m], cfg.strict) { SameStandingReflexive(store[m],
        cfg.strict); }
    } else {
      WriteBackAgrees(nodes, n - 1, s, cfg, store);
      var before, node := WriteBack(nodes, n - 1, s, cfg, store), nodes[n - 1];
      var w := TraceArgs(s, NodeId(before[node], n - 1), cfg);
      StandingSign(store[node], before[node], cfg.strict);
      WritingAgrees(before[node], w, cfg.strict);
      SameStandingTransitive(store[node], before[node], WriteAccounting(before[node], w), cfg.strict);
    }
  }

  lemma StandingSign(f: Fields, g: Fields, strict: bool)
    requires SameStanding(f, g, strict)
    ensures strict ==> (RawDispersion(f, None) >= 0.0 <==> RawDispersion(g, None) >= 0.0)
    ensures forall i: nat :: NodeId(f, i) == NodeId(g, i)
  {
  }

  lemma AgreeAcceptable(queue: seq<Node>, a: Store, b: Store, strict: bool)
    requires Agree(a, b, strict) && Stored(queue, a)
    ensures Acceptable(queue, a, strict) <==> Acceptable(queue, b, strict)
  {
    hide SameStanding;
    hide RawDispersion;
    hide NodeId;
    var fs, gs := Contents(queue, a), Contents(queue, b);
    forall i | 0 <= i < |queue|
      ensures strict ==> (RawDispersion(fs[i], None) >= 0.0 <==> RawDispersion(gs[i], None) >= 0.0)
      ensures NodeId(fs[i], i) == NodeId(gs[i], i)
    {
      AgreeAt(a, b, strict, queue[i]);
      StandingSign(a[queue[i]], b[queue[i]], strict);
    }
  }

  lemma AgreeAt(a: Store, b: Store, strict: bool, n: Node)
    requires Agree(a, b, strict) && n in a
    ensures n in b && SameStanding(a[n], b[n], strict)
  {
  }

  lemma ServedAgrees(queue: seq<Node>, store: Store, cfg: Config)
    requires Stored(queue, store) && cfg.weightKey.None?
    requires Allocate(Contents(queue, Only(queue, store)), cfg).Ok?
    ensures Agree(store, store + AllocateStore(queue, cfg, Only(queue, store)), cfg.strict)
  {
    hide SameStanding;
    hide RawDispersion;
    hide Allocate;
    hide DistinctIds;
    hide WriteBack;
    var local := Only(queue, store);
    var fs := Contents(queue, local);
    AllocateAccepts(fs, cfg);
    var after := AllocateStore(queue, cfg, local);
    forall m | m in queue ensures cfg.strict ==> RawDispersion(local[m], None) >= 0.0 {
      var i :| 0 <= i < |queue| && queue[i] == m;
      assert fs[i] == local[m];
    }
    WriteBackAgrees(queue, |queue|, Allocate(fs, cfg).value, cfg, local);
    forall m | m in store ensures SameStanding(store[m], (store + after)[m], cfg.strict) {
      SameStandingReflexive(store[m], cfg.strict);
    }
  }

  function Sizes(queues: seq<seq<Node>>): (sizes: seq<nat>)
    ensures |sizes| == |queues|
  {
    seq(|queues|, j requires 0 <= j < |queues| => |queues[j]|)
  }

  lemma LocalAcceptable(queue: seq<Node>, store: Store, cfg: Config)
    requires Stored(queue, store) && cfg.weightKey.None? && cfg.policy == ExpandNonredundantCaps
    ensures Allocate(Contents(queue, Only(queue, store)), cfg).Ok? <==>
      queue != [] && Acceptable(queue, store, cfg.strict) && cfg.totalBudget >= |queue| * cfg.Floor()
  {
    hide RawDispersion;
    hide Allocate;
    hide DistinctIds;
    var fs := Contents(queue, Only(queue, store));
    assert fs == Contents(queue, store);
    AllocateAccepts(fs, cfg);
  }

  /** One queue is served exactly if its nodes are acceptable and its share is enough. */
  lemma ServeOneAccepts(queue: seq<Node>, p: Progress, nMin: nat, strict: bool)
    requires Stored(queue, p.store) && p.error.None?
    ensures var r := ServeOne(queue, p, nMin, strict);
      var enough := Max(nMin, 1) * |queue| <= QueueBudget(p.rest, |queue|);
      && (r.error.None? <==> queue == [] || (Acceptable(queue, p.store, strict) && enough))
      && (r.error.None? ==> Agree(p.store, r.store, strict))
  {
    hide Acceptable;
    hide Allocate;
    hide AllocateStore;
    hide Agree;
    hide QueueBudget;
    if queue == [] {
      AgreeReflexive(p.store, strict);
    } else {
      var cfg := DefaultConfig(QueueBudget(p.rest, |queue|), nMin, strict);
      LocalAcceptable(queue, p.store, cfg);
      if Allocate(Contents(queue, Only(queue, p.store)), cfg).Ok? {
        ServedAgrees(queue, p.store, cfg);
      }
    }
  }

  lemma AgreeReflexive(a: Store, strict: bool)
    ensures Agree(a, a, strict)
  {
    hide RawDispersion;
  }

  lemma AgreeTransitive(a: Store, b: Store, c: Store, strict: bool)
    requires Agree(a, b, strict) && Agree(b, c, strict)
    ensures Agree(a, c, strict)
  {
    hide SameStanding;
    forall n | n in a ensures SameStanding(a[n], c[n], strict) {
      SameStandingTransitive(a[n], b[n], c[n], strict);
    }
  }

  /** Queue j can be served with its share. */
  ghost predicate Servable(queues: seq<seq<Node>>, j: nat, store: Store, total: int, nMin: nat, strict: bool)
    requires j < |queues| && Stored(queues[j], store)
  {
    queues[j] == [] ||
    (Acceptable(queues[j], store, strict) && Max(nMin, 1) * |queues[j]| <= ShareOf(Sizes(queues), total, j))
  }

  /** After n queues: what is left is what the split leaves, and no standing has changed. */
  ghost predicate OnCourse(queues: seq<seq<Node>>, n: nat, start: Progress, p: Progress, strict: bool)
    requires n <= |queues|
  {
    && Agree(start.store, p.store, strict)
    && p.rest == Split(Sizes(queues)[..n], start.rest.budget, Total(Sizes(queues)))
  }

  lemma {:induction false} ServeAccepts(queues: seq<seq<Node>>, n: nat, start: Progress, nMin: nat, strict: bool)
    requires n <= |queues| && AllStored(queues, start.store) && start.error.None?
    requires start.rest.nodes == Total(Sizes(queues))
    ensures AllStored(queues[..n], start.store)
    ensures var r := Serve(queues[..n], start, nMin, strict);
      && (r.error.None? <==> forall j :: 0 <= j < n ==>
        Servable(queues, j, start.store, start.rest.budget, nMin, strict))
      && (r.error.None? ==> OnCourse(queues, n, start, r, strict))
  {
    hide Acceptable;
    hide ServeOne;
    hide Agree;
    hide Stored;
    hide QueueBudget;
    if n == 0 {
      AgreeReflexive(start.store, strict);
    } else {
      ServeAccepts(queues, n - 1, start, nMin, strict);
      assert queues[..n][..n - 1] == queues[..n - 1];
      assert Sizes(queues)[..n][..n - 1] == Sizes(queues)[..n - 1];
      var p := Serve(queues[..n - 1], start, nMin, strict);
      NextServed(queues, n - 1, start, p, nMin, strict);
    }
  }

  lemma NextServed(queues: seq<seq<Node>>, n: nat, start: Progress, p: Progress, nMin: nat, strict: bool)
    requires n < |queues| && Stored(queues[n], start.store) && p.store.Keys == start.store.Keys
    requires p.error.None? ==> OnCourse(queues, n, start, p, strict)
    ensures Stored(queues[n], p.store)
    ensures var r := ServeOne(queues[n], p, nMin, strict);
      && (r.error.None? <==> p.error.None? && Servable(queues, n, start.store, start.rest.budget, nMin, strict))
      && (r.error.None? ==> OnCourse(queues, n + 1, start, r, strict))
  {
    hide Acceptable;
    hide Agree;
    hide Allocate;
    hide AllocateStore;
    hide QueueBudget;
    if p.error.None? {
      var r := ServeOne(queues[n], p, nMin, strict);
      assert Sizes(queues)[..n + 1][..n] == Sizes(queues)[..n];
      ServeOneAccepts(queues[n], p, nMin, strict);
      AgreeAcceptable(queues[n], start.store, p.store, strict);
      if r.error.None? {
        AgreeTransitive(start.store, p.store, r.store, strict);
      }
    }
  }

  lemma {:induction false} TotalGrows(a: seq<nat>, b: seq<nat>, j: nat)
    requires |a| == |b| && j < |a| && b[j] == a[j] + 1
    requires forall k :: 0 <= k < |a| && k != j ==> b[k] == a[k]
    ensures Total(b) == Total(a) + 1
  {
    var n := |a| - 1;
    if j < n {
      TotalGrows(a[..n], b[..n], j);
    } else {
      assert a[..n] == b[..n];
    }
  }

  lemma {:induction false} TotalOfZeros(a: seq<nat>)
    requires forall k :: 0 <= k < |a| ==> a[k] == 0
    ensures Total(a) == 0
  {
    if a != [] {
      TotalOfZeros(a[..|a| - 1]);
    }
  }

  /** No node is lost in the deal. */
  lemma {:induction false} DealTotal(nodes: seq<Node>, q: nat)
    requires q > 0
    ensures Total(Sizes(Deal(nodes, q))) == |nodes|
  {
    hide LeastLoaded;
    if nodes == [] {
      TotalOfZeros(Sizes(Deal(nodes, q)));
    } else {
      var n := |nodes| - 1;
      DealTotal(nodes[..n], q);
      var before := Deal(nodes[..n], q);
      TotalGrows(Sizes(before), Sizes(Deal(nodes, q)), LeastLoaded(before));
    }
  }

  /** A call succeeds exactly if no queue has clashing identifiers or, in strict mode, a
      negative dispersion, and the budget has the minimum for every node. Uneven queues and
      the rounding of their shares never starve a queue. */
  lemma {:induction false} ScheduleAccepts(nodes: seq<Node>, q: nat, total: int, nMin: nat, strict: bool, store: Store)
    requires q > 0 && Stored(nodes, store)
    ensures AllStored(Deal(nodes, q), store)
    ensures Schedule(nodes, q, total, nMin, strict, store).error.None? <==>
      && (forall j :: 0 <= j < q ==> Acceptable(Deal(nodes, q)[j], store, strict))
      && Max(nMin, 1) * |nodes| <= Max(total, 0)
  {
    hide Deal;
    hide Serve;
    hide Acceptable;
    hide Agree;
    hide Placed;
    hide ShareOf;
    hide Total;
    var queues, start := Deal(nodes, q), Start(nodes, q, total, store);
    DealStored(nodes, q, store);
    DealStored(nodes, q, start.store);
    DealTotal(nodes, q);
    PlacedAgrees(nodes, q, |nodes|, store, strict);
    ServeAccepts(queues, q, start, nMin, strict);
    assert queues[..q] == queues;
    forall j | 0 <= j < q ensures Acceptable(queues[j], start.store, strict) <==> Acceptable(queues[j], store, strict) {
      AgreeAcceptable(queues[j], store, start.store, strict);
    }
    forall j | 0 <= j < q && queues[j] == [] ensures Acceptable(queues[j], store, strict) {
      EmptyAcceptable(store, strict);
    }
    ServableAll(queues, start.store, Max(total, 0), nMin, strict);
  }

  lemma EmptyAcceptable(store: Store, strict: bool)
    ensures Acceptable([], store, strict)
  {
  }

  lemma ServableAll(queues: seq<seq<Node>>, store: Store, total: nat, nMin: nat, strict: bool)
    requires AllStored(queues, store)
    ensures (forall j :: 0 <= j < |queues| ==> Servable(queues, j, store, total, nMin, strict)) <==>
      && (forall j :: 0 <= j < |queues| ==> Acceptable(queues[j], store, strict))
      && Max(nMin, 1) * Total(Sizes(queues)) <= total
  {
    hide Acceptable;
    hide ShareOf;
    hide Total;
    var sizes, f := Sizes(queues), Max(nMin, 1);
    forall j | 0 <= j < |queues| && queues[j] == []
      ensures Acceptable(queues[j], store, strict) && f * sizes[j] <= ShareOf(sizes, total, j)
    {
      EmptyAcceptable(store, strict);
      EmptyShare(sizes, total, j);
    }
    if Total(sizes) > 0 {
      EnoughForAll(sizes, total, f);
      assert forall j :: 0 <= j < |queues| ==>
        (Servable(queues, j, store, total, nMin, strict) <==>
          Acceptable(queues[j], store, strict) && f * sizes[j] <= ShareOf(sizes, total, j));
    } else {
      forall j | 0 <= j < |queues| ensures queues[j] == [] {
        SizeBelowTotal(sizes, j);
      }
      assert f * Total(sizes) == 0;
    }
  }

  lemma EmptyShare(sizes: seq<nat>, total: int, j: nat)
    requires j < |sizes| && sizes[j] == 0
    ensures ShareOf(sizes, total, j) == 0
  {
  }

  lemma {:induction false} SizeBelowTotal(sizes: seq<nat>, j: nat)
    requires j < |sizes|
    ensures sizes[j] <= Total(sizes)
  {
    if j < |sizes| - 1 {
      SizeBelowTotal(sizes[..|sizes| - 1], j);
    }
  }

  ghost function Handed(summaries: seq<Summary>): int {
    if summaries == [] then 0
    else
      var n := |summaries| - 1;
      Handed(summaries[..n]) + summaries[n].granted + summaries[n].underallocated
  }

  lemma {:induction false} ServeHands(queues: seq<seq<Node>>, start: Progress, nMin: int, strict: bool)
    requires AllStored(queues, start.store)
    ensures var r := Serve(queues, start, nMin, strict);
      Handed(r.summaries) + r.rest.budget == Handed(start.summaries) + start.rest.budget
  {
    hide AllocateStore;
    hide Allocate;
    hide QueueBudget;
    if queues != [] {
      var n := |queues| - 1;
      assert forall j :: 0 <= j < n ==> queues[..n][j] == queues[j];
      ServeHands(queues[..n], start, nMin, strict);
      OneHands(queues[n], Serve(queues[..n], start, nMin, strict), nMin, strict);
    }
  }

  lemma OneHands(queue: seq<Node>, p: Progress, nMin: int, strict: bool)
    requires Stored(queue, p.store)
    ensures var r := ServeOne(queue, p, nMin, strict);
      Handed(r.summaries) + r.rest.budget == Handed(p.summaries) + p.rest.budget
  {
    hide AllocateStore;
    hide Allocate;
    hide QueueBudget;
    hide Contents;
    if p.error.None? && queue != [] {
      var cfg := DefaultConfig(QueueBudget(p.rest, |queue|), nMin, strict);
      var r := Allocate(Contents(queue, Only(queue, p.store)), cfg);
      if r.Ok? {
        HandsBudget(Contents(queue, Only(queue, p.store)), cfg, r.value);
        assert (p.summaries + [r.value])[..|p.summaries|] == p.summaries;
      }
    }
  }

  lemma HandsBudget(fs: seq<Fields>, cfg: Config, s: Summary)
    requires Allocate(fs, cfg) == Ok(s)
    ensures s.granted + s.underallocated == cfg.totalBudget
  {
    hide Allocate;
    AllocateBalanced(fs, cfg, s);
  }

  /** Nothing of the budget is lost between the queues: what the queues allocate and what
      they report as under-allocated add up to the total. */
  lemma ScheduleConserves(nodes: seq<Node>, q: nat, total: int, nMin: nat, strict: bool, store: Store)
    requires q > 0 && Stored(nodes, store) && nodes != []
    requires Schedule(nodes, q, total, nMin, strict, store).error.None?
    ensures Handed(Schedule(nodes, q, total, nMin, strict, store).summaries) == Max(total, 0)
  {
    hide Deal;
    hide Serve;
    hide Placed;
    hide Servable;
    hide Agree;
    var queues, start := Deal(nodes, q), Start(nodes, q, total, store);
    DealStored(nodes, q, start.store);
    DealTotal(nodes, q);
    ServeAccepts(queues, q, start, nMin, strict);
    assert queues[..q] == queues && Sizes(queues)[..q] == Sizes(queues);
    ServeHands(queues, start, nMin, strict);
    SharesTaken(Sizes(queues), Max(total, 0), q);
    SharesSum(Sizes(queues), Max(total, 0));
  }
}
