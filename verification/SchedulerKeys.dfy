/** The scheduler from the keys of its nodes: the queue number each is marked with, what each
    queue's summary says of it, and what it holds afterwards. */
module SchedulerKeys {
  import opened Prelude
  import opened Dicts
  import opened Schema
  import opened AllocatorSpec
  import opened AllocatorTheorems
  import opened NodeKeys
  import opened SummaryKeys
  import opened WrittenNodes
  import opened Sharing
  import opened SchedulerSpec

  ghost predicate Different(nodes: seq<Node>) {
    forall j, k :: 0 <= j < k < |nodes| ==> nodes[j] != nodes[k]
  }

  /** Of different nodes the i-th is marked with i mod q, and otherwise as it was. */
  lemma {:induction false} PlacedAt(nodes: seq<Node>, q: nat, n: nat, store: Store, i: nat)
    requires q > 0 && n <= |nodes| && Stored(nodes, store) && Different(nodes) && i < |nodes|
    ensures Placed(nodes, q, n, store)[nodes[i]] ==
      if i < n then store[nodes[i]].(queueId := Some(i % q)) else store[nodes[i]]
  {
    hide LeastLoaded;
    hide Deal;
    if n > 0 {
      PlacedAt(nodes, q, n - 1, store, i);
      EvenLoads(nodes[..n - 1], q);
      assert |nodes[..n - 1]| == n - 1;
      if i != n - 1 {
        assert nodes[i] != nodes[n - 1];
      }
    }
  }

  /** What a queue hands to the allocator: its share, and the keyword defaults for everything
      else. */
  lemma DefaultsTold(budget: int, nMin: int, strict: bool)
    ensures var cfg := DefaultConfig(budget, nMin, strict);
      && cfg.totalBudget == budget && cfg.nMin == nMin && cfg.strict == strict
      && cfg.capMode == BelowDefaultOnly && cfg.maxK == 12 && cfg.policy == ExpandNonredundantCaps
      && cfg.maxRepairK.None? && cfg.weightKey.None?
  {
  }

  /** A queue that was served: its summary is the last one, for its share of what was left. */
  ghost predicate Served(queue: seq<Node>, p: Progress, nMin: int, strict: bool, s: Summary)
    requires Stored(queue, p.store)
  {
    var r := ServeOne(queue, p, nMin, strict);
    && queue != [] && p.error.None? && r.error.None? && r.summaries == p.summaries + [s]
    && Allocate(Contents(queue, p.store), DefaultConfig(s.requested, nMin, strict)) == Ok(s)
  }

  lemma ServedSummary(queue: seq<Node>, p: Progress, nMin: int, strict: bool) returns (s: Summary)
    requires Stored(queue, p.store) && queue != [] && p.error.None?
    requires ServeOne(queue, p, nMin, strict).error.None?
    ensures Served(queue, p, nMin, strict, s)
    ensures s.requested == QueueBudget(p.rest, |queue|)
    ensures ServeOne(queue, p, nMin, strict).rest ==
      Rest(p.rest.budget - s.requested, p.rest.nodes - |queue|)
  {
    hide Allocate;
    hide AllocateStore;
    hide QueueBudget;
    hide Greedily;
    var local, cfg := Only(queue, p.store), DefaultConfig(QueueBudget(p.rest, |queue|), nMin, strict);
    assert Contents(queue, local) == Contents(queue, p.store);
    s := Allocate(Contents(queue, local), cfg).value;
    AllocateBalanced(Contents(queue, local), cfg, s);
  }

  /** Its bounds, from the keys of its nodes. No cap is ever lifted. */
  lemma {:induction false} ServedFromKeys(queue: seq<Node>, p: Progress, nMin: int, strict: bool, s: Summary, i: nat,
                                          key: string, t: Told)
    requires Stored(queue, p.store) && Served(queue, p, nMin, strict, s) && i < |queue|
    requires GoesBy(p.store[queue[i]], i, key)
    requires Tells(p.store[queue[i]], DefaultConfig(s.requested, nMin, strict), t)
    ensures Fits(s, key)
    ensures s.defaults[key] == t.default && s.predicted[key] == t.predicted && s.dispersion[key] == t.dispersion
    ensures s.lower[key] == Max(nMin, 1)
    ensures s.upper[key] == if t.predicted < t.default then t.predicted else Max(12, Max(nMin, 1))
  {
    hide Allocate;
    hide ServeOne;
    hide GoesBy;
    hide Tells;
    hide NodeId;
    var fs, cfg := Contents(queue, p.store), DefaultConfig(s.requested, nMin, strict);
    DefaultsTold(s.requested, nMin, strict);
    assert fs[i] == p.store[queue[i]];
    var before := SummaryFromKeys(fs, cfg, s);
    assert Records(s, key, cfg, t, before);
    GoesByIs(fs[i], i, key);
    SummaryFits(fs, cfg, s, i);
  }

  /** Its nodes carry the figures of the summary afterwards, if they are different, and all
      other dictionaries are as they were. */
  lemma {:induction false} ServedNodes(queue: seq<Node>, p: Progress, nMin: int, strict: bool, s: Summary, i: nat)
    requires Stored(queue, p.store) && Served(queue, p, nMin, strict, s) && i < |queue| && Different(queue)
    ensures var after := ServeOne(queue, p, nMin, strict).store;
      var key := NodeId(p.store[queue[i]], i);
      && Fits(s, key) && Carries(after[queue[i]], s, key) && SameOtherwise(p.store[queue[i]], after[queue[i]])
      && forall m :: m in p.store && m !in queue ==> after[m] == p.store[m]
  {
    hide Allocate;
    hide NodeId;
    hide Carries;
    hide Fits;
    hide SameOtherwise;
    hide QueueBudget;
    hide WriteBack;
    var local := Only(queue, p.store);
    assert Contents(queue, local) == Contents(queue, p.store);
    var cfg := DefaultConfig(QueueBudget(p.rest, |queue|), nMin, strict);
    assert (p.summaries + [s])[|p.summaries|] == s;
    assert Allocate(Contents(queue, local), cfg) == Ok(s);
    NodesAfterCall(queue, cfg, local, s, i);
    OthersKept(queue, cfg, local);
  }

  lemma OthersKept(queue: seq<Node>, cfg: Config, local: Store)
    requires Stored(queue, local)
    ensures AllocateStore(queue, cfg, local).Keys == local.Keys
  {
    hide Allocate;
  }
}
