/** One flush from the keys of its items: what the allocator is told, with and without the
    override of the weights, and what every dictionary holds afterwards. */
module FlushKeys {
  import opened Prelude
  import opened Dicts
  import opened Schema
  import opened BranchCost
  import opened AllocatorSpec
  import opened AllocatorTheorems
  import opened OnlineSpec
  import opened NodeKeys
  import opened SummaryKeys
  import opened WrittenNodes
  import opened FlushLedger

  /** Some item asks for the override of the weights. */
  predicate Overrides(items: seq<Item>) {
    exists j :: 0 <= j < |items| && items[j].weightKey == Some("gear_allocation_weight_override")
  }

  /** The key that weights are read from, if any. */
  function WeightFrom(items: seq<Item>): Option<string> {
    if Overrides(items) then Some("gear_allocation_weight_override") else None
  }

  /** What every item brings into the budget of a flush: its default, and at least the minimum. */
  function Brought(items: seq<Item>, nMin: int): map<nat, int> {
    map i: nat | i < |items| :: if items[i].defaultK >= nMin then items[i].defaultK else nMin
  }

  lemma {:induction false} BudgetIsBrought(items: seq<Item>, nMin: int)
    ensures BaseBudget(items, nMin) == Sum(Brought(items, nMin))
  {
    if items == [] {
      assert Brought(items, nMin) == map[];
    } else {
      var n: nat := |items| - 1;
      BudgetIsBrought(items[..n], nMin);
      SumSet(Brought(items[..n], nMin), n, Brought(items, nMin)[n]);
      assert Brought(items, nMin) == Brought(items[..n], nMin)[n := Brought(items, nMin)[n]];
    }
  }

  /** What an item tells in a flush: its own default; the prediction on its node, or else its
      default; and the dispersion on its node, or the squared weight under the override. */
  ghost predicate ItemTells(f: Fields, items: seq<Item>, i: nat, nMin: int, t: Told)
    requires i < |items|
  {
    && t.default == Max(items[i].defaultK, Max(nMin, 1))
    && (exists pk :: FirstGiven([f.vdraPredictedK, f.gearPredictedK], items[i].defaultK, pk)
                     && t.predicted == Max(pk, Max(nMin, 1)))
    && (exists c :: TellsDispersion(f, WeightFrom(items), c) && t.dispersion == if c >= 0.0 then c else 0.0)
  }

  lemma {:induction false} PreparedTells(f: Fields, items: seq<Item>, i: nat, p: Params, t: Told)
    requires i < |items| && ItemTells(f, items, i, p.nMin, t)
    ensures Tells(Prepared(f, items[i]), FlushConfig(items, p), t)
  {
    hide TellsDispersion;
    hide BaseBudget;
    var g, cfg, item := Prepared(f, items[i]), FlushConfig(items, p), items[i];
    var pk :| FirstGiven([f.vdraPredictedK, f.gearPredictedK], item.defaultK, pk)
      && t.predicted == Max(pk, Max(p.nMin, 1));
    FirstGivenIs([f.vdraPredictedK, f.gearPredictedK], item.defaultK, pk);
    FirstGivenIs([g.vdraPredictedK, g.gearPredictedK, g.predictedK], t.default, pk);
    FirstGivenIs([g.vdraDefaultK, g.defaultK, g.gearDefaultBranchFactor], cfg.totalBudget, item.defaultK);
    assert g.vdraPredictedK == Some(pk);
    var c :| TellsDispersion(f, WeightFrom(items), c) && t.dispersion == if c >= 0.0 then c else 0.0;
    SameTold(f, g, cfg.weightKey, c);
  }

  lemma SameTold(f: Fields, g: Fields, weightKey: Option<string>, c: real)
    requires g.numbers == f.numbers && g.vdraDispersionC == f.vdraDispersionC
    requires g.gearRewardVariance == f.gearRewardVariance
    ensures TellsDispersion(f, weightKey, c) <==> TellsDispersion(g, weightKey, c)
  {
  }

  /** What a flush hands to the allocator, said in full: the summed defaults, each at least the
      minimum, and the keyword defaults for everything else. */
  lemma ConfigTold(items: seq<Item>, p: Params)
    ensures var cfg := FlushConfig(items, p);
      && cfg.capMode == BelowDefaultOnly && cfg.maxK == 12 && cfg.policy == ExpandNonredundantCaps
      && cfg.maxRepairK.None? && cfg.nMin == p.nMin && cfg.strict == p.strict
      && cfg.weightKey == WeightFrom(items)
  {
  }

  /** The summary of an accepted flush, from the keys of its items: default, prediction,
      dispersion and bounds. No cap is ever lifted. */
  lemma {:induction false} FlushFromKeys(items: seq<Item>, p: Params, wait: real, reason: FlushReason, store: Store,
                                         s: Summary, i: nat, key: string, t: Told)
    requires Flushable(items, store) && FlushItems(items, p, wait, reason, store).1 == Ok(s) && i < |items|
    requires GoesBy(store[items[i].node], i, key) && ItemTells(store[items[i].node], items, i, p.nMin, t)
    ensures Fits(s, key)
    ensures s.defaults[key] == t.default && s.predicted[key] == t.predicted && s.dispersion[key] == t.dispersion
    ensures s.lower[key] == Max(p.nMin, 1)
    ensures s.upper[key] == if t.predicted < t.default then t.predicted else Max(12, Max(p.nMin, 1))
    ensures s.requested == Sum(Brought(items, p.nMin))
  {
    hide Allocate;
    hide FlushItems;
    hide FlushConfig;
    hide Prepared;
    hide GoesBy;
    hide Seen;
    hide Tells;
    hide ItemTells;
    hide NodeId;
    var fs, cfg := Seen(items, store), FlushConfig(items, p);
    OutcomeOfFlush(items, p, wait, reason, store);
    ConfigTold(items, p);
    SeenAt(items, store, i);
    PreparedTells(store[items[i].node], items, i, p, t);
    SameName(store[items[i].node], items[i], i, key);
    var before := SummaryFromKeys(fs, cfg, s);
    assert Records(s, key, cfg, t, before);
    GoesByIs(fs[i], i, key);
    SummaryFits(fs, cfg, s, i);
    RequestedIsBudget(fs, cfg, s);
    ConfigOfFlush(items, p);
    BudgetIsBrought(items, p.nMin);
  }

  lemma SameName(f: Fields, item: Item, i: nat, key: string)
    ensures GoesBy(f, i, key) <==> GoesBy(Prepared(f, item), i, key)
  {
  }

  /** Under the override a node that holds a weight counts with its square. */
  lemma OverrideCounts(items: seq<Item>, p: Params, wait: real, reason: FlushReason, store: Store, s: Summary,
                       i: nat, key: string, w: real)
    requires Flushable(items, store) && FlushItems(items, p, wait, reason, store).1 == Ok(s) && i < |items|
    requires GoesBy(store[items[i].node], i, key) && Overrides(items) && w >= 0.0
    requires "gear_allocation_weight_override" in store[items[i].node].numbers
    requires store[items[i].node].numbers["gear_allocation_weight_override"] == w
    ensures key in s.dispersion && s.dispersion[key] == w * w
  {
    hide FlushItems;
    hide GoesBy;
    hide ItemTells;
    var t := ItemTellsSomething(store[items[i].node], items, i, p.nMin, w * w);
    FlushFromKeys(items, p, wait, reason, store, s, i, key, t);
  }

  /** Without it the node's own dispersion counts. */
  lemma OwnDispersionCounts(items: seq<Item>, p: Params, wait: real, reason: FlushReason, store: Store, s: Summary,
                            i: nat, key: string, c: real)
    requires Flushable(items, store) && FlushItems(items, p, wait, reason, store).1 == Ok(s) && i < |items|
    requires GoesBy(store[items[i].node], i, key) && !Overrides(items) && c >= 0.0
    requires store[items[i].node].vdraDispersionC == Some(c)
    ensures key in s.dispersion && s.dispersion[key] == c
  {
    hide FlushItems;
    hide GoesBy;
    hide ItemTells;
    var f := store[items[i].node];
    FirstGivenIs([f.vdraDispersionC, f.gearRewardVariance], 0.0, c);
    var t := ItemTellsSomething(f, items, i, p.nMin, c);
    FlushFromKeys(items, p, wait, reason, store, s, i, key, t);
  }

  lemma ItemTellsSomething(f: Fields, items: seq<Item>, i: nat, nMin: int, c: real) returns (t: Told)
    requires i < |items| && c >= 0.0
    requires TellsDispersion(f, WeightFrom(items), c)
    ensures ItemTells(f, items, i, nMin, t) && t.dispersion == c
  {
    hide TellsDispersion;
    var keys := [f.vdraPredictedK, f.gearPredictedK];
    var pk := ValueOr(FirstSome(keys), items[i].defaultK);
    FirstGivenIs(keys, items[i].defaultK, pk);
    assert FirstGiven(keys, items[i].defaultK, pk);
    t := Told(Max(items[i].defaultK, Max(nMin, 1)), Max(pk, Max(nMin, 1)), c);
  }

  /** A dictionary after an accepted flush: the figures of the summary with the item's own
      default, a full trace of the flush, and everything else as it was. */
  ghost predicate Flushed(g: Fields, f: Fields, item: Item, s: Summary, key: string, wait: real, reason: FlushReason)
    requires Fits(s, key)
  {
    && g.accounting.Some? && g.accounting.value.cap == s.upper[key] && g.accounting.value.base == s.lower[key]
    && g.accounting.value.saved == Max(item.defaultK - s.allocations[key], 0)
    && g.accounting.value.additional == Max(s.allocations[key] - item.defaultK, 0)
    && g.vdraAllocatedK == g.gearBranchAllocation == g.gearAllocatedBranchFactor == Some(s.allocations[key])
    && g.vdraDefaultK == Some(item.defaultK)
    && g.vdraPredictedK == g.gearPredictedK == Some(s.predicted[key])
    && g.vdraDispersionC == g.gearRewardVariance == Some(s.dispersion[key])
    && g.flush == Some(FlushTrace(
                         s.requested, s.granted, s.pruned[key], s.expanded[key], s.transferred,
                         s.objectiveBefore, s.objectiveAfter, s.repairs, wait, reason))
    && SameOtherwise(f, g.(flush := f.flush))
  }

  lemma RecordedFlushed(f: Fields, g: Fields, item: Item, s: Summary, key: string, nMin: nat, wait: real,
                        reason: FlushReason)
    requires Fits(s, key) && s.lower[key] == Max(nMin, 1) && Carries(g, s, key) && SameOtherwise(f, g)
    ensures Flushed(Recorded(g, item, key, s, nMin, wait, reason), f, item, s, key, wait, reason)
  {
    hide NodeId;
  }

  lemma {:induction false} FlushedNode(items: seq<Item>, p: Params, wait: real, reason: FlushReason, store: Store,
                                       s: Summary, i: nat)
    requires Flushable(items, store) && FlushItems(items, p, wait, reason, store).1 == Ok(s) && i < |items|
    ensures var key := NodeId(store[items[i].node], i);
      && Fits(s, key)
      && Flushed(FlushItems(items, p, wait, reason, store).0[items[i].node], store[items[i].node], items[i], s, key,
                 wait, reason)
  {
    hide Allocate;
    hide FlushConfig;
    hide Recorded;
    hide WriteAccounting;
    hide TraceArgs;
    hide Prepared;
    hide NodeId;
    hide Carries;
    hide Fits;
    hide Flushed;
    hide SameOtherwise;
    var nodes, cfg, f := NodesOf(items), FlushConfig(items, p), store[items[i].node];
    var prepared := Prepare(items, |items|, store);
    NodesFound(items, store);
    PrepareAt(items, |items|, store, i);
    assert forall j, k :: 0 <= j < k < |nodes| ==> nodes[j] != nodes[k];
    var after := AllocateStore(nodes, cfg, prepared);
    NodesAfterCall(nodes, cfg, prepared, s, i);
    PreparedOtherwise(f, items[i], after[items[i].node], i);
    LowerOfFlush(items, p, store, s, i);
    NameCarried(prepared[items[i].node], after[items[i].node], i);
    RecordAt(items, |items|, s, p.nMin, wait, reason, after, i);
    RecordedFlushed(f, after[items[i].node], items[i], s, NodeId(f, i), p.nMin, wait, reason);
  }

  lemma NameCarried(f: Fields, g: Fields, i: nat)
    requires SameOtherwise(f, g)
    ensures NodeId(f, i) == NodeId(g, i)
  {
  }

  lemma PreparedOtherwise(f: Fields, item: Item, g: Fields, i: nat)
    requires SameOtherwise(Prepared(f, item), g)
    ensures SameOtherwise(f, g) && NodeId(f, i) == NodeId(Prepared(f, item), i)
  {
  }

  lemma {:induction false} LowerOfFlush(items: seq<Item>, p: Params, store: Store, s: Summary, i: nat)
    requires Flushable(items, store) && i < |items|
    requires Allocate(Seen(items, store), FlushConfig(items, p)) == Ok(s)
    ensures var key := NodeId(store[items[i].node], i);
      Fits(s, key) && s.lower[key] == Max(p.nMin, 1)
  {
    hide Allocate;
    hide FlushConfig;
    hide Prepared;
    hide NodeId;
    hide Fits;
    hide Seen;
    SeenAt(items, store, i);
    SummaryFits(Seen(items, store), FlushConfig(items, p), s, i);
    SameIdPrepared(store[items[i].node], items[i], i);
    ConfigTold(items, p);
  }

  lemma SameIdPrepared(f: Fields, item: Item, i: nat)
    ensures NodeId(Prepared(f, item), i) == NodeId(f, i)
  {
  }

  /** A rejected flush leaves the item's default and a prediction on each dictionary, and
      nothing else. */
  lemma {:induction false} RejectedNode(items: seq<Item>, p: Params, wait: real, reason: FlushReason, store: Store,
                                        i: nat, pk: int)
    requires Flushable(items, store) && FlushItems(items, p, wait, reason, store).1.Err? && i < |items|
    requires var f := store[items[i].node]; FirstGiven([f.vdraPredictedK, f.gearPredictedK], items[i].defaultK, pk)
    ensures FlushItems(items, p, wait, reason, store).0[items[i].node] ==
      store[items[i].node].(vdraDefaultK := Some(items[i].defaultK), vdraPredictedK := Some(pk))
  {
    hide Allocate;
    hide FlushConfig;
    var f := store[items[i].node];
    NodesFound(items, store);
    PrepareAt(items, |items|, store, i);
    FirstGivenIs([f.vdraPredictedK, f.gearPredictedK], items[i].defaultK, pk);
  }
}
