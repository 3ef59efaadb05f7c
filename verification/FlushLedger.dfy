/** The ledger of one queue flush: which flushes are accepted, when pruning pays for
    expansion, and what the node dictionaries say afterwards. */
module FlushLedger {
  import opened Prelude
  import opened Dicts
  import opened Schema
  import opened Separable
  import opened BranchCost
  import opened AllocatorSpec
  import opened AllocatorTheorems
  import opened OnlineSpec
  import opened WrittenNodes

  /** A flush finds the dictionaries of all its items. */
  ghost predicate Found(items: seq<Item>, store: Store) {
    forall i :: 0 <= i < |items| ==> items[i].node in store
  }

  /** And they are different dictionaries. */
  ghost predicate Flushable(items: seq<Item>, store: Store) {
    && Found(items, store)
    && (forall i, j :: 0 <= i < j < |items| ==> items[i].node != items[j].node)
  }

  lemma {:induction false} PrepareAt(items: seq<Item>, n: nat, store: Store, i: nat)
    requires Flushable(items, store) && n <= |items| && i < |items|
    ensures Prepare(items, n, store)[items[i].node] ==
      if i < n then Prepared(store[items[i].node], items[i]) else store[items[i].node]
  {
    hide Prepared;
    if n > 0 {
      PrepareAt(items, n - 1, store, i);
      if i != n - 1 {
        assert items[i].node != items[n - 1].node;
      }
    }
  }

  lemma {:induction false} RecordAt(items: seq<Item>, n: nat, s: Summary, nMin: int, wait: real,
                                    reason: FlushReason, store: Store, i: nat)
    requires Flushable(items, store) && n <= |items| && i < |items|
    ensures var f := store[items[i].node];
      Record(items, n, s, nMin, wait, reason, store)[items[i].node] ==
        if i < n then Recorded(f, items[i], NodeId(f, i), s, nMin, wait, reason) else f
  {
    hide Recorded;
    hide NodeId;
    if n > 0 {
      RecordAt(items, n - 1, s, nMin, wait, reason, store, i);
      if i != n - 1 {
        assert items[i].node != items[n - 1].node;
      }
    }
  }

  lemma NodesFound(items: seq<Item>, store: Store)
    requires Found(items, store)
    ensures forall n :: n in NodesOf(items) ==> n in store
  {
    forall n | n in NodesOf(items) ensures n in store {
      var i :| 0 <= i < |items| && NodesOf(items)[i] == n;
      assert items[i].node == n;
    }
  }

  /** What the allocator sees of each item; of a dictionary that is listed twice, what was
      written onto it last. */
  ghost function Seen(items: seq<Item>, store: Store): (fs: seq<Fields>)
    requires Found(items, store)
    ensures |fs| == |items|
  {
    NodesFound(items, store);
    Contents(NodesOf(items), Prepare(items, |items|, store))
  }

  lemma SeenAt(items: seq<Item>, store: Store, i: nat)
    requires Flushable(items, store) && i < |items|
    ensures Seen(items, store)[i] == Prepared(store[items[i].node], items[i])
  {
    hide Prepared;
    NodesFound(items, store);
    PrepareAt(items, |items|, store, i);
  }

  lemma OutcomeOfFlush(items: seq<Item>, p: Params, wait: real, reason: FlushReason, store: Store)
    requires Found(items, store)
    ensures FlushItems(items, p, wait, reason, store).1 == Allocate(Seen(items, store), FlushConfig(items, p))
  {
    hide Allocate;
    hide AllocateStore;
    hide FlushConfig;
    NodesFound(items, store);
  }

  /** A flush is accepted exactly when it holds items, their identifiers differ, strict mode
      finds no negative dispersion, and their budget covers one branch each. */
  lemma {:induction false} FlushAccepted(items: seq<Item>, p: Params, wait: real, reason: FlushReason, store: Store)
    requires Found(items, store)
    ensures FlushItems(items, p, wait, reason, store).1.Ok? <==>
      && items != []
      && DistinctIds(Seen(items, store))
      && ValidDispersions(Seen(items, store), FlushConfig(items, p))
      && BaseBudget(items, p.nMin) >= |items| * Max(p.nMin, 1)
  {
    hide Allocate;
    hide FlushItems;
    hide DistinctIds;
    hide ValidDispersions;
    hide Seen;
    OutcomeOfFlush(items, p, wait, reason, store);
    AllocateAccepts(Seen(items, store), FlushConfig(items, p));
  }

  /** Since the budget of an item is at least the minimum, a positive minimum rules the
      budget out as a reason for rejection. */
  lemma {:induction false} BudgetCoversMinimum(items: seq<Item>, nMin: int)
    ensures BaseBudget(items, nMin) >= |items| * nMin
  {
    if items != [] {
      BudgetCoversMinimum(items[..|items| - 1], nMin);
      assert |items| * nMin == (|items| - 1) * nMin + nMin;
    }
  }

  lemma DefaultAdded(t: map<string, Limits>, f: Fields, n: nat, cfg: Config)
    requires IntakeOne(t, f, n, cfg).Ok?
    ensures Sum(Defaults(IntakeOne(t, f, n, cfg).value)) == Sum(Defaults(t)) + LimitsOf(f, cfg).default
  {
    hide NodeId;
    hide RawDispersion;
    hide LimitsOf;
    var key, l := NodeId(f, n), LimitsOf(f, cfg);
    assert Defaults(t[key := l]) == Defaults(t)[key := l.default];
    SumSet(Defaults(t), key, l.default);
  }

  lemma NoDefaults()
    ensures Sum(Defaults(map[])) == 0
  {
    assert Defaults(map[]) == map[];
  }

  lemma SeenDefault(f: Fields, item: Item, cfg: Config)
    ensures LimitsOf(Prepared(f, item), cfg).default == Max(item.defaultK, cfg.Floor())
  {
  }

  /** The defaults of all nodes as the allocator takes them. */
  function DefaultTotal(fs: seq<Fields>, cfg: Config): int {
    if fs == [] then 0 else DefaultTotal(fs[..|fs| - 1], cfg) + LimitsOf(fs[|fs| - 1], cfg).default
  }

  lemma {:induction false} IntakeDefaultSum(fs: seq<Fields>, cfg: Config)
    requires Intake(fs, cfg).Ok?
    ensures Sum(Defaults(Intake(fs, cfg).value)) == DefaultTotal(fs, cfg)
  {
    hide NodeId;
    hide RawDispersion;
    hide LimitsOf;
    hide IntakeOne;
    hide Defaults;
    if fs == [] {
      NoDefaults();
    } else {
      var n := |fs| - 1;
      IntakeDefaultSum(fs[..n], cfg);
      DefaultAdded(Intake(fs[..n], cfg).value, fs[n], n, cfg);
    }
  }

  lemma {:induction false} SeenDefaultTotal(items: seq<Item>, store: Store, n: nat, cfg: Config)
    requires Flushable(items, store) && n <= |items|
    ensures DefaultTotal(Seen(items, store)[..n], cfg) == BaseBudget(items[..n], cfg.Floor())
  {
    hide LimitsOf;
    hide Prepared;
    hide Seen;
    var fs := Seen(items, store);
    if n > 0 {
      assert fs[..n][..n - 1] == fs[..n - 1] && items[..n][..n - 1] == items[..n - 1];
      SeenDefaultTotal(items, store, n - 1, cfg);
      SeenAt(items, store, n - 1);
      SeenDefault(store[items[n - 1].node], items[n - 1], cfg);
    }
  }

  /** Raising the minimum from zero to one leaves the budget alone exactly when every
      default is at least one. */
  lemma {:induction false} BudgetAtOne(items: seq<Item>)
    ensures BaseBudget(items, 0) <= BaseBudget(items, 1)
    ensures BaseBudget(items, 0) == BaseBudget(items, 1) <==> forall i :: 0 <= i < |items| ==> items[i].defaultK >= 1
  {
    if items != [] {
      var n := |items| - 1;
      BudgetAtOne(items[..n]);
      assert forall i :: 0 <= i < n ==> items[..n][i] == items[i];
      if BaseBudget(items, 0) == BaseBudget(items, 1) {
        assert items[n].defaultK >= 1;
      }
    }
  }

  /** The ledger of any accepted flush, also of one that lists a dictionary twice: pruning
      pays for expansion and slack exactly when the defaults that the allocator sees add up to
      the budget, and the transfer is the whole expansion exactly when they come to no less
      than what is allocated. */
  lemma {:induction false} FlushBalancesIff(items: seq<Item>, p: Params, wait: real, reason: FlushReason,
                                            store: Store, s: Summary)
    requires Found(items, store) && FlushItems(items, p, wait, reason, store).1 == Ok(s)
    ensures var fs, cfg := Seen(items, store), FlushConfig(items, p);
      && Intake(fs, cfg).Ok?
      && (Sum(s.pruned) == Sum(s.expanded) + s.underallocated <==> DefaultTotal(fs, cfg) == BaseBudget(items, p.nMin))
      && (s.transferred == Sum(s.expanded) <==> DefaultTotal(fs, cfg) >= Spendable(Intake(fs, cfg).value, cfg))
    ensures s.requested == BaseBudget(items, p.nMin) == s.granted + s.underallocated && s.underallocated >= 0
  {
    hide FlushItems;
    hide Allocate;
    hide Seen;
    hide FlushConfig;
    var fs, cfg := Seen(items, store), FlushConfig(items, p);
    OutcomeOfFlush(items, p, wait, reason, store);
    DefaultsOfFlush(fs, cfg, s);
    SettingOf(fs, cfg, s);
    AllocateLedger(fs, cfg, s);
    RequestedIsBudget(fs, cfg, s);
    ConfigOfFlush(items, p);
  }

  /** For different dictionaries: what is pruned pays for what is expanded and what no cap
      could take, exactly when the manager's minimum is positive or every item asks for at
      least one branch, and the transfer is the whole expansion in any case. */
  lemma {:induction false} FlushBalances(items: seq<Item>, p: Params, wait: real, reason: FlushReason,
                                         store: Store, s: Summary)
    requires Flushable(items, store) && FlushItems(items, p, wait, reason, store).1 == Ok(s)
    ensures Sum(s.pruned) == Sum(s.expanded) + s.underallocated <==>
      p.nMin >= 1 || forall i :: 0 <= i < |items| ==> items[i].defaultK >= 1
    ensures s.transferred == Sum(s.expanded)
    ensures s.requested == BaseBudget(items, p.nMin)
  {
    hide FlushItems;
    hide Seen;
    hide FlushConfig;
    FlushBalancesIff(items, p, wait, reason, store, s);
    SeenDefaultTotal(items, store, |items|, FlushConfig(items, p));
    assert Seen(items, store)[..|items|] == Seen(items, store) && items[..|items|] == items;
    ConfigOfFlush(items, p);
    BudgetAtOne(items);
  }

  /** Two items whose flush does not balance under a minimum of zero: one default is below the
      single branch that the allocator gives every node. */
  lemma UnbalancedFlush(a: Node, b: Node, p: Params, wait: real, reason: FlushReason)
    returns (items: seq<Item>, store: Store, s: Summary)
    requires a != b && p.nMin == 0
    ensures Flushable(items, store) && FlushItems(items, p, wait, reason, store).1 == Ok(s)
    ensures Sum(s.pruned) != Sum(s.expanded) + s.underallocated
  {
    hide FlushItems;
    hide DistinctIds;
    hide ValidDispersions;
    hide Seen;
    items := [Item(a, 0, 0, None, None), Item(b, 2, 0, None, None)];
    store := map[a := BLANK.(id := Some("a")), b := BLANK.(id := Some("b"))];
    TwoSeen(items, store, p);
    TwoBudget(items);
    FlushAccepted(items, p, wait, reason, store);
    s := FlushItems(items, p, wait, reason, store).1.value;
    FlushBalances(items, p, wait, reason, store, s);
    assert items[0].defaultK < 1;
  }

  lemma {:induction false} TwoBudget(items: seq<Item>)
    requires |items| == 2 && items[0].defaultK == 0 && items[1].defaultK == 2
    ensures BaseBudget(items, 0) == 2
  {
    assert items[..1][..0] == [];
    assert BaseBudget(items[..1], 0) == 0;
  }

  lemma TwoSeen(items: seq<Item>, store: Store, p: Params)
    requires |items| == 2 && Flushable(items, store)
    requires store[items[0].node] == BLANK.(id := Some("a")) && store[items[1].node] == BLANK.(id := Some("b"))
    requires items[0].weightKey.None? && items[1].weightKey.None?
    ensures DistinctIds(Seen(items, store)) && ValidDispersions(Seen(items, store), FlushConfig(items, p))
  {
    hide Seen;
    hide RawDispersion;
    hide BaseBudget;
    SeenAt(items, store, 0);
    SeenAt(items, store, 1);
    BlankPrepared(items[0], "a", 0);
    BlankPrepared(items[1], "b", 1);
    assert FlushConfig(items, p).weightKey.None?;
  }

  lemma BlankPrepared(item: Item, id: string, i: nat)
    requires id != ""
    ensures NodeId(Prepared(BLANK.(id := Some(id)), item), i) == id
    ensures RawDispersion(Prepared(BLANK.(id := Some(id)), item), None) == 0.0
  {
    NoneGiven<real>([None, None]);
  }

  /** A dictionary listed twice, with two defaults: the allocator sees the second one for both
      items, so that the budget exceeds the defaults and part of the expansion is no transfer. */
  lemma RepeatedFlush(a: Node, p: Params, wait: real, reason: FlushReason)
    returns (items: seq<Item>, store: Store, s: Summary)
    requires p.nMin < 12
    ensures Found(items, store) && FlushItems(items, p, wait, reason, store).1 == Ok(s)
    ensures s.transferred != Sum(s.expanded)
  {
    hide FlushItems;
    hide DistinctIds;
    hide ValidDispersions;
    hide Seen;
    hide Intake;
    hide LimitsOf;
    hide BaseBudget;
    hide FinalUppers;
    var m := Max(p.nMin, 1);
    items := [Item(a, m + 2, 0, None, None), Item(a, m, 0, None, None)];
    store := map[a := BLANK];
    RepeatedBudget(items, m, p.nMin);
    var fs, cfg := Seen(items, store), FlushConfig(items, p);
    RepeatedSeen(items, store, m);
    RepeatedLimits(fs, cfg, m);
    FlushAccepted(items, p, wait, reason, store);
    s := FlushItems(items, p, wait, reason, store).1.value;
    FlushBalancesIff(items, p, wait, reason, store, s);
    RepeatedSpending(fs, cfg, m);
  }

  /** Two nodes with default m, predicted m + 2 and no name. */
  ghost predicate Repeated(fs: seq<Fields>, m: int) {
    && |fs| == 2
    && forall i :: 0 <= i < 2 ==> fs[i] == BLANK.(vdraDefaultK := Some(m), vdraPredictedK := Some(m + 2))
  }

  lemma {:induction false} RepeatedBudget(items: seq<Item>, m: int, nMin: int)
    requires |items| == 2 && items[0].defaultK == m + 2 && items[1].defaultK == m && m == Max(nMin, 1)
    ensures BaseBudget(items, nMin) == 2 * m + 2
  {
    assert items[..1][..0] == [];
    assert BaseBudget(items[..1], nMin) == m + 2;
  }

  lemma {:induction false} RepeatedSeen(items: seq<Item>, store: Store, m: int)
    requires |items| == 2 && items[0].node == items[1].node && store == map[items[0].node := BLANK]
    requires items[0].defaultK == m + 2 && items[1].defaultK == m
    ensures Repeated(Seen(items, store), m)
  {
    var a := items[0].node;
    NodesFound(items, store);
    NoneGiven<int>([None, None]);
    assert Prepare(items, 0, store) == store;
    assert Prepare(items, 1, store)[a] == Prepared(BLANK, items[0]);
    assert Prepare(items, 2, store)[a] == Prepared(Prepared(BLANK, items[0]), items[1]);
  }

  lemma RepeatedLimits(fs: seq<Fields>, cfg: Config, m: int)
    requires Repeated(fs, m) && 1 <= m < 12 && cfg == DefaultConfig(cfg.totalBudget, cfg.nMin, cfg.strict)
    requires cfg.Floor() == m
    ensures DistinctIds(fs) && ValidDispersions(fs, cfg)
    ensures forall i :: 0 <= i < 2 ==> LimitsOf(fs[i], cfg).default == m && LimitsOf(fs[i], cfg).upper == 12
  {
    NoneGiven<real>([None, None]);
    assert Decimal(0) == "0" && Decimal(1) == "1";
    assert NodeId(fs[0], 0)[5] != NodeId(fs[1], 1)[5];
    assert FirstSome([Some(m), None, None]) == Some(m);
    assert FirstSome([Some(m + 2), None, None]) == Some(m + 2);
  }

  lemma {:induction false} RepeatedSpending(fs: seq<Fields>, cfg: Config, m: int)
    requires |fs| == 2 && Intake(fs, cfg).Ok? && m < 12 && cfg.totalBudget == 2 * m + 2
    requires forall i :: 0 <= i < 2 ==> LimitsOf(fs[i], cfg).default == m && LimitsOf(fs[i], cfg).upper == 12
    ensures DefaultTotal(fs, cfg) == 2 * m < Spendable(Intake(fs, cfg).value, cfg)
  {
    hide Intake;
    hide LimitsOf;
    hide NodeId;
    hide FinalUppers;
    var t := Intake(fs, cfg).value;
    IntakeDescribes(fs, cfg);
    TableWellPosed(fs, cfg);
    assert forall k :: k in t ==> t[k].upper == 12;
    assert Uppers(t).Keys == t.Keys && |Uppers(t).Keys| == |Uppers(t)|;
    SumConstant(Uppers(t), 12);
    assert fs[..1][..0] == [] && DefaultTotal(fs[..1], cfg) == m;
  }

  lemma {:induction false} ConfigOfFlush(items: seq<Item>, p: Params)
    ensures FlushConfig(items, p).totalBudget == BaseBudget(items, p.nMin)
    ensures FlushConfig(items, p).Floor() == Max(p.nMin, 1)
  {
  }

  lemma RequestedIsBudget(fs: seq<Fields>, cfg: Config, s: Summary)
    requires Allocate(fs, cfg) == Ok(s)
    ensures s.requested == cfg.totalBudget
  {
    hide Allocate;
    hide Greedily;
    AllocateBalanced(fs, cfg, s);
  }

  lemma {:induction false} DefaultsOfFlush(fs: seq<Fields>, cfg: Config, s: Summary)
    requires Allocate(fs, cfg) == Ok(s)
    ensures Sum(s.defaults) == DefaultTotal(fs, cfg)
    ensures s.requested == s.granted + s.underallocated && s.underallocated >= 0
  {
    hide Allocate;
    hide Greedily;
    DefaultsOfSummary(fs, cfg, s);
    IntakeDefaultSum(fs, cfg);
    AllocateBalanced(fs, cfg, s);
  }

  lemma {:induction false} DefaultsOfSummary(fs: seq<Fields>, cfg: Config, s: Summary)
    requires Allocate(fs, cfg) == Ok(s)
    ensures Intake(fs, cfg).Ok? && s.defaults == Defaults(Intake(fs, cfg).value)
    ensures s.lower == Lowers(Intake(fs, cfg).value, cfg) && s.allocations.Keys == Intake(fs, cfg).value.Keys
  {
    hide Allocate;
    hide Intake;
    hide WellPosed;
    hide FinalUppers;
    hide Allocation;
    hide Objective;
    hide Reference;
    AllocateSummarizes(fs, cfg);
    AllocateBalanced(fs, cfg, s);
  }

  /** A node after both accounting writes. Its own figures validate, its allocation and its
      saving are the summary's, and so is its addition exactly when its default is not
      below the minimum. */
  ghost predicate NodeAgrees(f: Fields, item: Item, key: string, s: Summary, nMin: int)
    requires key in s.allocations && key in s.pruned && key in s.expanded
  {
    && Validates(f, nMin)
    && f.vdraDefaultK == Some(item.defaultK)
    && f.vdraAllocatedK == Some(s.allocations[key])
    && f.accounting.value.saved == s.pruned[key]
    && (f.accounting.value.additional == s.expanded[key] <==> item.defaultK >= Max(nMin, 1))
    && f.flush.Some?
    && f.flush.value.pruned == s.pruned[key] && f.flush.value.expanded == s.expanded[key]
    && f.flush.value.transferred == s.transferred
    && f.flush.value.granted == s.granted && f.flush.value.requested == s.requested
  }

  /** The bounds, allocation and differences that a summary holds at one key. */
  predicate KeyBalanced(s: Summary, key: string, default: int, floor: int) {
    && key in s.allocations && key in s.lower && key in s.upper && key in s.defaults
    && key in s.pruned && key in s.expanded
    && s.lower[key] == floor && floor <= s.allocations[key] <= s.upper[key]
    && s.defaults[key] == Max(default, floor)
    && s.pruned[key] == Max(s.defaults[key] - s.allocations[key], 0)
    && s.expanded[key] == Max(s.allocations[key] - s.defaults[key], 0)
  }

  lemma RecordedAgrees(f: Fields, item: Item, key: string, s: Summary, nMin: int, wait: real, reason: FlushReason)
    requires nMin >= 0 && KeyBalanced(s, key, item.defaultK, Max(nMin, 1))
    ensures NodeAgrees(Recorded(f, item, key, s, nMin, wait, reason), item, key, s, nMin)
  {
    hide NodeId;
    var w := FlushArgs(f, item, key, s, nMin);
    var r := WriteAccounting(f, w);
    assert r.vdraDefaultK == Some(item.defaultK);
    assert r.vdraAllocatedK == Some(s.allocations[key]);
    WrittenValidates(f, w);
  }

  lemma KeyIsBalanced(items: seq<Item>, store: Store, p: Params, s: Summary, i: nat)
    requires Flushable(items, store) && i < |items|
    requires Allocate(Seen(items, store), FlushConfig(items, p)) == Ok(s)
    ensures KeyBalanced(s, NodeId(store[items[i].node], i), items[i].defaultK, Max(p.nMin, 1))
  {
    hide Allocate;
    hide NodeId;
    hide LimitsOf;
    hide Seen;
    hide FlushConfig;
    var fs, cfg := Seen(items, store), FlushConfig(items, p);
    SeenItem(items, store, p, i);
    SummaryAtKey(fs, cfg, s, i);
  }

  lemma SeenItem(items: seq<Item>, store: Store, p: Params, i: nat)
    requires Flushable(items, store) && i < |items|
    ensures i < |Seen(items, store)| && FlushConfig(items, p).Floor() == Max(p.nMin, 1)
    ensures NodeId(Seen(items, store)[i], i) == NodeId(store[items[i].node], i)
    ensures LimitsOf(Seen(items, store)[i], FlushConfig(items, p)).default == Max(items[i].defaultK, Max(p.nMin, 1))
  {
    hide Seen;
    SeenAt(items, store, i);
  }

  lemma SummaryAtKey(fs: seq<Fields>, cfg: Config, s: Summary, i: nat)
    requires Allocate(fs, cfg) == Ok(s) && i < |fs|
    ensures KeyBalanced(s, NodeId(fs[i], i), LimitsOf(fs[i], cfg).default, cfg.Floor())
  {
    hide Allocate;
    hide Intake;
    hide LimitsOf;
    hide NodeId;
    hide Greedily;
    hide WellPosed;
    DefaultsOfSummary(fs, cfg, s);
    IntakeDescribes(fs, cfg);
    IntakeInOrder(fs, cfg);
    AllocateBalanced(fs, cfg, s);
  }

  /** After an accepted flush every node of the queue agrees with the summary. */
  lemma FlushedNodesAgree(items: seq<Item>, p: Params, wait: real, reason: FlushReason, store: Store,
                          s: Summary, i: nat)
    requires Flushable(items, store) && i < |items|
    requires FlushItems(items, p, wait, reason, store).1 == Ok(s)
    ensures var key := NodeId(store[items[i].node], i);
      && key in s.allocations && key in s.pruned && key in s.expanded
      && NodeAgrees(FlushItems(items, p, wait, reason, store).0[items[i].node], items[i], key, s, p.nMin)
  {
    OutcomeOfFlush(items, p, wait, reason, store);
    KeyIsBalanced(items, store, p, s, i);
    var f := FlushedFields(items, p, wait, reason, store, s, i);
    RecordedAgrees(f, items[i], NodeId(store[items[i].node], i), s, p.nMin, wait, reason);
  }

  lemma FlushedFields(items: seq<Item>, p: Params, wait: real, reason: FlushReason, store: Store, s: Summary, i: nat)
    returns (f: Fields)
    requires Flushable(items, store) && i < |items|
    requires FlushItems(items, p, wait, reason, store).1 == Ok(s)
    ensures FlushItems(items, p, wait, reason, store).0[items[i].node] ==
      Recorded(f, items[i], NodeId(store[items[i].node], i), s, p.nMin, wait, reason)
  {
    hide Allocate;
    hide FlushConfig;
    hide Recorded;
    hide WriteAccounting;
    hide TraceArgs;
    hide Prepared;
    hide NodeId;
    var nodes, cfg := NodesOf(items), FlushConfig(items, p);
    var prepared := Prepare(items, |items|, store);
    NodesFound(items, store);
    PrepareAt(items, |items|, store, i);
    assert forall j, k :: 0 <= j < k < |nodes| ==> nodes[j] != nodes[k];
    WriteBackAt(nodes, |nodes|, s, cfg, prepared, i);
    f := AllocateStore(nodes, cfg, prepared)[items[i].node];
    SameIdThroughout(store[items[i].node], items[i], s, cfg, i);
    RecordAt(items, |items|, s, p.nMin, wait, reason, AllocateStore(nodes, cfg, prepared), i);
  }

  lemma SameIdThroughout(f: Fields, item: Item, s: Summary, cfg: Config, i: nat)
    ensures NodeId(Prepared(f, item), i) == NodeId(f, i)
    ensures forall w :: NodeId(WriteAccounting(Prepared(f, item), w), i) == NodeId(f, i)
  {
  }

  /** The primary fields of a flush record. */
  datatype FlushRecord = FlushRecord(
    queueId: nat, size: nat, reason: FlushReason, wait: real, defaultBudget: int,
    pruned: int, expanded: int, transferred: int, residual: int)

  /** QueueFlushResult.to_record; a flush never draws on the reserve. */
  ghost function ToRecord(r: FlushResult): FlushRecord {
    var pruned, expanded := Sum(r.summary.pruned), Sum(r.summary.expanded);
    FlushRecord(r.queueId, |r.items|, r.reason, r.wait, r.baseBudget, pruned, expanded, expanded, Max(0 - expanded, 0))
  }

  /** The allocator accepted these items, in some state of the dictionaries, and r reports it. */
  ghost predicate Reports(r: FlushResult, p: Params, store: Store) {
    && Flushable(r.items, store)
    && FlushItems(r.items, p, r.wait, r.reason, store).1 == Ok(r.summary)
    && r.baseBudget == BaseBudget(r.items, p.nMin)
  }

  /** The record of an accepted flush and the allocator's summary tell the same story. */
  lemma RecordAgrees(r: FlushResult, p: Params, store: Store)
    requires Reports(r, p, store)
    ensures var record := ToRecord(r);
      && record.transferred == r.summary.transferred
      && record.residual == 0
      && record.queueId == r.queueId && record.size == |r.items| && record.reason == r.reason && record.wait == r.wait
      && record.defaultBudget == r.summary.requested == r.summary.granted + r.summary.underallocated
      && (record.pruned == record.expanded + r.summary.underallocated <==>
            p.nMin >= 1 || forall i :: 0 <= i < |r.items| ==> r.items[i].defaultK >= 1)
  {
    hide FlushItems;
    hide Allocate;
    hide FlushConfig;
    hide Seen;
    FlushBalances(r.items, p, r.wait, r.reason, store, r.summary);
    OutcomeOfFlush(r.items, p, r.wait, r.reason, store);
    ExpandedPositive(Seen(r.items, store), FlushConfig(r.items, p), r.summary);
  }

  /** The defaults come to no less than what was allocated. */
  ghost predicate DefaultsSuffice(s: Summary) {
    Sum(s.defaults) >= s.granted
  }

  /** What the summary transfers and what the record of the flush reports as transferred: never
      more, and the same exactly when the defaults suffice. */
  lemma RecordCounts(r: FlushResult, p: Params, store: Store)
    requires Found(r.items, store) && FlushItems(r.items, p, r.wait, r.reason, store).1 == Ok(r.summary)
    ensures r.summary.transferred <= ToRecord(r).transferred
    ensures r.summary.transferred == ToRecord(r).transferred <==> DefaultsSuffice(r.summary)
  {
    hide FlushItems;
    hide Allocate;
    hide FlushConfig;
    hide Seen;
    hide Greedily;
    hide WellPosed;
    var fs, cfg := Seen(r.items, store), FlushConfig(r.items, p);
    OutcomeOfFlush(r.items, p, r.wait, r.reason, store);
    AllocateLedger(fs, cfg, r.summary);
    AllocateBalanced(fs, cfg, r.summary);
  }

  lemma ExpandedPositive(fs: seq<Fields>, cfg: Config, s: Summary)
    requires Allocate(fs, cfg) == Ok(s)
    ensures Sum(s.expanded) >= 0 && s.requested == s.granted + s.underallocated
  {
    hide Allocate;
    hide Greedily;
    hide WellPosed;
    AllocateBalanced(fs, cfg, s);
    NotNegative(s.expanded);
  }

  lemma {:induction false} NotNegative(m: map<string, int>)
    requires forall k :: k in m ==> m[k] >= 0
    ensures Sum(m) >= 0
  {
    var zeros := map k | k in m :: 0;
    SumLeq(zeros, m);
    SumConstant(zeros, 0);
  }
}
