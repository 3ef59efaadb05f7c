/** Walking a tree with an explicit stack, and the totals reported for it. */
module TreeSummary {
  import opened Prelude
  import opened Schema
  import opened NodeKeys

  datatype Tree = Tree(fields: Fields, children: seq<Tree>)

  /** The node, then each child's walk, left to right. */
  function Preorder(t: Tree): seq<Tree>
    decreases t, 1
  {
    [t] + PreorderAll(t.children)
  }

  function PreorderAll(ts: seq<Tree>): seq<Tree>
    decreases ts, 0
  {
    if ts == [] then [] else Preorder(ts[0]) + PreorderAll(ts[1..])
  }

  function Reverse<T>(s: seq<T>): (r: seq<T>)
    ensures |r| == |s|
    ensures forall i :: 0 <= i < |s| ==> r[i] == s[|s| - 1 - i]
  {
    if s == [] then [] else Reverse(s[1..]) + [s[0]]
  }

  lemma {:induction false} ReverseTwice<T>(s: seq<T>)
    ensures Reverse(Reverse(s)) == s
  {
  }

  lemma {:induction false} ReverseAppend<T>(s: seq<T>, t: seq<T>)
    ensures Reverse(s + t) == Reverse(t) + Reverse(s)
  {
  }

  lemma {:induction false} PreorderAppend(s: seq<Tree>, t: seq<Tree>)
    ensures PreorderAll(s + t) == PreorderAll(s) + PreorderAll(t)
  {
    if s == [] {
      assert s + t == t;
    } else {
      assert (s + t)[1..] == s[1..] + t;
      PreorderAppend(s[1..], t);
    }
  }

  /** Replacing the top of the stack by its reversed children takes one node off the walk. */
  lemma {:induction false} PopPush(rest: seq<Tree>, node: Tree)
    ensures PreorderAll(Reverse(rest + [node])) == [node] + PreorderAll(Reverse(rest + Reverse(node.children)))
  {
    var r := Reverse(rest);
    calc {
      PreorderAll(Reverse(rest + [node]));
      { ReverseAppend(rest, [node]); assert Reverse([node]) == [node]; }
      PreorderAll([node] + r);
      { assert ([node] + r)[1..] == r; }
      [node] + PreorderAll(node.children) + PreorderAll(r);
      [node] + (PreorderAll(node.children) + PreorderAll(r));
      { PreorderAppend(node.children, r); }
      [node] + PreorderAll(node.children + r);
      { ReverseAppend(rest, Reverse(node.children)); ReverseTwice(node.children); }
      [node] + PreorderAll(Reverse(rest + Reverse(node.children)));
    }
  }

  /** iter_tree_nodes: the top of the stack is its last element. */
  method IterTreeNodes(tree: Tree) returns (visited: seq<Tree>)
    ensures visited == Preorder(tree)
  {
    visited := [];
    var stack := [tree];
    assert Reverse(stack) == [tree];
    assert PreorderAll([tree]) == Preorder(tree) + PreorderAll([]);
    while stack != []
      invariant visited + PreorderAll(Reverse(stack)) == Preorder(tree)
      decreases |PreorderAll(Reverse(stack))|
    {
      var node := stack[|stack| - 1];
      var rest := stack[..|stack| - 1];
      assert stack == rest + [node];
      PopPush(rest, node);
      visited := visited + [node];
      stack := rest + Reverse(node.children);
    }
  }

  datatype Totals = Totals(requested: int, granted: int, built: int, saved: int, redistributed: int,
                           contributed: int, consumed: int)

  function ReserveRemaining(t: Totals): int {
    Max(t.contributed - t.consumed, 0)
  }

  /** One node's contribution to the running totals. */
  function AddNode(t: Totals, node: Tree): Totals {
    var f := node.fields;
    var granted := NodeAllocatedK(f);
    var a := f.accounting;
    Totals(
      t.requested + ValueOr(f.vdraDefaultK, 0),
      t.granted + ValueOr(granted, 0),
      t.built + (if granted.Some? then |node.children| else 0),
      t.saved + (if a.Some? then a.value.saved else 0),
      t.redistributed + (if a.Some? then a.value.additional else 0),
      t.contributed + (if a.Some? then a.value.contribution else 0),
      t.consumed + (if a.Some? then a.value.received else 0))
  }

  function Tally(nodes: seq<Tree>): Totals {
    if nodes == [] then Totals(0, 0, 0, 0, 0, 0, 0)
    else AddNode(Tally(nodes[..|nodes| - 1]), nodes[|nodes| - 1])
  }

  method SummarizeTree(tree: Tree) returns (t: Totals)
    ensures t == Tally(Preorder(tree))
  {
    var nodes := IterTreeNodes(tree);
    t := Totals(0, 0, 0, 0, 0, 0, 0);
    for i := 0 to |nodes|
      invariant t == Tally(nodes[..i])
    {
      assert nodes[..i + 1][..i] == nodes[..i];
      t := AddNode(t, nodes[i]);
    }
    assert nodes[..|nodes|] == nodes;
  }

  /** The node was written by write_node_accounting, or never took part in an allocation. */
  predicate Accounted(f: Fields) {
    || (Validates(f, 0) && NodeAllocatedK(f) == f.vdraAllocatedK)
    || (f.vdraDefaultK.None? && f.accounting.None? && NodeAllocatedK(f).None?)
  }

  lemma WriteAccounts(f: Fields, w: WriteArgs)
    ensures Accounted(WriteAccounting(f, w))
  {
    WrittenValidates(f, w);
  }

  /** Over a whole tree, what was saved less what was redistributed is exactly what was
      requested less what was granted, and the unused reserve is its positive part. */
  lemma {:induction false} TreeBalance(tree: Tree)
    requires forall t :: t in Preorder(tree) ==> Accounted(t.fields)
    ensures var t := Tally(Preorder(tree));
      && t.saved - t.redistributed == t.requested - t.granted
      && ReserveRemaining(t) == Max(t.requested - t.granted, 0)
  {
    TallyBalance(Preorder(tree));
  }

  lemma {:induction false} TallyBalance(nodes: seq<Tree>)
    requires forall t :: t in nodes ==> Accounted(t.fields)
    ensures var t := Tally(nodes);
      && t.saved - t.redistributed == t.requested - t.granted
      && t.contributed == t.saved && t.consumed == t.redistributed
  {
    if nodes != [] {
      TallyBalance(nodes[..|nodes| - 1]);
    }
  }

  /** The node holds an allocation under one of its keys. */
  predicate Held(f: Fields) {
    f.vdraAllocatedK.Some? || f.gearBranchAllocation.Some? || f.gearAllocatedBranchFactor.Some? || f.allocatedK.Some?
  }

  /** The children under nodes that hold no allocation. */
  function Unbuilt(nodes: seq<Tree>): nat {
    if nodes == [] then 0
    else
      var last := nodes[|nodes| - 1];
      Unbuilt(nodes[..|nodes| - 1]) + if Held(last.fields) then 0 else |last.children|
  }

  function ChildCount(nodes: seq<Tree>): nat {
    if nodes == [] then 0 else ChildCount(nodes[..|nodes| - 1]) + |nodes[|nodes| - 1].children|
  }

  lemma {:induction false} ChildCountAppend(a: seq<Tree>, b: seq<Tree>)
    ensures ChildCount(a + b) == ChildCount(a) + ChildCount(b)
  {
    if b == [] {
      assert a + b == a;
    } else {
      var n := |b| - 1;
      assert (a + b)[..|a + b| - 1] == a + b[..n];
      ChildCountAppend(a, b[..n]);
    }
  }

  /** Every node of a walk but the first one is a child of some node in it. */
  lemma {:induction false} WalkCounts(t: Tree)
    ensures ChildCount(Preorder(t)) == |Preorder(t)| - 1
    decreases t, 1
  {
    WalksCount(t.children);
    ChildCountAppend([t], PreorderAll(t.children));
    assert [t][..0] == [] && ChildCount([t]) == |t.children|;
  }

  lemma {:induction false} WalksCount(ts: seq<Tree>)
    ensures ChildCount(PreorderAll(ts)) == |PreorderAll(ts)| - |ts|
    decreases ts, 0
  {
    if ts != [] {
      WalkCounts(ts[0]);
      WalksCount(ts[1..]);
      ChildCountAppend(Preorder(ts[0]), PreorderAll(ts[1..]));
    }
  }

  lemma {:induction false} BuiltOrNot(nodes: seq<Tree>)
    ensures Tally(nodes).built + Unbuilt(nodes) == ChildCount(nodes)
  {
    if nodes != [] {
      BuiltOrNot(nodes[..|nodes| - 1]);
      HoldsAllocation(nodes[|nodes| - 1].fields);
    }
  }

  lemma HoldsAllocation(f: Fields)
    ensures NodeAllocatedK(f).Some? <==> Held(f)
  {
    var keys := [f.vdraAllocatedK, f.gearBranchAllocation, f.gearAllocatedBranchFactor, f.allocatedK];
    FirstOfFour(keys);
  }

  /** The branches reported as built are the nodes of the tree, but for its root and for the
      children of nodes without an allocation. */
  lemma {:induction false} BuiltCounts(tree: Tree)
    ensures Tally(Preorder(tree)).built == |Preorder(tree)| - 1 - Unbuilt(Preorder(tree))
  {
    BuiltOrNot(Preorder(tree));
    WalkCounts(tree);
  }

  function Plus(a: Totals, b: Totals): Totals {
    Totals(a.requested + b.requested, a.granted + b.granted, a.built + b.built, a.saved + b.saved,
           a.redistributed + b.redistributed, a.contributed + b.contributed, a.consumed + b.consumed)
  }

  /** What one node adds: its default, the first allocation it holds, its children if it holds
      one, and its record. */
  ghost predicate Owns(node: Tree, own: Totals) {
    var f, record := node.fields, node.fields.accounting;
    && FirstGiven([f.vdraDefaultK], 0, own.requested)
    && FirstGiven([f.vdraAllocatedK, f.gearBranchAllocation, f.gearAllocatedBranchFactor, f.allocatedK], 0, own.granted)
    && own.built == (if Held(f) then |node.children| else 0)
    && (record.Some? ==> own.saved == record.value.saved && own.contributed == record.value.contribution)
    && (record.Some? ==> own.redistributed == record.value.additional && own.consumed == record.value.received)
    && (record.None? ==> own.saved == own.redistributed == own.contributed == own.consumed == 0)
  }

  lemma OwnTally(node: Tree, own: Totals)
    requires Owns(node, own)
    ensures Tally([node]) == own
  {
    var f := node.fields;
    var keys := [f.vdraAllocatedK, f.gearBranchAllocation, f.gearAllocatedBranchFactor, f.allocatedK];
    FirstGivenIs([f.vdraDefaultK], 0, own.requested);
    FirstGivenIs(keys, 0, own.granted);
    HoldsAllocation(f);
    assert [node][..0] == [];
    assert Tally([node]) == AddNode(Tally([]), node);
  }

  lemma {:induction false} TallyAppend(a: seq<Tree>, b: seq<Tree>)
    ensures Tally(a + b) == Plus(Tally(a), Tally(b))
  {
    hide AddNode;
    if b == [] {
      assert a + b == a;
    } else {
      var n := |b| - 1;
      assert (a + b)[..|a + b| - 1] == a + b[..n];
      TallyAppend(a, b[..n]);
      AddsToTotals(Tally(a), Tally(b[..n]), b[n]);
    }
  }

  lemma AddsToTotals(a: Totals, b: Totals, node: Tree)
    ensures AddNode(Plus(a, b), node) == Plus(a, AddNode(b, node))
  {
  }

  /** The report of every subtree, added up. */
  function Subtotals(ts: seq<Tree>): Totals {
    if ts == [] then Totals(0, 0, 0, 0, 0, 0, 0) else Plus(Tally(Preorder(ts[0])), Subtotals(ts[1..]))
  }

  lemma {:induction false} SubtotalsTally(ts: seq<Tree>)
    ensures Subtotals(ts) == Tally(PreorderAll(ts))
  {
    hide AddNode;
    if ts != [] {
      TallyAppend(Preorder(ts[0]), PreorderAll(ts[1..]));
      SubtotalsTally(ts[1..]);
    }
  }

  /** The report of a tree is what its root adds and the reports of its subtrees, whatever the
      order in which they are visited. */
  lemma {:induction false} ReportOfTree(tree: Tree, own: Totals)
    requires Owns(tree, own)
    ensures Tally(Preorder(tree)) == Plus(own, Subtotals(tree.children))
  {
    hide AddNode;
    hide Owns;
    OwnTally(tree, own);
    TallyAppend([tree], PreorderAll(tree.children));
    SubtotalsTally(tree.children);
  }
}
