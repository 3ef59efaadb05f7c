/** Node dictionaries and the accounting record written onto them. */
module Schema {
  import opened Prelude

  /** Keys that only write_node_accounting writes; they appear and change together. */
  datatype Accounting = Accounting(
    cap: int, base: int, lower: int, upper: int,
    saved: int, unmet: int, additional: int,
    contribution: int, received: int)

  datatype FlushReason = Timeout | Capacity | FinalDrain

  /** Keys that only a queue flush writes. */
  datatype FlushTrace = FlushTrace(
    requested: int, granted: int, pruned: int, expanded: int, transferred: int,
    objectiveBefore: real, objectiveAfter: real, repairs: int, wait: real, reason: FlushReason)

  /** The contents of one node dictionary, by key. */
  datatype Fields = Fields(
    vdraNodeId: Option<string>, gearSegmentId: Option<string>, segmentId: Option<string>, id: Option<string>,
    vdraDefaultK: Option<int>, defaultK: Option<int>, gearDefaultBranchFactor: Option<int>,
    vdraPredictedK: Option<int>, gearPredictedK: Option<int>, predictedK: Option<int>,
    vdraDispersionC: Option<real>, gearRewardVariance: Option<real>, numbers: map<string, real>,
    vdraAllocatedK: Option<int>, gearBranchAllocation: Option<int>,
    gearAllocatedBranchFactor: Option<int>, allocatedK: Option<int>,
    accounting: Option<Accounting>, flush: Option<FlushTrace>,
    queueId: Option<int>, snapshotId: Option<string>)

  /** An empty dictionary. */
  const BLANK := Fields(
    None, None, None, None, None, None, None, None, None, None, None, None,
    map[], None, None, None, None, None, None, None, None)

  /** A node dictionary, shared and updated in place. */
  class Node {
    var fields: Fields

    constructor (fields: Fields)
      ensures this.fields == fields
    {
      this.fields := fields;
    }
  }

  function Truthy(s: Option<string>): bool {
    s.Some? && s.value != ""
  }

  /** node_id: the first non-empty identifier, or a name made from the position. */
  function NodeId(f: Fields, fallback: nat): string {
    if Truthy(f.vdraNodeId) then f.vdraNodeId.value
    else if Truthy(f.gearSegmentId) then f.gearSegmentId.value
    else if Truthy(f.segmentId) then f.segmentId.value
    else if Truthy(f.id) then f.id.value
    else "node_" + Decimal(fallback)
  }

  /** The node carries an identifier of its own. */
  predicate HasOwnId(f: Fields) {
    Truthy(f.vdraNodeId) || Truthy(f.gearSegmentId) || Truthy(f.segmentId) || Truthy(f.id)
  }

  function FirstSome<T>(options: seq<Option<T>>): Option<T> {
    if options == [] then None
    else if options[0].Some? then options[0]
    else FirstSome(options[1..])
  }

  lemma {:induction false} NoneGiven<T>(options: seq<Option<T>>)
    requires forall o :: o in options ==> o.None?
    ensures FirstSome(options).None?
  {
    if options != [] {
      NoneGiven(options[1..]);
    }
  }

  /** node_allocated_k: the allocation under the first alias that is present. */
  function NodeAllocatedK(f: Fields): Option<int> {
    FirstSome([f.vdraAllocatedK, f.gearBranchAllocation, f.gearAllocatedBranchFactor, f.allocatedK])
  }

  function ValueOr<T>(o: Option<T>, default: T): T {
    if o.Some? then o.value else default
  }

  /** The optional keyword arguments of write_node_accounting. */
  datatype WriteArgs = WriteArgs(
    defaultK: Option<int>, predictedK: Option<int>, dispersionC: Option<real>, allocatedK: Option<int>,
    kMin: int, lowerBound: Option<int>, upperBound: Option<int>)

  function WriteAccounting(f: Fields, w: WriteArgs): Fields {
    var floor := Max(w.kMin, 0);
    var default := ValueOr(FirstSome([w.defaultK, f.vdraDefaultK, f.defaultK, f.gearDefaultBranchFactor]), 0);
    var predicted := ValueOr(FirstSome([w.predictedK, f.vdraPredictedK, f.gearPredictedK, f.predictedK]), default);
    var lower := Max(ValueOr(w.lowerBound, floor), floor);
    var seed := if w.allocatedK.Some? then w.allocatedK.value else ValueOr(NodeAllocatedK(f), lower);
    var cap := Max(ValueOr(w.upperBound, Max(Max(floor, predicted), seed)), lower);
    var granted := Min(Max(seed, lower), cap);
    var saved := Max(default - granted, 0);
    var extra := Max(granted - default, 0);
    var c := MaxReal(ValueOr(FirstSome([w.dispersionC, f.vdraDispersionC, f.gearRewardVariance]), 0.0), 0.0);
    f.(vdraDefaultK := Some(default),
       vdraPredictedK := Some(predicted),
       gearPredictedK := Some(predicted),
       accounting := Some(Accounting(cap, lower, lower, cap, saved, extra, extra, saved, extra)),
       vdraDispersionC := Some(c),
       gearRewardVariance := Some(c),
       vdraAllocatedK := Some(granted),
       gearBranchAllocation := Some(granted),
       gearAllocatedBranchFactor := Some(granted))
  }

  /** validate_node_accounting accepts the node: no key is missing and no assertion fails. */
  predicate Validates(f: Fields, kMin: int) {
    && f.vdraDefaultK.Some? && f.vdraPredictedK.Some? && f.accounting.Some? && f.vdraAllocatedK.Some?
    && var a := f.accounting.value;
       var default, granted := f.vdraDefaultK.value, f.vdraAllocatedK.value;
       && a.base >= Max(kMin, 0)
       && a.cap >= a.base
       && a.saved == Max(default - granted, 0)
       && a.unmet == Max(granted - default, 0)
       && a.additional == Max(granted - default, 0)
       && a.contribution == a.saved
       && a.received == a.additional
       && a.base <= granted <= a.cap
  }

  /** Whatever the node held and whatever is asked for, what is written validates, and a
      requested allocation inside the requested bounds is written unchanged. */
  lemma WrittenValidates(f: Fields, w: WriteArgs)
    ensures Validates(WriteAccounting(f, w), w.kMin)
    ensures NodeAllocatedK(WriteAccounting(f, w)) == WriteAccounting(f, w).vdraAllocatedK
    ensures w.allocatedK.Some? && w.lowerBound.Some? && w.upperBound.Some?
            && Max(w.kMin, 0) <= w.lowerBound.value <= w.allocatedK.value <= w.upperBound.value
            ==> WriteAccounting(f, w).vdraAllocatedK == w.allocatedK
    ensures forall i: nat :: NodeId(WriteAccounting(f, w), i) == NodeId(f, i)
  {
  }

  method WriteNodeAccounting(node: Node, w: WriteArgs)
    modifies node
    ensures node.fields == WriteAccounting(old(node.fields), w)
  {
    var f := node.fields;
    var floor := Max(w.kMin, 0);
    var default := ValueOr(FirstSome([w.defaultK, f.vdraDefaultK, f.defaultK, f.gearDefaultBranchFactor]), 0);
    var predicted := ValueOr(FirstSome([w.predictedK, f.vdraPredictedK, f.gearPredictedK, f.predictedK]), default);
    var existing := NodeAllocatedK(f);
    var lower := Max(ValueOr(w.lowerBound, floor), floor);
    var seed := if w.allocatedK.Some? then w.allocatedK.value else ValueOr(existing, lower);
    var cap := Max(ValueOr(w.upperBound, Max(Max(floor, predicted), seed)), lower);
    var granted := Min(Max(seed, lower), cap);
    var saved := Max(default - granted, 0);
    var unmet := Max(granted - default, 0);
    var additional := Max(granted - default, 0);
    var c := ValueOr(FirstSome([w.dispersionC, f.vdraDispersionC, f.gearRewardVariance]), 0.0);
    if c < 0.0 {
      c := 0.0;
    }
    node.fields := node.fields.(vdraDefaultK := Some(default));
    node.fields := node.fields.(vdraPredictedK := Some(predicted));
    node.fields := node.fields.(accounting := Some(Accounting(
      cap, lower, lower, cap, saved, unmet, additional, saved, additional)));
    node.fields := node.fields.(vdraDispersionC := Some(c));
    node.fields := node.fields.(vdraAllocatedK := Some(granted));
    node.fields := node.fields.(gearPredictedK := Some(predicted));
    node.fields := node.fields.(gearBranchAllocation := Some(granted));
    node.fields := node.fields.(gearAllocatedBranchFactor := Some(granted));
    node.fields := node.fields.(gearRewardVariance := Some(c));
  }

  /** What a tuple of nodes holds at one moment. */
  type Store = map<Node, Fields>

  ghost function Snapshot(nodes: set<Node>): Store
    reads nodes
  {
    map n | n in nodes :: n.fields
  }
}
