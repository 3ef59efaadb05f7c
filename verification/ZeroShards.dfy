/** ZeRO-3 checkpoints: every rank holds one padded slice of every parameter, and the merge
    loop puts the parameters together again. */
module ZeroShards {
  import opened Prelude
  import opened Arithmetic

  type Tensor = seq<real>

  datatype Shape = Shape(name: string, numel: nat)

  datatype MergeError =
    | OutOfRange(name: string)
    | WrongCount(consumed: int, available: int)

  /** An ordered dictionary of tensors, filled in place. */
  class StateDict {
    var entries: map<string, Tensor>

    constructor (entries: map<string, Tensor>)
      ensures this.entries == entries
    {
      this.entries := entries;
    }
  }

  /** math.ceil(a / b) */
  function CeilDiv(a: nat, b: nat): nat
    requires b > 0
  {
    (a + b - 1) / b
  }

  /** zero3_partitioned_param_info: the size of a partition, and the padding in all of them. */
  function PartitionInfo(numel: nat, worldSize: nat): (nat, nat)
    requires worldSize > 0
  {
    var remainder := numel % worldSize;
    (CeilDiv(numel, worldSize), if remainder != 0 then worldSize - remainder else 0)
  }

  /** The partitions hold the parameter and the padding, and the padding is no more than is
      needed to make them equal. */
  lemma PartitionExact(numel: nat, worldSize: nat)
    requires worldSize > 0
    ensures var (size, padding) := PartitionInfo(numel, worldSize);
      worldSize * size == numel + padding && padding < worldSize
  {
    var a, r := numel / worldSize, numel % worldSize;
    if r == 0 {
      QuotientIs(numel + worldSize - 1, worldSize, a, worldSize - 1);
    } else {
      assert numel + worldSize - 1 == worldSize * (a + 1) + (r - 1);
      QuotientIs(numel + worldSize - 1, worldSize, a + 1, r - 1);
    }
  }

  /** torch.cat of the slices that the first n ranks hold at an offset. */
  function Gather(groups: seq<Tensor>, n: nat, offset: nat, size: nat): Tensor
    requires n <= |groups| && forall i :: 0 <= i < n ==> offset + size <= |groups[i]|
  {
    if n == 0 then [] else Gather(groups, n - 1, offset, size) + groups[n - 1][offset..offset + size]
  }

  lemma {:induction false} GatherLength(groups: seq<Tensor>, n: nat, offset: nat, size: nat)
    requires n <= |groups| && forall i :: 0 <= i < n ==> offset + size <= |groups[i]|
    ensures |Gather(groups, n, offset, size)| == n * size
  {
    if n > 0 {
      GatherLength(groups, n - 1, offset, size);
      assert n * size == (n - 1) * size + size;
    }
  }

  datatype Progress = Progress(entries: map<string, Tensor>, offset: nat, error: Option<MergeError>)

  function MergeOne(shape: Shape, groups: seq<Tensor>, p: Progress): Progress
    requires groups != []
  {
    var size := PartitionInfo(shape.numel, |groups|).0;
    if p.error.Some? then p
    else if exists i :: 0 <= i < |groups| && |groups[i]| < p.offset + size
      then p.(error := Some(OutOfRange(shape.name)))
    else
      GatherLength(groups, |groups|, p.offset, size);
      PartitionExact(shape.numel, |groups|);
      p.(entries := p.entries[shape.name := Gather(groups, |groups|, p.offset, size)[..shape.numel]], offset :=
        p.offset + size)
  }

  function MergeUpTo(shapes: seq<Shape>, groups: seq<Tensor>, entries: map<string, Tensor>): Progress
    requires groups != []
  {
    if shapes == [] then Progress(entries, 0, None)
    else
      var n := |shapes| - 1;
      MergeOne(shapes[n], groups, MergeUpTo(shapes[..n], groups, entries))
  }

  /** _zero3_merge_trainable_params: the merge loop, then the sanity check. */
  function Merge(shapes: seq<Shape>, groups: seq<Tensor>, entries: map<string, Tensor>): Progress
    requires groups != []
  {
    var p := MergeUpTo(shapes, groups, entries);
    var consumed, available := p.offset * |groups|, |groups[0]| * |groups|;
    if p.error.None? && consumed != available then p.(error := Some(WrongCount(consumed, available))) else p
  }

  method MergeTrainableParams(stateDict: StateDict, shapes: seq<Shape>, groups: seq<Tensor>)
    returns (error: Option<MergeError>)
    requires groups != []
    modifies stateDict
    ensures var p := Merge(shapes, groups, old(stateDict.entries));
      stateDict.entries == p.entries && error == p.error
  {
    hide PartitionInfo;
    hide Gather;
    ghost var start := stateDict.entries;
    var offset: nat := 0;
    assert shapes[..0] == [];
    for k := 0 to |shapes|
      invariant MergeUpTo(shapes[..k], groups, start) == Progress(stateDict.entries, offset, None)
    {
      assert shapes[..k + 1][..k] == shapes[..k];
      error, offset := NarrowAndStore(stateDict, shapes[k], groups, offset);
      if error.Some? {
        ErrorEnds(shapes, k + 1, groups, start);
        return;
      }
    }
    assert shapes[..|shapes|] == shapes;
    var consumed := offset * |groups|;
    var available := |groups[0]| * |groups|;
    error := if consumed != available then Some(WrongCount(consumed, available)) else None;
  }

  method NarrowAndStore(stateDict: StateDict, shape: Shape, groups: seq<Tensor>, offset: nat)
    returns (error: Option<MergeError>, next: nat)
    requires groups != []
    modifies stateDict
    ensures Progress(stateDict.entries, next, error) ==
      MergeOne(shape, groups, Progress(old(stateDict.entries), offset, None))
  {
    hide PartitionInfo;
    var size := PartitionInfo(shape.numel, |groups|).0;
    var whole: Tensor := [];
    for i := 0 to |groups|
      invariant forall j :: 0 <= j < i ==> offset + size <= |groups[j]|
      invariant whole == Gather(groups, i, offset, size)
    {
      if |groups[i]| < offset + size {
        return Some(OutOfRange(shape.name)), offset;
      }
      whole := whole + groups[i][offset..offset + size];
    }
    GatherLength(groups, |groups|, offset, size);
    PartitionExact(shape.numel, |groups|);
    stateDict.entries := stateDict.entries[shape.name := whole[..shape.numel]];
    return None, offset + size;
  }

  lemma {:induction false} ErrorEnds(shapes: seq<Shape>, n: nat, groups: seq<Tensor>, entries: map<string, Tensor>)
    requires n <= |shapes| && groups != [] && MergeUpTo(shapes[..n], groups, entries).error.Some?
    ensures MergeUpTo(shapes, groups, entries) == MergeUpTo(shapes[..n], groups, entries)
    decreases |shapes|
  {
    if n == |shapes| {
      assert shapes[..n] == shapes;
    } else {
      var m := |shapes| - 1;
      assert shapes[..m][..n] == shapes[..n];
      ErrorEnds(shapes[..m], n, groups, entries);
    }
  }

  /** What one rank holds of all these parameters. */
  function Held(shapes: seq<Shape>, worldSize: nat): nat
    requires worldSize > 0
  {
    if shapes == [] then 0
    else Held(shapes[..|shapes| - 1], worldSize) + PartitionInfo(shapes[|shapes| - 1].numel, worldSize).0
  }

  /** The loop reads past no group exactly if every group is long enough. */
  lemma {:induction false} LoopAccepts(shapes: seq<Shape>, groups: seq<Tensor>, entries: map<string, Tensor>)
    requires groups != []
    ensures MergeUpTo(shapes, groups, entries).error.None? <==>
      shapes == [] || forall i :: 0 <= i < |groups| ==> Held(shapes, |groups|) <= |groups[i]|
    ensures MergeUpTo(shapes, groups, entries).error.None? ==>
      MergeUpTo(shapes, groups, entries).offset == Held(shapes, |groups|)
  {
    hide PartitionInfo;
    hide Gather;
    if shapes != [] {
      LoopAccepts(shapes[..|shapes| - 1], groups, entries);
      if |shapes| == 1 {
        assert shapes[..0] == [];
      }
    }
  }

  /** The sanity check passes exactly on the checkpoints whose first group holds what the
      shapes call for, and whose other groups hold at least that. */
  lemma {:induction false} MergeAccepts(shapes: seq<Shape>, groups: seq<Tensor>, entries: map<string, Tensor>)
    requires groups != []
    ensures Merge(shapes, groups, entries).error.None? <==>
      && |groups[0]| == Held(shapes, |groups|)
      && forall i :: 0 <= i < |groups| ==> Held(shapes, |groups|) <= |groups[i]|
  {
    LoopAccepts(shapes, groups, entries);
    var p := MergeUpTo(shapes, groups, entries);
    if p.offset != |groups[0]| {
      TimesDiffer(p.offset, |groups[0]|, |groups|);
    }
  }

  ghost predicate Holds(groups: seq<Tensor>, numels: int) {
    forall i :: 0 <= i < |groups| ==> numels <= |groups[i]|
  }

  /** Otherwise the first shape that some group is too short for is reported, with the earlier
      ones stored; and if there is none, the two counts that differ. */
  lemma {:induction false} MergeRejects(shapes: seq<Shape>, groups: seq<Tensor>, entries: map<string, Tensor>, k: nat)
    requires groups != []
    ensures Holds(groups, Held(shapes, |groups|)) && |groups[0]| != Held(shapes, |groups|) ==>
      Merge(shapes, groups, entries).error ==
      Some(WrongCount(Held(shapes, |groups|) * |groups|, |groups[0]| * |groups|))
    ensures k < |shapes| && Holds(groups, Held(shapes[..k], |groups|))
            && !Holds(groups, Held(shapes[..k + 1], |groups|)) ==>
      && Merge(shapes, groups, entries).error == Some(OutOfRange(shapes[k].name))
      && Merge(shapes, groups, entries).entries == MergeUpTo(shapes[..k], groups, entries).entries
  {
    hide PartitionInfo;
    hide Gather;
    LoopAccepts(shapes, groups, entries);
    if |groups[0]| != Held(shapes, |groups|) {
      TimesDiffer(Held(shapes, |groups|), |groups[0]|, |groups|);
    }
    if k < |shapes| {
      LoopAccepts(shapes[..k], groups, entries);
      assert shapes[..k + 1][..k] == shapes[..k];
      if Holds(groups, Held(shapes[..k], |groups|)) && !Holds(groups, Held(shapes[..k + 1], |groups|)) {
        ErrorEnds(shapes, k + 1, groups, entries);
      }
    }
  }

  lemma TimesDiffer(a: nat, b: nat, k: nat)
    requires a != b && k > 0
    ensures a * k != b * k
  {
    if a < b {
      TimesOrder(a + 1, b, k);
    } else {
      TimesOrder(b + 1, a, k);
    }
  }

  datatype Param = Param(name: string, value: Tensor)

  function ShapesOf(params: seq<Param>): (shapes: seq<Shape>)
    ensures |shapes| == |params|
    ensures forall i :: 0 <= i < |params| ==> shapes[i] == Shape(params[i].name, |params[i].value|)
  {
    seq(|params|, i requires 0 <= i < |params| => Shape(params[i].name, |params[i].value|))
  }

  /** Sharding: the parameter, padded with whatever the filler is, cut into equal slices. */
  function Padded(value: Tensor, worldSize: nat, filler: real): Tensor
    requires worldSize > 0
  {
    value + seq(PartitionInfo(|value|, worldSize).1, _ => filler)
  }

  lemma SliceFits(value: Tensor, worldSize: nat, rank: nat, filler: real)
    requires rank < worldSize
    ensures var size := PartitionInfo(|value|, worldSize).0;
      && |Padded(value, worldSize, filler)| == worldSize * size
      && rank * size <= (rank + 1) * size <= worldSize * size && (rank + 1) * size == rank * size + size
  {
    PartitionExact(|value|, worldSize);
    TimesOrder(rank + 1, worldSize, PartitionInfo(|value|, worldSize).0);
  }

  function Slice(value: Tensor, worldSize: nat, rank: nat, filler: real): (slice: Tensor)
    requires rank < worldSize
    ensures |slice| == PartitionInfo(|value|, worldSize).0
  {
    var size := PartitionInfo(|value|, worldSize).0;
    SliceFits(value, worldSize, rank, filler);
    Padded(value, worldSize, filler)[rank * size..(rank + 1) * size]
  }

  /** The flat group of one rank: its slices of all parameters, one after the other. */
  function FlatGroup(params: seq<Param>, worldSize: nat, rank: nat, filler: real): Tensor
    requires rank < worldSize
  {
    if params == [] then []
    else
      FlatGroup(params[..|params| - 1], worldSize, rank, filler)
        + Slice(params[|params| - 1].value, worldSize, rank, filler)
  }

  function Groups(params: seq<Param>, worldSize: nat, filler: real): (groups: seq<Tensor>)
    ensures |groups| == worldSize
    ensures forall r :: 0 <= r < worldSize ==> groups[r] == FlatGroup(params, worldSize, r, filler)
  {
    seq(worldSize, r requires 0 <= r < worldSize => FlatGroup(params, worldSize, r, filler))
  }

  lemma {:induction false} FlatLength(params: seq<Param>, worldSize: nat, rank: nat, filler: real)
    requires rank < worldSize
    ensures |FlatGroup(params, worldSize, rank, filler)| == Held(ShapesOf(params), worldSize)
  {
    hide PartitionInfo;
    hide Slice;
    if params != [] {
      var n := |params| - 1;
      FlatLength(params[..n], worldSize, rank, filler);
      assert ShapesOf(params)[..n] == ShapesOf(params[..n]);
    }
  }

  lemma {:induction false} FlatPrefix(params: seq<Param>, k: nat, worldSize: nat, rank: nat, filler: real)
    requires rank < worldSize && k <= |params|
    ensures FlatGroup(params[..k], worldSize, rank, filler) <= FlatGroup(params, worldSize, rank, filler)
  {
    hide Slice;
    if k < |params| {
      var n := |params| - 1;
      assert params[..n][..k] == params[..k];
      FlatPrefix(params[..n], k, worldSize, rank, filler);
    } else {
      assert params[..k] == params;
    }
  }

  /** Where parameter k sits in the flat group of a rank. */
  lemma {:induction false} SliceInPlace(params: seq<Param>, k: nat, worldSize: nat, rank: nat, filler: real)
    requires rank < worldSize && k < |params|
    ensures var flat, offset := FlatGroup(params, worldSize, rank, filler), Held(ShapesOf(params[..k]), worldSize);
      var slice := Slice(params[k].value, worldSize, rank, filler);
      offset + |slice| <= |flat| && flat[offset..offset + |slice|] == slice
  {
    hide Slice;
    assert params[..k + 1][..k] == params[..k];
    FlatLength(params[..k], worldSize, rank, filler);
    FlatPrefix(params, k + 1, worldSize, rank, filler);
  }

  /** Rank r holds its slice of the value at the offset, size elements long. */
  predicate HoldsAll(value: Tensor, groups: seq<Tensor>, r: nat, offset: nat, size: nat, filler: real)
    requires r < |groups|
  {
    offset + size <= |groups[r]| && groups[r][offset..offset + size] == Slice(value, |groups|, r, filler)
  }

  /** Every rank does. */
  predicate AllHold(value: Tensor, groups: seq<Tensor>, offset: nat, size: nat, filler: real) {
    && (forall r :: 0 <= r < |groups| ==> offset + size <= |groups[r]|)
    && (forall r :: 0 <= r < |groups| ==> HoldsAll(value, groups, r, offset, size, filler))
  }

  /** The slices of the first n ranks are the first n * size elements. */
  lemma {:induction false} GatherSlices(value: Tensor, groups: seq<Tensor>, n: nat, offset: nat, size: nat,
                                        filler: real)
    requires n <= |groups| && groups != []
    requires AllHold(value, groups, offset, size, filler)
    requires size == PartitionInfo(|value|, |groups|).0
    ensures 0 <= n * size <= |Padded(value, |groups|, filler)|
    ensures Gather(groups, n, offset, size) == Padded(value, |groups|, filler)[..n * size]
  {
    hide PartitionInfo;
    hide Padded;
    var padded := Padded(value, |groups|, filler);
    if n == 0 {
      ZeroTimes(size);
    } else {
      GatherSlices(value, groups, n - 1, offset, size, filler);
      SliceFits(value, |groups|, n - 1, filler);
      assert HoldsAll(value, groups, n - 1, offset, size, filler);
    }
  }

  lemma ZeroTimes(k: int)
    ensures 0 * k == 0
  {
  }

  /** Putting the slices together and dropping the padding gives the parameter back. */
  lemma {:induction false} Reassembles(value: Tensor, groups: seq<Tensor>, offset: nat, size: nat, filler: real)
    requires groups != [] && size == PartitionInfo(|value|, |groups|).0
    requires AllHold(value, groups, offset, size, filler)
    ensures |Gather(groups, |groups|, offset, size)| >= |value|
    ensures Gather(groups, |groups|, offset, size)[..|value|] == value
  {
    hide PartitionInfo;
    hide Slice;
    hide Gather;
    hide HoldsAll;
    GatherSlices(value, groups, |groups|, offset, size, filler);
    SliceFits(value, |groups|, 0, filler);
  }

  /** The dictionary with the parameters put in. */
  function WithParams(entries: map<string, Tensor>, params: seq<Param>): map<string, Tensor> {
    if params == [] then entries
    else
      var n := |params| - 1;
      WithParams(entries, params[..n])[params[n].name := params[n].value]
  }

  lemma {:induction false} MergesNext(params: seq<Param>, k: nat, worldSize: nat, filler: real,
                                      entries: map<string, Tensor>)
    requires k < |params| && worldSize > 0
    ensures var offset, value := Held(ShapesOf(params[..k]), worldSize), params[k].value;
      MergeOne(ShapesOf(params)[k], Groups(params, worldSize, filler), Progress(entries, offset, None))
      == Progress(entries[params[k].name := value], offset + PartitionInfo(|value|, worldSize).0, None)
  {
    hide PartitionInfo;
    hide Gather;
    hide Slice;
    hide HoldsAll;
    hide FlatGroup;
    hide Held;
    var groups, offset := Groups(params, worldSize, filler), Held(ShapesOf(params[..k]), worldSize);
    var size := PartitionInfo(|params[k].value|, worldSize).0;
    InPlaceEverywhere(params, k, worldSize, size, filler);
    Reassembles(params[k].value, groups, offset, size, filler);
  }

  lemma {:induction false} MergesPrefix(params: seq<Param>, k: nat, worldSize: nat, filler: real,
                                        entries: map<string, Tensor>)
    requires k <= |params| && worldSize > 0
    ensures MergeUpTo(ShapesOf(params)[..k], Groups(params, worldSize, filler), entries)
      == Progress(WithParams(entries, params[..k]), Held(ShapesOf(params[..k]), worldSize), None)
  {
    hide PartitionInfo;
    hide MergeOne;
    hide Groups;
    if k > 0 {
      var shapes, groups := ShapesOf(params), Groups(params, worldSize, filler);
      MergesPrefix(params, k - 1, worldSize, filler, entries);
      assert shapes[..k][..k - 1] == shapes[..k - 1] && params[..k][..k - 1] == params[..k - 1];
      assert ShapesOf(params[..k])[..k - 1] == ShapesOf(params[..k - 1]);
      MergesNext(params, k - 1, worldSize, filler, WithParams(entries, params[..k - 1]));
    }
  }

  lemma {:induction false} InPlaceEverywhere(params: seq<Param>, k: nat, worldSize: nat, size: nat, filler: real)
    requires k < |params| && worldSize > 0 && size == PartitionInfo(|params[k].value|, worldSize).0
    ensures var groups, offset := Groups(params, worldSize, filler), Held(ShapesOf(params[..k]), worldSize);
      AllHold(params[k].value, groups, offset, size, filler)
  {
    hide PartitionInfo;
    hide FlatGroup;
    hide Slice;
    var groups, offset := Groups(params, worldSize, filler), Held(ShapesOf(params[..k]), worldSize);
    forall r | 0 <= r < worldSize
      ensures offset + size <= |groups[r]| && HoldsAll(params[k].value, groups, r, offset, size, filler)
    {
      SliceInPlace(params, k, worldSize, r, filler);
    }
  }

  /** The round trip: whatever the world size, the sizes and the padding, merging what was
      sharded gives every parameter back, and the sanity check never objects. */
  lemma {:induction false} MergeInvertsSharding(params: seq<Param>, worldSize: nat, filler: real,
                                                entries: map<string, Tensor>)
    requires worldSize > 0
    ensures Merge(ShapesOf(params), Groups(params, worldSize, filler), entries)
      == Progress(WithParams(entries, params), Held(ShapesOf(params), worldSize), None)
  {
    hide FlatGroup;
    MergesPrefix(params, |params|, worldSize, filler, entries);
    assert ShapesOf(params)[..|params|] == ShapesOf(params) && params[..|params|] == params;
    FlatLength(params, worldSize, 0, filler);
  }

  /** With distinct names every parameter is in the dictionary under its name. */
  lemma {:induction false} EveryParam(entries: map<string, Tensor>, params: seq<Param>, i: nat)
    requires i < |params| && forall j, k :: 0 <= j < k < |params| ==> params[j].name != params[k].name
    ensures params[i].name in WithParams(entries, params)
      && WithParams(entries, params)[params[i].name] == params[i].value
  {
    var n := |params| - 1;
    if i < n {
      EveryParam(entries, params[..n], i);
    }
  }
}
