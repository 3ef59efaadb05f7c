/** What the keys of a node dictionary stand for, as relations: which of several keys counts,
    what it falls back on, and what the accounting write makes of them. */
module NodeKeys {
  import opened Prelude
  import opened Schema

  /** v is under the first of these keys that is present, or is the fallback if none is. */
  ghost predicate FirstGiven<T>(keys: seq<Option<T>>, fallback: T, v: T) {
    || (exists i :: GivenAt(keys, i, v))
    || ((forall i :: 0 <= i < |keys| ==> keys[i].None?) && v == fallback)
  }

  ghost predicate GivenAt<T>(keys: seq<Option<T>>, i: int, v: T) {
    0 <= i < |keys| && keys[i] == Some(v) && forall j :: 0 <= j < i ==> keys[j].None?
  }

  lemma {:induction false} FirstGivenIs<T>(keys: seq<Option<T>>, fallback: T, v: T)
    ensures FirstGiven(keys, fallback, v) <==> v == ValueOr(FirstSome(keys), fallback)
  {
    if keys != [] {
      if keys[0].Some? {
        assert GivenAt(keys, 0, keys[0].value);
        assert forall i :: GivenAt(keys, i, v) ==> i == 0;
      } else {
        FirstGivenIs(keys[1..], fallback, v);
        GivenBelow(keys, v);
      }
    }
  }

  lemma GivenBelow<T>(keys: seq<Option<T>>, v: T)
    requires keys != [] && keys[0].None?
    ensures (exists i :: GivenAt(keys, i, v)) <==> exists i :: GivenAt(keys[1..], i, v)
    ensures (forall i :: 0 <= i < |keys| ==> keys[i].None?) <==>
      forall i :: 0 <= i < |keys[1..]| ==> keys[1..][i].None?
  {
    var rest := keys[1..];
    if i :| GivenAt(keys, i, v) {
      assert forall j :: 0 <= j < i - 1 ==> rest[j] == keys[j + 1];
      assert GivenAt(rest, i - 1, v);
    }
    if i :| GivenAt(rest, i, v) {
      forall j | 0 <= j < i + 1 ensures keys[j].None? {
        assert j > 0 ==> keys[j] == rest[j - 1];
      }
      assert GivenAt(keys, i + 1, v);
    }
    if forall i :: 0 <= i < |rest| ==> rest[i].None? {
      forall i | 0 <= i < |keys| ensures keys[i].None? {
        assert i > 0 ==> keys[i] == rest[i - 1];
      }
    }
  }

  /** A node goes by the first of its four names that is not empty, or by its position. */
  ghost predicate GoesBy(f: Fields, i: nat, key: string) {
    FirstGiven([Named(f.vdraNodeId), Named(f.gearSegmentId), Named(f.segmentId), Named(f.id)],
               "node_" + Decimal(i), key)
  }

  /** An empty name is none. */
  function Named(name: Option<string>): Option<string> {
    if name == Some("") then None else name
  }

  lemma GoesByIs(f: Fields, i: nat, key: string)
    ensures GoesBy(f, i, key) <==> key == NodeId(f, i)
  {
    var names := [Named(f.vdraNodeId), Named(f.gearSegmentId), Named(f.segmentId), Named(f.id)];
    FirstGivenIs(names, "node_" + Decimal(i), key);
    FirstOfFour(names);
  }

  lemma {:induction false} FirstOfFour<T>(o: seq<Option<T>>)
    requires |o| == 4
    ensures FirstSome(o) ==
      if o[0].Some? then o[0] else if o[1].Some? then o[1] else if o[2].Some? then o[2] else o[3]
  {
    var a, b, c := o[1..], o[1..][1..], o[1..][1..][1..];
    assert a[0] == o[1] && b[0] == o[2] && c[0] == o[3] && c[1..] == [];
    assert FirstSome(c) == o[3];
    assert FirstSome(b) == if o[2].Some? then o[2] else FirstSome(c);
    assert FirstSome(a) == if o[1].Some? then o[1] else FirstSome(b);
  }

  /** The dispersion a node tells, of either sign: the square of a weight that is configured
      and present, and otherwise what its own keys say. */
  ghost predicate TellsDispersion(f: Fields, weightKey: Option<string>, c: real) {
    if weightKey.Some? && weightKey.value != "" && weightKey.value in f.numbers then
      var w := f.numbers[weightKey.value];
      if w >= 0.0 then c == w * w else c == 0.0
    else FirstGiven([f.vdraDispersionC, f.gearRewardVariance], 0.0, c)
  }

  ghost predicate TellsDefault(f: Fields, budget: int, d: int) {
    FirstGiven([f.vdraDefaultK, f.defaultK, f.gearDefaultBranchFactor], budget, d)
  }

  ghost predicate TellsPrediction(f: Fields, default: int, p: int) {
    FirstGiven([f.vdraPredictedK, f.gearPredictedK, f.predictedK], default, p)
  }

  /** What an accounting write is asked for, with the gaps filled in from the node. */
  datatype Request = Request(default: int, predicted: int, dispersion: real, floor: int, lower: int, seed: int)

  ghost predicate Asks(f: Fields, w: WriteArgs, r: Request) {
    && FirstGiven([w.defaultK, f.vdraDefaultK, f.defaultK, f.gearDefaultBranchFactor], 0, r.default)
    && FirstGiven([w.predictedK, f.vdraPredictedK, f.gearPredictedK, f.predictedK], r.default, r.predicted)
    && FirstGiven([w.dispersionC, f.vdraDispersionC, f.gearRewardVariance], 0.0, r.dispersion)
    && r.floor == Max(w.kMin, 0)
    && r.lower == (if w.lowerBound.Some? && w.lowerBound.value >= r.floor then w.lowerBound.value else r.floor)
    && FirstGiven([w.allocatedK, f.vdraAllocatedK, f.gearBranchAllocation, f.gearAllocatedBranchFactor, f.allocatedK],
                  r.lower, r.seed)
  }

  /** granted is v moved into [lo, hi] by as little as possible. */
  predicate MovedInto(v: int, lo: int, hi: int, granted: int) {
    && lo <= granted <= hi
    && (lo <= v <= hi ==> granted == v)
    && (v < lo ==> granted == lo)
    && (v > hi ==> granted == hi)
  }

  /** cap is the bound that is asked for, and without one the largest figure that has to fit;
      and never below the lower bound. */
  predicate CapAsked(w: WriteArgs, r: Request, cap: int) {
    && cap >= r.lower
    && (w.upperBound.Some? ==> cap == r.lower || cap == w.upperBound.value)
    && (w.upperBound.Some? ==> cap >= w.upperBound.value)
    && (w.upperBound.None? ==> cap >= r.floor && cap >= r.predicted && cap >= r.seed)
    && (w.upperBound.None? ==> cap == r.floor || cap == r.predicted || cap == r.seed || cap == r.lower)
  }

  /** The accounting record: bounds and allocation, and what that saves or adds. */
  predicate Figures(a: Accounting, granted: int, w: WriteArgs, r: Request) {
    && a.base == a.lower == r.lower && a.cap == a.upper && CapAsked(w, r, a.cap)
    && MovedInto(r.seed, r.lower, a.cap, granted)
    && a.saved - a.additional == r.default - granted
    && a.saved >= 0 && a.additional >= 0 && (a.saved == 0 || a.additional == 0)
    && a.unmet == a.received == a.additional && a.contribution == a.saved
  }

  /** The node after the write, with its aliases. */
  ghost predicate Accounts(f: Fields, g: Fields, w: WriteArgs, r: Request) {
    && g.accounting.Some? && g.vdraAllocatedK.Some?
    && Figures(g.accounting.value, g.vdraAllocatedK.value, w, r)
    && g.gearBranchAllocation == g.gearAllocatedBranchFactor == g.vdraAllocatedK
    && g.vdraDefaultK == Some(r.default)
    && g.vdraPredictedK == g.gearPredictedK == Some(r.predicted)
    && g.vdraDispersionC == g.gearRewardVariance == Some(if r.dispersion >= 0.0 then r.dispersion else 0.0)
    && SameOtherwise(f, g)
  }

  /** The keys that no accounting write touches. */
  predicate SameOtherwise(f: Fields, g: Fields) {
    && g.vdraNodeId == f.vdraNodeId && g.gearSegmentId == f.gearSegmentId
    && g.segmentId == f.segmentId && g.id == f.id
    && g.defaultK == f.defaultK && g.gearDefaultBranchFactor == f.gearDefaultBranchFactor
    && g.predictedK == f.predictedK && g.allocatedK == f.allocatedK
    && g.numbers == f.numbers && g.flush == f.flush && g.queueId == f.queueId && g.snapshotId == f.snapshotId
  }

  /** Every accounting write, whatever is asked for and whatever the node holds: bounds,
      allocation and figures are those of the request. */
  lemma WriteAccountsRequest(f: Fields, w: WriteArgs, r: Request)
    requires Asks(f, w, r)
    ensures Accounts(f, WriteAccounting(f, w), w, r)
  {
    FirstGivenIs([w.defaultK, f.vdraDefaultK, f.defaultK, f.gearDefaultBranchFactor], 0, r.default);
    FirstGivenIs([w.predictedK, f.vdraPredictedK, f.gearPredictedK, f.predictedK], r.default, r.predicted);
    FirstGivenIs([w.dispersionC, f.vdraDispersionC, f.gearRewardVariance], 0.0, r.dispersion);
    SeedIs(f, w, r);
  }

  lemma SeedIs(f: Fields, w: WriteArgs, r: Request)
    requires Asks(f, w, r)
    ensures r.seed == if w.allocatedK.Some? then w.allocatedK.value else ValueOr(NodeAllocatedK(f), r.lower)
  {
    var keys :=
      [w.allocatedK, f.vdraAllocatedK, f.gearBranchAllocation, f.gearAllocatedBranchFactor, f.allocatedK];
    FirstGivenIs(keys, r.lower, r.seed);
    assert keys[1..] == [f.vdraAllocatedK, f.gearBranchAllocation, f.gearAllocatedBranchFactor, f.allocatedK];
  }

  /** There is such a request for every node and every write. */
  lemma RequestExists(f: Fields, w: WriteArgs) returns (r: Request)
    ensures Asks(f, w, r)
  {
    var d := ValueOr(FirstSome([w.defaultK, f.vdraDefaultK, f.defaultK, f.gearDefaultBranchFactor]), 0);
    var p := ValueOr(FirstSome([w.predictedK, f.vdraPredictedK, f.gearPredictedK, f.predictedK]), d);
    var c := ValueOr(FirstSome([w.dispersionC, f.vdraDispersionC, f.gearRewardVariance]), 0.0);
    var floor := Max(w.kMin, 0);
    var lower := if w.lowerBound.Some? && w.lowerBound.value >= floor then w.lowerBound.value else floor;
    var keys :=
      [w.allocatedK, f.vdraAllocatedK, f.gearBranchAllocation, f.gearAllocatedBranchFactor, f.allocatedK];
    r := Request(d, p, c, floor, lower, ValueOr(FirstSome(keys), lower));
    FirstGivenIs([w.defaultK, f.vdraDefaultK, f.defaultK, f.gearDefaultBranchFactor], 0, d);
    FirstGivenIs([w.predictedK, f.vdraPredictedK, f.gearPredictedK, f.predictedK], d, p);
    FirstGivenIs([w.dispersionC, f.vdraDispersionC, f.gearRewardVariance], 0.0, c);
    FirstGivenIs(keys, lower, r.seed);
  }

  /** The validator accepts exactly the records that a write with their own figures reproduces. */
  lemma ValidatesIff(f: Fields, kMin: int)
    ensures Validates(f, kMin) ==>
      f.accounting.Some? && f.vdraDefaultK.Some? && f.vdraPredictedK.Some? && f.vdraAllocatedK.Some?
    ensures f.accounting.Some? && f.vdraDefaultK.Some? && f.vdraPredictedK.Some? && f.vdraAllocatedK.Some? ==>
      var a := f.accounting.value;
      var w := WriteArgs(f.vdraDefaultK, f.vdraPredictedK, None, f.vdraAllocatedK, kMin, Some(a.base), Some(a.cap));
      var g := WriteAccounting(f, w);
      (Validates(f, kMin) <==>
         g.vdraAllocatedK == f.vdraAllocatedK && g.accounting == Some(a.(lower := a.base, upper := a.cap)))
  {
  }
}
