/** The baseline allocators of the comparison script: whatever they draw or estimate, it is
    clipped and then moved to the budget one unit at a time. */
module Baselines {
  import opened Prelude
  import opened Dicts
  import opened Levelling

  function Clip(alloc: map<string, int>, nMin: int, u: int): (clip: map<string, int>)
    ensures clip.Keys == alloc.Keys
    ensures forall k :: k in clip ==> nMin <= clip[k] <= Max(nMin, u)
  {
    map k | k in alloc :: Max(nMin, Min(alloc[k], u))
  }

  function RoomBelow(clip: map<string, int>, nMin: int): (room: map<string, int>)
    ensures room.Keys == clip.Keys
  {
    map k | k in clip :: clip[k] - nMin
  }

  function RoomAbove(clip: map<string, int>, u: int): (room: map<string, int>)
    ensures room.Keys == clip.Keys
  {
    map k | k in clip :: Max(u - clip[k], 0)
  }

  /** What _scale_to_budget stops with: the clipped allocation, levelled towards the budget in
      rounds over the sorted keys. */
  ghost predicate IsScaled(alloc: map<string, int>, budget: int, nMin: int, u: int, r: map<string, int>) {
    var clip := Clip(alloc, nMin, u);
    var keys := SortedKeys(clip.Keys);
    && Sum(r) == budget
    && exists m: nat, i: nat :: i <= |keys| && r == State(clip, keys, budget, nMin, u, m, i)
  }

  ghost function State(clip: map<string, int>, keys: seq<string>, budget: int, nMin: int, u: int, m: nat,
                       i: nat): (r: map<string, int>)
    requires i <= |keys|
    ensures r.Keys == clip.Keys
  {
    if Sum(clip) >= budget then Less(clip, Moved(RoomBelow(clip, nMin), keys, m, i))
    else More(clip, Moved(RoomAbove(clip, u), keys, m, i))
  }

  lemma SortedRounds(room: map<string, int>)
    requires forall k :: k in room ==> room[k] >= 0
    ensures Rounds(room, SortedKeys(room.Keys))
  {
    hide Increasing;
    IncreasingDistinct(SortedKeys(room.Keys));
  }

  lemma RoomsAreRounds(alloc: map<string, int>, nMin: int, u: int)
    ensures var clip := Clip(alloc, nMin, u);
      Rounds(RoomBelow(clip, nMin), SortedKeys(clip.Keys)) && Rounds(RoomAbove(clip, u), SortedKeys(clip.Keys))
  {
    hide Rounds;
    hide SortedKeys;
    hide Clip;
    SortedRounds(RoomBelow(Clip(alloc, nMin, u), nMin));
    SortedRounds(RoomAbove(Clip(alloc, nMin, u), u));
  }

  function Uniform(keys: set<string>, c: int): (m: map<string, int>)
    ensures m.Keys == keys
  {
    map k | k in keys :: c
  }

  lemma UniformSum(keys: set<string>, c: int)
    ensures Sum(Uniform(keys, c)) == |keys| * c
  {
    SumConstant(Uniform(keys, c), c);
    assert |Uniform(keys, c)| == |Uniform(keys, c).Keys|;
  }

  lemma RoomSums(alloc: map<string, int>, nMin: int, u: int)
    ensures var clip := Clip(alloc, nMin, u);
      && Sum(RoomBelow(clip, nMin)) == Sum(clip) - |alloc| * nMin
      && Sum(RoomAbove(clip, u)) == |alloc| * Max(nMin, u) - Sum(clip)
  {
    hide Clip;
    var clip := Clip(alloc, nMin, u);
    var low, high := Uniform(clip.Keys, nMin), Uniform(clip.Keys, Max(nMin, u));
    assert |clip.Keys| == |alloc|;
    RoomsAsDifferences(clip, nMin, u);
    LessSum(clip, low);
    LessSum(high, clip);
    UniformSum(clip.Keys, nMin);
    UniformSum(clip.Keys, Max(nMin, u));
  }

  lemma RoomsAsDifferences(clip: map<string, int>, nMin: int, u: int)
    requires forall k :: k in clip ==> nMin <= clip[k] <= Max(nMin, u)
    ensures RoomBelow(clip, nMin) == Less(clip, Uniform(clip.Keys, nMin))
    ensures RoomAbove(clip, u) == Less(Uniform(clip.Keys, Max(nMin, u)), clip)
  {
  }

  lemma {:induction false} StateSum(clip: map<string, int>, keys: seq<string>, budget: int, nMin: int, u: int,
                                    m: nat, i: nat)
    requires i <= |keys|
    ensures Sum(State(clip, keys, budget, nMin, u, m, i)) ==
      if Sum(clip) >= budget then Sum(clip) - Sum(Moved(RoomBelow(clip, nMin), keys, m, i))
      else Sum(clip) + Sum(Moved(RoomAbove(clip, u), keys, m, i))
  {
    hide Moved;
    if Sum(clip) >= budget {
      LessSum(clip, Moved(RoomBelow(clip, nMin), keys, m, i));
    } else {
      MoreSum(clip, Moved(RoomAbove(clip, u), keys, m, i));
    }
  }

  lemma {:induction false} StateReachable(clip: map<string, int>, keys: seq<string>, budget: int, nMin: int, u: int)
    requires Rounds(RoomBelow(clip, nMin), keys) && Rounds(RoomAbove(clip, u), keys)
    ensures (exists m: nat, i: nat :: i <= |keys| && Sum(State(clip, keys, budget, nMin, u, m, i)) == budget)
      <==> Sum(clip) - Sum(RoomBelow(clip, nMin)) <= budget <= Sum(clip) + Sum(RoomAbove(clip, u))
  {
    hide Moved;
    hide Rounds;
    hide State;
    hide RoomBelow;
    hide RoomAbove;
    var down := Sum(clip) >= budget;
    var room := if down then RoomBelow(clip, nMin) else RoomAbove(clip, u);
    var t := if down then Sum(clip) - budget else budget - Sum(clip);
    ReachableIff(room, keys, t);
    MovedFits(RoomBelow(clip, nMin), keys, 0, 0);
    MovedFits(RoomAbove(clip, u), keys, 0, 0);
    forall m: nat, i: nat | i <= |keys|
      ensures Sum(State(clip, keys, budget, nMin, u, m, i)) == budget <==> Sum(Moved(room, keys, m, i)) == t
    {
      StateSum(clip, keys, budget, nMin, u, m, i);
    }
    if 0 <= t <= Sum(room) {
      var m: nat, i: nat :| i <= |keys| && Sum(Moved(room, keys, m, i)) == t;
      assert Sum(State(clip, keys, budget, nMin, u, m, i)) == budget;
    }
  }

  /** The loops come to an end exactly when the budget is within the bounds of all keys
      together. */
  lemma ScaleEndsIff(alloc: map<string, int>, budget: int, nMin: int, u: int)
    ensures (exists r :: IsScaled(alloc, budget, nMin, u, r)) <==> |alloc| * nMin <= budget <= |alloc| * Max(nMin, u)
  {
    hide Rounds;
    hide Clip;
    hide SortedKeys;
    hide State;
    hide RoomBelow;
    hide RoomAbove;
    var clip := Clip(alloc, nMin, u);
    var keys := SortedKeys(clip.Keys);
    RoomsAreRounds(alloc, nMin, u);
    RoomSums(alloc, nMin, u);
    StateReachable(clip, keys, budget, nMin, u);
    if m: nat, i: nat :| i <= |keys| && Sum(State(clip, keys, budget, nMin, u, m, i)) == budget {
      assert IsScaled(alloc, budget, nMin, u, State(clip, keys, budget, nMin, u, m, i));
    }
  }

  /** The result spends the budget, stays within the bounds, and is determined by the input. */
  lemma {:induction false} ScaledWithinBounds(alloc: map<string, int>, budget: int, nMin: int, u: int,
                                              r: map<string, int>)
    requires IsScaled(alloc, budget, nMin, u, r)
    ensures r.Keys == alloc.Keys && Sum(r) == budget
    ensures forall k :: k in r ==> nMin <= r[k] <= Max(nMin, u)
  {
    hide Rounds;
    hide Clip;
    hide SortedKeys;
    hide State;
    var clip := Clip(alloc, nMin, u);
    var keys := SortedKeys(clip.Keys);
    var m: nat, i: nat :| i <= |keys| && r == State(clip, keys, budget, nMin, u, m, i);
    RoomsAreRounds(alloc, nMin, u);
    StateWithin(clip, keys, budget, nMin, u, m, i);
  }

  lemma StateWithin(clip: map<string, int>, keys: seq<string>, budget: int, nMin: int, u: int, m: nat, i: nat)
    requires i <= |keys| && Rounds(RoomBelow(clip, nMin), keys) && Rounds(RoomAbove(clip, u), keys)
    requires forall k :: k in clip ==> nMin <= clip[k] <= Max(nMin, u)
    ensures forall k :: k in clip ==> nMin <= State(clip, keys, budget, nMin, u, m, i)[k] <= Max(nMin, u)
  {
    hide Rounds;
    hide Moved;
    MovedWithin(RoomBelow(clip, nMin), keys, m, i);
    MovedWithin(RoomAbove(clip, u), keys, m, i);
  }

  lemma ScaledUnique(alloc: map<string, int>, budget: int, nMin: int, u: int, r: map<string, int>, r': map<string, int>)
    requires IsScaled(alloc, budget, nMin, u, r) && IsScaled(alloc, budget, nMin, u, r')
    ensures r == r'
  {
    hide Moved;
    hide Clip;
    hide SortedKeys;
    hide State;
    var clip := Clip(alloc, nMin, u);
    var keys := SortedKeys(clip.Keys);
    var m: nat, i: nat :| i <= |keys| && r == State(clip, keys, budget, nMin, u, m, i);
    var m': nat, i': nat :| i' <= |keys| && r' == State(clip, keys, budget, nMin, u, m', i');
    StateSum(clip, keys, budget, nMin, u, m, i);
    StateSum(clip, keys, budget, nMin, u, m', i');
    SameState(clip, keys, budget, nMin, u, m, i, m', i');
  }

  lemma SameState(clip: map<string, int>, keys: seq<string>, budget: int, nMin: int, u: int, m: nat, i: nat,
                  m': nat, i': nat)
    requires i <= |keys| && i' <= |keys|
    requires Sum(State(clip, keys, budget, nMin, u, m, i)) == Sum(State(clip, keys, budget, nMin, u, m', i'))
    ensures State(clip, keys, budget, nMin, u, m, i) == State(clip, keys, budget, nMin, u, m', i')
  {
    hide Moved;
    StateSum(clip, keys, budget, nMin, u, m, i);
    StateSum(clip, keys, budget, nMin, u, m', i');
    MovedUnique(if Sum(clip) >= budget then RoomBelow(clip, nMin) else RoomAbove(clip, u), keys, m, i, m', i');
  }

  lemma LowerStep(clip: map<string, int>, keys: seq<string>, nMin: int, m: nat, i: nat)
    requires Rounds(RoomBelow(clip, nMin), keys) && i < |keys|
    ensures var r, key := Less(clip, Moved(RoomBelow(clip, nMin), keys, m, i)), keys[i];
      && key in r
      && Less(clip, Moved(RoomBelow(clip, nMin), keys, m, i + 1)) == (if r[key] > nMin then r[key := r[key] - 1] else r)
      && (r[key] > nMin ==> Sum(r[key := r[key] - 1]) == Sum(r) - 1)
  {
    hide Moved;
    hide Increasing;
    hide Rounds;
    hide Less;
    MovedStep(RoomBelow(clip, nMin), keys, m, i);
    var moved, r, key := Moved(RoomBelow(clip, nMin), keys, m, i),
      Less(clip, Moved(RoomBelow(clip, nMin), keys, m, i)), keys[i];
    LessSet(clip, moved, key, moved[key] + 1);
    LessSet(clip, moved, key, moved[key]);
    assert moved[key := moved[key]] == moved && r[key := r[key]] == r;
    SumSet(r, key, r[key] - 1);
  }

  lemma RaiseStep(clip: map<string, int>, keys: seq<string>, u: int, m: nat, i: nat)
    requires Rounds(RoomAbove(clip, u), keys) && i < |keys|
    ensures var r, key := More(clip, Moved(RoomAbove(clip, u), keys, m, i)), keys[i];
      && key in r
      && More(clip, Moved(RoomAbove(clip, u), keys, m, i + 1)) == (if r[key] < u then r[key := r[key] + 1] else r)
      && (r[key] < u ==> Sum(r[key := r[key] + 1]) == Sum(r) + 1)
  {
    hide Moved;
    hide Increasing;
    hide Rounds;
    hide More;
    MovedStep(RoomAbove(clip, u), keys, m, i);
    var moved, r, key := Moved(RoomAbove(clip, u), keys, m, i), More(clip, Moved(RoomAbove(clip, u), keys, m, i)),
      keys[i];
    MoreSet(clip, moved, key, moved[key] + 1);
    MoreSet(clip, moved, key, moved[key]);
    assert moved[key := moved[key]] == moved && r[key := r[key]] == r;
    SumSet(r, key, r[key] + 1);
  }

  /** One pass of the first loop over the keys. */
  method LowerRound(ghost clip: map<string, int>, keys: seq<string>, nMin: int, budget: int, ghost m: nat,
                    start: map<string, int>, startTotal: int)
    returns (result: map<string, int>, total: int, ghost i: nat)
    requires Rounds(RoomBelow(clip, nMin), keys)
    requires start == Less(clip, Moved(RoomBelow(clip, nMin), keys, m, 0)) && startTotal == Sum(start) > budget
    ensures i <= |keys| && result == Less(clip, Moved(RoomBelow(clip, nMin), keys, m, i))
    ensures total == Sum(result) >= budget && (total > budget ==> i == |keys|)
  {
    hide Moved;
    hide Rounds;
    hide RoomBelow;
    hide Less;
    result, total, i := start, startTotal, 0;
    for j := 0 to |keys|
      invariant i == j && result == Less(clip, Moved(RoomBelow(clip, nMin), keys, m, i))
      invariant total == Sum(result) >= budget
    {
      if total <= budget {
        break;
      }
      LowerStep(clip, keys, nMin, m, j);
      if result[keys[j]] > nMin {
        result := result[keys[j] := result[keys[j]] - 1];
        total := total - 1;
      }
      i := j + 1;
    }
  }

  method RaiseRound(ghost clip: map<string, int>, keys: seq<string>, u: int, budget: int, ghost m: nat,
                    start: map<string, int>, startTotal: int)
    returns (result: map<string, int>, total: int, ghost i: nat)
    requires Rounds(RoomAbove(clip, u), keys)
    requires start == More(clip, Moved(RoomAbove(clip, u), keys, m, 0)) && startTotal == Sum(start) < budget
    ensures i <= |keys| && result == More(clip, Moved(RoomAbove(clip, u), keys, m, i))
    ensures total == Sum(result) <= budget && (total < budget ==> i == |keys|)
  {
    hide Moved;
    hide Rounds;
    hide RoomAbove;
    hide More;
    result, total, i := start, startTotal, 0;
    for j := 0 to |keys|
      invariant i == j && result == More(clip, Moved(RoomAbove(clip, u), keys, m, i))
      invariant total == Sum(result) <= budget
    {
      if total >= budget {
        break;
      }
      RaiseStep(clip, keys, u, m, j);
      if result[keys[j]] < u {
        result := result[keys[j] := result[keys[j]] + 1];
        total := total + 1;
      }
      i := j + 1;
    }
  }

  lemma NothingLowered(clip: map<string, int>, keys: seq<string>, nMin: int)
    requires Rounds(RoomBelow(clip, nMin), keys)
    ensures Less(clip, Moved(RoomBelow(clip, nMin), keys, 0, 0)) == clip
  {
    hide Rounds;
    NothingMoved(RoomBelow(clip, nMin), keys);
  }

  lemma NothingRaised(clip: map<string, int>, keys: seq<string>, u: int)
    requires Rounds(RoomAbove(clip, u), keys)
    ensures More(clip, Moved(RoomAbove(clip, u), keys, 0, 0)) == clip
  {
    hide Rounds;
    NothingMoved(RoomAbove(clip, u), keys);
  }

  lemma LowerProgress(clip: map<string, int>, keys: seq<string>, nMin: int, budget: int, m: nat)
    requires Rounds(RoomBelow(clip, nMin), keys) && Sum(clip) - Sum(RoomBelow(clip, nMin)) <= budget
    requires Sum(Less(clip, Moved(RoomBelow(clip, nMin), keys, m, 0))) > budget
    ensures Less(clip, Moved(RoomBelow(clip, nMin), keys, m, |keys|)) ==
      Less(clip, Moved(RoomBelow(clip, nMin), keys, m + 1, 0))
    ensures Sum(Less(clip, Moved(RoomBelow(clip, nMin), keys, m + 1, 0))) <
      Sum(Less(clip, Moved(RoomBelow(clip, nMin), keys, m, 0)))
  {
    hide Moved;
    hide Rounds;
    var room := RoomBelow(clip, nMin);
    LessSum(clip, Moved(room, keys, m, 0));
    LessSum(clip, Moved(room, keys, m + 1, 0));
    MovedWraps(room, keys, m);
    RoundMoves(room, keys, m);
  }

  lemma RaiseProgress(clip: map<string, int>, keys: seq<string>, u: int, budget: int, m: nat)
    requires Rounds(RoomAbove(clip, u), keys) && budget <= Sum(clip) + Sum(RoomAbove(clip, u))
    requires Sum(More(clip, Moved(RoomAbove(clip, u), keys, m, 0))) < budget
    ensures More(clip, Moved(RoomAbove(clip, u), keys, m, |keys|)) ==
      More(clip, Moved(RoomAbove(clip, u), keys, m + 1, 0))
    ensures Sum(More(clip, Moved(RoomAbove(clip, u), keys, m + 1, 0))) >
      Sum(More(clip, Moved(RoomAbove(clip, u), keys, m, 0)))
  {
    hide Moved;
    hide Rounds;
    var room := RoomAbove(clip, u);
    MoreSum(clip, Moved(room, keys, m, 0));
    MoreSum(clip, Moved(room, keys, m + 1, 0));
    MovedWraps(room, keys, m);
    RoundMoves(room, keys, m);
  }

  /** The first loop: down to the budget, unless it is there already. */
  method LowerTo(clip: map<string, int>, keys: seq<string>, nMin: int, budget: int)
    returns (result: map<string, int>, total: int, ghost m: nat, ghost i: nat)
    requires Rounds(RoomBelow(clip, nMin), keys) && Sum(clip) - Sum(RoomBelow(clip, nMin)) <= budget
    ensures i <= |keys| && total == Sum(result) == Min(Sum(clip), budget)
    ensures result == Less(clip, Moved(RoomBelow(clip, nMin), keys, m, i))
    ensures Sum(clip) <= budget ==> result == clip
  {
    hide Moved;
    hide Rounds;
    hide RoomBelow;
    hide Less;
    result, m, i := clip, 0, 0;
    total := SumValues(clip);
    NothingLowered(clip, keys, nMin);
    while total > budget
      invariant i <= |keys| && (total > budget ==> i == 0)
      invariant result == Less(clip, Moved(RoomBelow(clip, nMin), keys, m, i))
      invariant total == Sum(result) && (if Sum(clip) <= budget then result == clip else total >= budget)
      decreases total - budget
    {
      LowerProgress(clip, keys, nMin, budget, m);
      result, total, i := LowerRound(clip, keys, nMin, budget, m, result, total);
      if total > budget {
        m, i := m + 1, 0;
      }
    }
  }

  method RaiseTo(clip: map<string, int>, keys: seq<string>, u: int, budget: int)
    returns (result: map<string, int>, ghost m: nat, ghost i: nat)
    requires Rounds(RoomAbove(clip, u), keys) && Sum(clip) <= budget <= Sum(clip) + Sum(RoomAbove(clip, u))
    ensures i <= |keys| && Sum(result) == budget
    ensures result == More(clip, Moved(RoomAbove(clip, u), keys, m, i))
    ensures Sum(clip) == budget ==> result == clip
  {
    hide Moved;
    hide Rounds;
    hide RoomAbove;
    hide More;
    result, m, i := clip, 0, 0;
    var total := SumValues(clip);
    NothingRaised(clip, keys, u);
    while total < budget
      invariant i <= |keys| && (total < budget ==> i == 0)
      invariant result == More(clip, Moved(RoomAbove(clip, u), keys, m, i))
      invariant total == Sum(result) <= budget && (Sum(clip) == budget ==> result == clip)
      decreases budget - total
    {
      RaiseProgress(clip, keys, u, budget, m);
      result, total, i := RaiseRound(clip, keys, u, budget, m, result, total);
      if total < budget {
        m, i := m + 1, 0;
      }
    }
  }

  /** _scale_to_budget, where ScaleEndsIff says that it ends. */
  method ScaleToBudget(alloc: map<string, int>, budget: int, nMin: int, u: int) returns (result: map<string, int>)
    requires |alloc| * nMin <= budget <= |alloc| * Max(nMin, u)
    ensures IsScaled(alloc, budget, nMin, u, result)
  {
    hide Moved;
    hide Rounds;
    hide Clip;
    hide SortedKeys;
    var keys := SortedKeys(alloc.Keys);
    var clip := Clip(alloc, nMin, u);
    RoomsAreRounds(alloc, nMin, u);
    RoomSums(alloc, nMin, u);
    var total;
    ghost var m, i;
    result, total, m, i := LowerTo(clip, keys, nMin, budget);
    if total < budget {
      result, m, i := RaiseTo(result, keys, u, budget);
      assert result == State(clip, keys, budget, nMin, u, m, i);
    } else {
      assert result == State(clip, keys, budget, nMin, u, m, i);
    }
  }
}
