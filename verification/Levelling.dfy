/** Handing out units one key at a time, round after round, to every key that still has room.
    _scale_to_budget does this in both directions, and largest_remainder_rounding upwards. */
module Levelling {
  import opened Prelude
  import opened Dicts

  function Less(a: map<string, int>, b: map<string, int>): (r: map<string, int>)
    requires a.Keys == b.Keys
    ensures r.Keys == a.Keys
  {
    map k | k in a :: a[k] - b[k]
  }

  function More(a: map<string, int>, b: map<string, int>): (r: map<string, int>)
    requires a.Keys == b.Keys
    ensures r.Keys == a.Keys
  {
    map k | k in a :: a[k] + b[k]
  }

  lemma LessSet(a: map<string, int>, b: map<string, int>, k: string, v: int)
    requires a.Keys == b.Keys && k in a
    ensures Less(a, b)[k] == a[k] - b[k]
    ensures Less(a, b[k := v]) == Less(a, b)[k := a[k] - v]
  {
  }

  lemma {:induction false} LessSum(a: map<string, int>, b: map<string, int>)
    requires a.Keys == b.Keys
    ensures Sum(Less(a, b)) == Sum(a) - Sum(b)
  {
    var zeros := map k | k in a :: 0;
    SumConstant(zeros, 0);
    SumBalance(Less(a, b), zeros, a, b);
  }

  lemma MoreSet(a: map<string, int>, b: map<string, int>, k: string, v: int)
    requires a.Keys == b.Keys && k in a
    ensures More(a, b)[k] == a[k] + b[k]
    ensures More(a, b[k := v]) == More(a, b)[k := a[k] + v]
  {
  }

  lemma {:induction false} MoreSum(a: map<string, int>, b: map<string, int>)
    requires a.Keys == b.Keys
    ensures Sum(More(a, b)) == Sum(a) + Sum(b)
  {
    var zeros := map k | k in a :: 0;
    SumConstant(zeros, 0);
    SumBalance(More(a, b), a, b, zeros);
  }

  /** What each key has got after m full rounds and the first i keys of the next one. */
  function Moved(room: map<string, int>, keys: seq<string>, m: nat, i: nat): (moved: map<string, int>)
    requires i <= |keys|
    ensures moved.Keys == room.Keys
  {
    map k | k in room :: Min(room[k], m + if k in keys[..i] then 1 else 0)
  }

  ghost predicate Rounds(room: map<string, int>, keys: seq<string>) {
    && Distinct(keys)
    && (forall k :: k in keys <==> k in room)
    && (forall k :: k in room ==> room[k] >= 0)
  }

  lemma MovedStep(room: map<string, int>, keys: seq<string>, m: nat, i: nat)
    requires Rounds(room, keys) && i < |keys|
    ensures keys[i] in room && Moved(room, keys, m, i)[keys[i]] == Min(room[keys[i]], m)
    ensures Moved(room, keys, m, i + 1) == Moved(room, keys, m, i)[keys[i] := Min(room[keys[i]], m + 1)]
  {
    assert keys[..i + 1] == keys[..i] + [keys[i]];
    assert forall k :: k in keys[..i + 1] <==> k in keys[..i] || k == keys[i];
  }

  lemma MovedWraps(room: map<string, int>, keys: seq<string>, m: nat)
    requires Rounds(room, keys)
    ensures Moved(room, keys, m, |keys|) == Moved(room, keys, m + 1, 0)
  {
    assert keys[..|keys|] == keys;
  }

  lemma NothingMoved(room: map<string, int>, keys: seq<string>)
    requires Rounds(room, keys)
    ensures Sum(Moved(room, keys, 0, 0)) == 0
    ensures forall k :: k in room ==> Moved(room, keys, 0, 0)[k] == 0
  {
    SumConstant(Moved(room, keys, 0, 0), 0);
  }

  lemma MovedWithin(room: map<string, int>, keys: seq<string>, m: nat, i: nat)
    requires Rounds(room, keys) && i <= |keys|
    ensures forall k :: k in room ==> 0 <= Moved(room, keys, m, i)[k] <= room[k]
  {
    hide Distinct;
  }

  lemma {:induction false} MovedFits(room: map<string, int>, keys: seq<string>, m: nat, i: nat)
    requires Rounds(room, keys) && i <= |keys|
    ensures forall k :: k in room ==> 0 <= Moved(room, keys, m, i)[k] <= room[k]
    ensures 0 <= Sum(Moved(room, keys, m, i)) <= Sum(room)
  {
    hide Moved;
    hide Rounds;
    var zeros := map k | k in room :: 0;
    MovedWithin(room, keys, m, i);
    SumLeq(Moved(room, keys, m, i), room);
    SumLeq(zeros, Moved(room, keys, m, i));
    SumConstant(zeros, 0);
  }

  /** While there is room left, a round moves something. */
  lemma RoundMoves(room: map<string, int>, keys: seq<string>, m: nat)
    requires Rounds(room, keys) && Sum(Moved(room, keys, m, 0)) < Sum(room)
    ensures Sum(Moved(room, keys, m, 0)) < Sum(Moved(room, keys, m + 1, 0))
  {
    hide Rounds;
    hide Moved;
    var a, b := Moved(room, keys, m, 0), Moved(room, keys, m + 1, 0);
    MovedOrdered(room, keys, m, 0, m + 1, 0);
    SumLeq(a, b);
    if a == b {
      IdleRoundIsFull(room, keys, m);
    }
  }

  lemma IdleRoundIsFull(room: map<string, int>, keys: seq<string>, m: nat)
    requires Moved(room, keys, m, 0) == Moved(room, keys, m + 1, 0)
    ensures Moved(room, keys, m, 0) == room
  {
    var a, b := Moved(room, keys, m, 0), Moved(room, keys, m + 1, 0);
    assert forall k :: k in room ==> a[k] == Min(room[k], m) && b[k] == Min(room[k], m + 1);
  }

  /** One step moves at most one unit. */
  lemma StepSum(room: map<string, int>, keys: seq<string>, m: nat, i: nat)
    requires Rounds(room, keys) && i < |keys|
    ensures keys[i] in room
    ensures Sum(Moved(room, keys, m, i + 1)) == Sum(Moved(room, keys, m, i)) + if room[keys[i]] > m then 1 else 0
  {
    MovedStep(room, keys, m, i);
    SumSet(Moved(room, keys, m, i), keys[i], Min(room[keys[i]], m + 1));
  }

  lemma Reach(room: map<string, int>, keys: seq<string>, t: int, m: nat, i: nat) returns (m': nat, i': nat)
    requires Rounds(room, keys) && i <= |keys|
    requires Sum(Moved(room, keys, m, 0)) <= Sum(Moved(room, keys, m, i)) <= t <= Sum(room)
    ensures i' <= |keys| && Sum(Moved(room, keys, m', i')) == t
    decreases t - Sum(Moved(room, keys, m, 0)), |keys| - i
  {
    hide Rounds;
    hide Moved;
    m', i' := m, i;
    if Sum(Moved(room, keys, m, i)) < t {
      if i < |keys| {
        StepSum(room, keys, m, i);
        m', i' := Reach(room, keys, t, m, i + 1);
      } else {
        MovedWraps(room, keys, m);
        RoundMoves(room, keys, m);
        m', i' := Reach(room, keys, t, m + 1, 0);
      }
    }
  }

  /** The rounds come by a total of exactly t if and only if there is room for t. */
  lemma {:induction false} ReachableIff(room: map<string, int>, keys: seq<string>, t: int)
    requires Rounds(room, keys)
    ensures (exists m: nat, i: nat :: i <= |keys| && Sum(Moved(room, keys, m, i)) == t) <==> 0 <= t <= Sum(room)
  {
    hide Rounds;
    hide Moved;
    if m: nat, i: nat :| i <= |keys| && Sum(Moved(room, keys, m, i)) == t {
      MovedFits(room, keys, m, i);
    }
    if 0 <= t <= Sum(room) {
      NothingMoved(room, keys);
      var m, i := Reach(room, keys, t, 0, 0);
    }
  }

  lemma MovedOrdered(room: map<string, int>, keys: seq<string>, m: nat, i: nat, m': nat, i': nat)
    requires i <= |keys| && i' <= |keys| && (m < m' || (m == m' && i <= i'))
    ensures forall k :: k in room ==> Moved(room, keys, m, i)[k] <= Moved(room, keys, m', i')[k]
  {
    if m == m' {
      assert keys[..i] == keys[..i'][..i];
    }
  }

  /** The amount moved determines who has got what. */
  lemma MovedUnique(room: map<string, int>, keys: seq<string>, m: nat, i: nat, m': nat, i': nat)
    requires i <= |keys| && i' <= |keys|
    requires Sum(Moved(room, keys, m, i)) == Sum(Moved(room, keys, m', i'))
    ensures Moved(room, keys, m, i) == Moved(room, keys, m', i')
  {
    hide Moved;
    if m < m' || (m == m' && i <= i') {
      MovedOrdered(room, keys, m, i, m', i');
      SumLeq(Moved(room, keys, m, i), Moved(room, keys, m', i'));
    } else {
      MovedOrdered(room, keys, m', i', m, i);
      SumLeq(Moved(room, keys, m', i'), Moved(room, keys, m, i));
    }
  }
}
