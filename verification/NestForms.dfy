/** Keys, stores and the list test in closed form, for all inputs: also for those that do not
    come back from a round trip. */
module NestForms {
  import opened Prelude
  import opened Nest
  import opened NestLists

  /** A key that counts as none, so that nothing is put after it. */
  predicate Void(k: Key) {
    k == Name("") || k == Place(0)
  }

  /** Keys written out, with separators between them. */
  function Joined(p: Steps, sep: char): string
    requires p != []
  {
    if |p| == 1 then Show(p[0]) else Show(p[0]) + [sep] + Joined(p[1..], sep)
  }

  lemma {:induction false} StoredAfter(previous: Key, sep: char, p: Steps)
    requires !Void(previous) && p != []
    ensures StoredUnder(previous, sep, p) == Name(Show(previous) + [sep] + Joined(p, sep))
    decreases |p|
  {
    hide Show;
    hide Joined;
    assert Counts(previous);
    var next := Extend(previous, sep, p[0]);
    assert next == Name(Show(previous) + [sep] + Show(p[0]));
    StoredNext(previous, sep, p, next);
    if |p| == 1 {
      JoinedOne(p, sep);
      assert p[1..] == [];
    } else {
      assert |next.text| > 0;
      StoredAfter(next, sep, p[1..]);
      JoinedMore(p, sep);
      ShowName(next);
      assert Show(previous) + [sep] + Show(p[0]) + [sep] + Joined(p[1..], sep)
          == Show(previous) + [sep] + (Show(p[0]) + [sep] + Joined(p[1..], sep));
    }
  }

  lemma {:induction false} StoredNext(previous: Key, sep: char, p: Steps, next: Key)
    requires p != [] && next == Extend(previous, sep, p[0])
    ensures StoredUnder(previous, sep, p) == StoredUnder(next, sep, p[1..])
    ensures |p| == 1 ==> StoredUnder(previous, sep, p) == next
  {
  }

  lemma {:induction false} JoinedOne(p: Steps, sep: char)
    requires |p| == 1
    ensures Joined(p, sep) == Show(p[0])
  {
  }

  lemma {:induction false} JoinedMore(p: Steps, sep: char)
    requires |p| > 1
    ensures Joined(p, sep) == Show(p[0]) + [sep] + Joined(p[1..], sep)
  {
  }

  lemma ShowName(k: Key)
    requires k.Name?
    ensures Show(k) == k.text
  {
  }

  /** The key of a leaf: void steps at the front leave no trace, and what follows them is joined;
      a single step that is left stays as it is, an index included. */
  lemma {:induction false} StoredUnderIs(sep: char, p: Steps, m: nat)
    requires m < |p| && (forall i :: 0 <= i < m ==> Void(p[i])) && (Void(p[m]) ==> m == |p| - 1)
    ensures StoredUnder(Name(""), sep, p) == if m == |p| - 1 then p[m] else Name(Joined(p[m..], sep))
  {
    StoredPastVoid(Name(""), sep, p, m);
  }

  lemma {:induction false} StoredPastVoid(previous: Key, sep: char, p: Steps, m: nat)
    requires Void(previous)
    requires m < |p| && (forall i :: 0 <= i < m ==> Void(p[i])) && (Void(p[m]) ==> m == |p| - 1)
    ensures StoredUnder(previous, sep, p) == if m == |p| - 1 then p[m] else Name(Joined(p[m..], sep))
    decreases |p|
  {
    hide Joined;
    StoredNext(previous, sep, p, p[0]);
    if m > 0 {
      StoredPastVoid(p[0], sep, p[1..], m - 1);
      assert p[1..][m - 1..] == p[m..];
    } else if |p| > 1 {
      StoredAfter(p[0], sep, p[1..]);
      JoinedMore(p, sep);
      assert p[0..] == p;
    }
  }

  /** What is found along a path of dictionary keys. */
  function ValueAt(j: Json, p: Path): Option<Json> {
    if p == [] then Some(j)
    else if j.Dict? && p[0] in j.entries then ValueAt(j.entries[p[0]], p[1..])
    else None
  }

  /** Nothing but dictionaries on the way to p. */
  predicate Open(m: Entries, p: Path) {
    forall n :: 0 < n < |p| ==> OpenAt(m, p[..n])
  }

  predicate OpenAt(m: Entries, p: Path) {
    ValueAt(Dict(m), p).Some? ==> ValueAt(Dict(m), p).value.Dict?
  }

  lemma {:induction false} OpenBelow(m: Entries, p: Path)
    requires |p| > 1 && (p[0] in m ==> m[p[0]].Dict?)
    ensures Open(m, p) <==> Open(if p[0] in m then m[p[0]].entries else map[], p[1..])
  {
    var below := if p[0] in m then m[p[0]].entries else map[];
    var rest := p[1..];
    forall n | 0 < n < |rest| ensures OpenAt(below, rest[..n]) <==> OpenAt(m, p[..n + 1]) {
      assert p[..n + 1][1..] == rest[..n] && p[..n + 1][0] == p[0];
      assert rest[..n] != [];
    }
    assert OpenAt(m, p[..1]) by { assert p[..1] == [p[0]] && [p[0]][1..] == []; }
    if Open(below, rest) {
      forall n | 0 < n < |p| ensures OpenAt(m, p[..n]) {
        if n > 1 {
          assert OpenAt(below, rest[..n - 1]);
        }
      }
    }
  }

  /** A value can be stored exactly if nothing but dictionaries is on the way. */
  lemma {:induction false} PutAccepts(m: Entries, p: Path, v: Json)
    requires p != []
    ensures Put(m, p, v).Ok? <==> Open(m, p)
    decreases |p|
  {
    hide ValueAt;
    if |p| > 1 {
      if p[0] in m && !m[p[0]].Dict? {
        FirstStep(m, p);
        assert !OpenAt(m, p[..1]);
      } else {
        var child := if p[0] in m then m[p[0]].entries else map[];
        OpenBelow(m, p);
        PutAccepts(child, p[1..], v);
      }
    }
  }

  lemma FirstStep(m: Entries, p: Path)
    requires p != [] && p[0] in m
    ensures ValueAt(Dict(m), p[..1]) == Some(m[p[0]])
  {
    assert p[..1] == [p[0]] && [p[0]][1..] == [];
  }

  /** Then it is found there, and everything apart from it is as it was. */
  lemma {:induction false} PutStores(m: Entries, p: Path, v: Json, q: Path)
    requires p != [] && Put(m, p, v).Ok?
    ensures ValueAt(Dict(Put(m, p, v).value), p) == Some(v)
    ensures Apart(p, q) ==> ValueAt(Dict(Put(m, p, v).value), q) == ValueAt(Dict(m), q)
    decreases |p|
  {
    if |p| == 1 {
      assert p[1..] == [];
      if Apart(p, q) {
        assert p == [p[0]] && (q[0] == p[0] ==> p <= q);
      }
    } else {
      var child := if p[0] in m then m[p[0]].entries else map[];
      if Apart(p, q) && q[0] == p[0] {
        TailApart(p, q);
        PutStores(child, p[1..], v, q[1..]);
        if p[0] !in m {
          NothingThere(q[1..]);
        }
      } else {
        PutStores(child, p[1..], v, []);
      }
    }
  }

  lemma {:induction false} NothingThere(q: Path)
    requires q != []
    ensures ValueAt(Dict(map[]), q) == None
  {
  }

  /** The list test of the original, on the keys read as integers and sorted. */
  predicate LooksLikeList(ints: seq<int>) {
    && |ints| > 0
    && SumOver(ints) == (|ints| - 1) * |ints| / 2
    && ints[0] == 0
    && ints[|ints| - 1] == |ints| - 1
    && forall i :: 0 < i < |ints| ==> ints[i] - ints[i - 1] == 1
  }

  function SumOver(ints: seq<int>): int {
    if ints == [] then 0 else SumOver(ints[..|ints| - 1]) + ints[|ints| - 1]
  }

  predicate Ordered(ints: seq<int>) {
    forall i, j :: 0 <= i < j < |ints| ==> ints[i] <= ints[j]
  }

  predicate CountsUp(ints: seq<int>) {
    forall i :: 0 <= i < |ints| ==> ints[i] == i
  }

  lemma {:induction false} GaussSum(ints: seq<int>)
    requires CountsUp(ints)
    ensures SumOver(ints) == (|ints| - 1) * |ints| / 2
  {
    if ints != [] {
      var n := |ints| - 1;
      GaussSum(ints[..n]);
      TriangleNext(n);
    }
  }

  lemma TriangleNext(n: nat)
    ensures (n - 1) * n / 2 + n == n * (n + 1) / 2
  {
    assert n * (n + 1) == (n - 1) * n + 2 * n;
  }

  lemma {:induction false} StepsCountUp(ints: seq<int>, i: nat)
    requires LooksLikeList(ints) && i < |ints|
    ensures ints[i] == i
  {
    if i > 0 {
      StepsCountUp(ints, i - 1);
    }
  }

  /** An ordered list of n numbers that has all numbers below n has nothing else. */
  lemma {:induction false} OrderedFull(ints: seq<int>)
    requires Ordered(ints) && forall i :: 0 <= i < |ints| ==> i in ints
    ensures CountsUp(ints)
  {
    if ints != [] {
      var n := |ints| - 1;
      assert n in ints;
      var p :| 0 <= p < |ints| && ints[p] == n;
      var rest := ints[..p] + ints[p + 1..];
      forall i | 0 <= i < |rest| ensures i in rest {
        assert i in ints;
        var j :| 0 <= j < |ints| && ints[j] == i;
        assert rest[if j < p then j else j - 1] == i;
      }
      forall i, j | 0 <= i < j < |rest| ensures rest[i] <= rest[j] {
      }
      OrderedFull(rest);
      forall j | 0 <= j <= n && j != p ensures ints[j] < n {
        assert rest[if j < p then j else j - 1] == ints[j];
      }
      assert ints[n] >= ints[p];
      assert p == n;
      assert rest == ints[..n];
      forall i | 0 <= i < n ensures ints[i] == i {
        assert rest[i] == ints[i];
      }
    }
  }

  /** names lists the keys, each once, so that the integers they are read as are ordered. */
  ghost predicate ReadInOrder(keys: set<string>, read: Reader, names: seq<string>, ints: seq<int>) {
    && |names| == |ints| == |keys| && (forall k :: k in keys <==> k in names)
    && (forall i :: 0 <= i < |names| ==> read(names[i]) == Some(ints[i]))
    && Ordered(ints)
  }

  /** A dictionary is taken for a list exactly by that test. */
  lemma {:induction false} ListLikeIff(keys: set<string>, read: Reader, names: seq<string>, ints: seq<int>)
    requires ReadInOrder(keys, read, names, ints)
    ensures ListLike(keys, read) <==> LooksLikeList(ints)
  {
    if ListLike(keys, read) {
      forall i | 0 <= i < |ints| ensures i in ints {
        assert ReadAs(keys, read, i);
        var k :| k in keys && read(k) == Some(i);
        assert k in names;
        var j :| 0 <= j < |names| && names[j] == k;
        assert ints[j] == i;
      }
      OrderedFull(ints);
      GaussSum(ints);
    }
    if LooksLikeList(ints) {
      assert names[0] in keys;
      forall i | 0 <= i < |keys| ensures ReadAs(keys, read, i) {
        StepsCountUp(ints, i);
        assert names[i] in keys && read(names[i]) == Some(i);
      }
      forall k | k in keys ensures read(k).Some? {
        var j :| 0 <= j < |names| && names[j] == k;
      }
    }
  }

  /** And never if some key is not a number. */
  lemma UnreadIsNoList(keys: set<string>, read: Reader, k: string)
    requires k in keys && read(k).None?
    ensures !ListLike(keys, read)
  {
  }

  /** What unflatten_list does with the dictionary that unflatten returns: children first; then a
      root that looks like a list has no place to be stored. */
  lemma {:induction false} RootConverted(flat: Flattened, sep: char, read: Reader, m: Entries) returns (c: Entries)
    requires UnflattenAny(flat, sep) == Ok(m)
    ensures (exists k :: k in m && Convert(m[k], read).None?) ==> UnflattenList(flat, sep, read) == Err(MissingIndex)
    ensures (forall k :: k in m ==> Convert(m[k], read).Some?) ==>
      && c.Keys == m.Keys && (forall k :: k in m ==> Convert(m[k], read) == Some(c[k]))
      && UnflattenList(flat, sep, read) == if ListLike(m.Keys, read) then Err(RootIsList) else Ok(c)
  {
    hide Convert;
    hide ListLike;
    hide UnflattenAny;
    hide ConvertChildren;
    assert Dict(m).entries == m;
    c := if ConvertChildren(Dict(m), read).Some? then ConvertChildren(Dict(m), read).value else map[];
  }

  /** A value that is not flat is rejected first, then a key that is not a string. */
  lemma RejectedInOrder(flat: Flattened, sep: char, read: Reader)
    ensures (exists k :: k in flat && !Plain(flat[k])) ==>
      UnflattenList(flat, sep, read) == Err(Unflattening(NotFlat))
    ensures (forall k :: k in flat ==> Plain(flat[k])) && (exists n :: Place(n) in flat) ==>
      UnflattenList(flat, sep, read) == Err(NotText)
  {
    hide Convert;
    hide Unflatten;
  }
}
