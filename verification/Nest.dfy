/** Flattening nested dictionaries to one level, and back. */
module Nest {
  import opened Prelude

  datatype Scalar = Null | Truth(b: bool) | Number(n: real) | Text(s: string)

  datatype Json = Leaf(value: Scalar) | Dict(entries: map<string, Json>) | List(items: seq<Json>)

  type Entries = map<string, Json>

  type Path = seq<string>

  /** Values that flatten takes as they are: scalars, and what is empty. */
  predicate Plain(j: Json) {
    j.Leaf? || (j.Dict? && j.entries == map[]) || (j.List? && j.items == [])
  }

  /** Values that a path does not lead beyond. */
  predicate Terminal(j: Json) {
    j.Dict? ==> j.entries == map[]
  }

  /** The leaf at a path of dictionary keys. */
  function LeafAt(j: Json, p: Path): Option<Json> {
    if p == [] then (if Terminal(j) then Some(j) else None)
    else if j.Dict? && p[0] in j.entries then LeafAt(j.entries[p[0]], p[1..])
    else None
  }

  function Look(m: Entries, p: Path): Option<Json> {
    if p == [] then None else LeafAt(Dict(m), p)
  }

  /** _construct_key; a missing and an empty previous key are alike. */
  function Construct(previous: string, sep: char, key: string): string {
    if previous == "" then key else previous + [sep] + key
  }

  /** The key under which the recursion stores the leaf at a path. */
  function KeyOf(previous: string, sep: char, p: Path): string
    decreases |p|
  {
    if p == [] then previous else KeyOf(Construct(previous, sep, p[0]), sep, p[1..])
  }

  /** The leaf at p is what is stored as v under k. */
  predicate Produces(j: Json, p: Path, previous: string, sep: char, k: string, v: Json) {
    LeafAt(j, p) == Some(v) && KeyOf(previous, sep, p) == k
  }

  /** flat has an entry for every leaf, and nothing else. Where two leaves share a key, one of
      them is kept. */
  ghost predicate IsFlat(m: Entries, sep: char, flat: Entries) {
    && (forall p :: Look(m, p).Some? ==> KeyOf("", sep, p) in flat)
    && (forall k :: k in flat ==> exists p :: p != [] && Produces(Dict(m), p, "", sep, k, flat[k]))
  }

  /** str.split with a separator of one character. */
  function Split(s: string, sep: char): (parts: Path)
    ensures parts != []
  {
    if s == "" then [""]
    else
      var rest := Split(s[1..], sep);
      if s[0] == sep then [""] + rest else [[s[0]] + rest[0]] + rest[1..]
  }

  function Join(p: Path, sep: char): string
    requires p != []
  {
    if |p| == 1 then p[0] else p[0] + [sep] + Join(p[1..], sep)
  }

  predicate SepFree(p: Path, sep: char) {
    forall i :: 0 <= i < |p| ==> sep !in p[i]
  }

  /** No part holds the separator, and an empty part does not lead anywhere else. */
  predicate CleanPath(p: Path, sep: char) {
    p != [] && SepFree(p, sep) && (|p| == 1 || p[0] != "")
  }

  lemma {:induction false} SplitPart(s: string, sep: char)
    requires sep !in s
    ensures Split(s, sep) == [s]
  {
    if s != "" {
      SplitPart(s[1..], sep);
      assert s[0] in s && s == [s[0]] + s[1..];
    }
  }

  lemma {:induction false} SplitFirst(a: string, b: string, sep: char)
    requires sep !in a
    ensures Split(a + [sep] + b, sep) == [a] + Split(b, sep)
  {
    var s := a + [sep] + b;
    if a == "" {
      assert s[1..] == b;
    } else {
      assert s[1..] == a[1..] + [sep] + b;
      SplitFirst(a[1..], b, sep);
      assert s[0] == a[0] && a[0] in a;
      var rest := [a[1..]] + Split(b, sep);
      assert [a[0]] + a[1..] == a && rest[1..] == Split(b, sep);
    }
  }

  lemma {:induction false} SplitJoin(p: Path, sep: char)
    requires p != [] && SepFree(p, sep)
    ensures Split(Join(p, sep), sep) == p
  {
    if |p| == 1 {
      SplitPart(p[0], sep);
    } else {
      SplitFirst(p[0], Join(p[1..], sep), sep);
      SplitJoin(p[1..], sep);
      assert p == [p[0]] + p[1..];
    }
  }

  lemma {:induction false} KeyIsJoin(previous: string, p: Path, sep: char)
    requires p != [] && (previous != "" || |p| == 1 || p[0] != "")
    ensures KeyOf(previous, sep, p) == if previous == "" then Join(p, sep) else previous + [sep] + Join(p, sep)
    decreases |p|
  {
    var next := Construct(previous, sep, p[0]);
    if |p| == 1 {
      assert p[1..] == [];
    } else {
      KeyIsJoin(next, p[1..], sep);
      assert p[0] + [sep] + Join(p[1..], sep) == Join(p, sep);
    }
  }

  /** On clean paths, splitting the key recovers the path. */
  lemma {:induction false} SplitKey(p: Path, sep: char)
    requires CleanPath(p, sep)
    ensures Split(KeyOf("", sep, p), sep) == p
  {
    KeyIsJoin("", p, sep);
    SplitJoin(p, sep);
  }

  datatype NestError = NotFlat | NotADict(path: Path)

  /** The inner _unflatten: walk down through setdefault, then store. */
  function Put(m: Entries, p: Path, v: Json): Result<Entries, NestError>
    requires p != []
    decreases |p|
  {
    if |p| == 1 then Ok(m[p[0] := v])
    else
      var child := if p[0] in m then m[p[0]] else Dict(map[]);
      if !child.Dict? then Err(NotADict(p))
      else
        var below := Put(child.entries, p[1..], v);
        if below.Err? then below else Ok(m[p[0] := Dict(below.value)])
  }

  function Sorted(flat: Entries): (keys: seq<string>)
    ensures |keys| == |flat.Keys|
    ensures forall k :: k in keys <==> k in flat
    ensures Increasing(keys)
  {
    SortedKeys(flat.Keys)
  }

  /** The adjacent-prefix test: this key is taken to be contained in the next one. */
  predicate Skips(keys: seq<string>, i: nat, sep: char)
    requires i < |keys|
  {
    i != |keys| - 1 && var next := Split(keys[i + 1], sep);
      Split(keys[i], sep) == next[..|next| - 1]
  }

  function UnflattenUpTo(flat: Entries, keys: seq<string>, n: nat, sep: char): Result<Entries, NestError>
    requires n <= |keys| && forall k :: k in keys ==> k in flat
  {
    if n == 0 then Ok(map[])
    else
      var before := UnflattenUpTo(flat, keys, n - 1, sep);
      if before.Err? || Skips(keys, n - 1, sep) then before
      else Put(before.value, Split(keys[n - 1], sep), flat[keys[n - 1]])
  }

  function Unflatten(flat: Entries, sep: char): Result<Entries, NestError> {
    if exists k :: k in flat && !Plain(flat[k]) then Err(NotFlat)
    else UnflattenUpTo(flat, Sorted(flat), |flat.Keys|, sep)
  }

  /** Neither path leads through the other. */
  predicate Apart(p: Path, q: Path) {
    !(p <= q) && !(q <= p)
  }

  lemma {:induction false} LeavesApart(j: Json, p: Path, q: Path)
    requires LeafAt(j, p).Some? && LeafAt(j, q).Some? && p != q
    ensures Apart(p, q)
  {
    if p != [] && q != [] && p[0] == q[0] {
      assert p == [p[0]] + p[1..] && q == [q[0]] + q[1..];
      LeavesApart(j.entries[p[0]], p[1..], q[1..]);
    }
  }

  lemma TailApart(p: Path, q: Path)
    requires p != [] && q != [] && p[0] == q[0]
    ensures Apart(p, q) <==> Apart(p[1..], q[1..])
  {
    assert p == [p[0]] + p[1..] && q == [q[0]] + q[1..];
  }

  /** Storing at a path apart from all leaves adds that leaf and keeps all others. */
  lemma {:induction false} PutLeaf(m: Entries, p: Path, v: Json)
    requires p != [] && Terminal(v)
    requires forall q :: Look(m, q).Some? ==> Apart(p, q)
    ensures Put(m, p, v).Ok?
    ensures forall q :: Look(Put(m, p, v).value, q) == if q == p then Some(v) else Look(m, q)
    decreases |p|
  {
    if |p| == 1 {
      PutHere(m, p, v);
    } else {
      NoLeafOnTheWay(m, p);
      var child := if p[0] in m then m[p[0]] else Dict(map[]);
      forall q | Look(child.entries, q).Some? ensures Apart(p[1..], q) {
        assert p[0] in m;
        var whole := [p[0]] + q;
        LookBelow(m, whole);
        assert whole[1..] == q;
        TailApart(p, whole);
      }
      PutLeaf(child.entries, p[1..], v);
      PutUnfolds(m, p, v, child);
      forall q ensures Look(Put(m, p, v).value, q) == if q == p then Some(v) else Look(m, q) {
        LeavesBelow(m, p, v, child.entries, Put(child.entries, p[1..], v).value, q);
      }
    }
  }

  lemma LookBelow(m: Entries, p: Path)
    requires p != [] && p[0] in m
    ensures Look(m, p) == LeafAt(m[p[0]], p[1..])
  {
  }

  lemma PutHere(m: Entries, p: Path, v: Json)
    requires |p| == 1 && Terminal(v)
    requires forall q :: Look(m, q).Some? ==> Apart(p, q)
    ensures forall q :: Look(m[p[0] := v], q) == if q == p then Some(v) else Look(m, q)
  {
    forall q ensures Look(m[p[0] := v], q) == if q == p then Some(v) else Look(m, q) {
      if q != [] && q[0] == p[0] {
        LookBelow(m[p[0] := v], q);
        assert q == [q[0]] + q[1..] && p == [p[0]] && p <= q;
        assert Look(m, q).None?;
      }
    }
  }

  lemma NoLeafOnTheWay(m: Entries, p: Path)
    requires |p| > 1 && forall q :: Look(m, q).Some? ==> Apart(p, q)
    ensures p[0] in m ==> m[p[0]].Dict? && m[p[0]].entries != map[]
  {
    OnePartIsOnTheWay(p);
    if p[0] in m && Terminal(m[p[0]]) {
      LeafHere(m, p[0]);
    }
  }

  lemma OnePartIsOnTheWay(p: Path)
    requires |p| > 1
    ensures !Apart(p, [p[0]])
  {
    assert [p[0]] <= p;
  }

  lemma LeafHere(m: Entries, k: string)
    requires k in m && Terminal(m[k])
    ensures Look(m, [k]) == Some(m[k])
  {
    LookBelow(m, [k]);
    assert [k][1..] == [];
  }

  /** The leaves after the value at k was replaced by a dictionary with one leaf more. */
  lemma LeavesBelow(m: Entries, p: Path, v: Json, child: Entries, below: Entries, q: Path)
    requires |p| > 1 && (if p[0] in m then m[p[0]] == Dict(child) && child != map[] else child == map[])
    requires forall r :: Look(below, r) == if r == p[1..] then Some(v) else Look(child, r)
    ensures Look(m[p[0] := Dict(below)], q) == if q == p then Some(v) else Look(m, q)
  {
    var after := m[p[0] := Dict(below)];
    if q != [] && q[0] == p[0] {
      assert q == [q[0]] + q[1..] && p == [p[0]] + p[1..];
      assert Look(below, p[1..]) == Some(v);
      BelowAt(below, v, p[1..]);
      LookBelow(after, q);
      assert Look(below, q[1..]) == if q == p then Some(v) else Look(child, q[1..]);
      if p[0] in m {
        LookBelow(m, q);
      }
    }
  }

  lemma {:induction false} PutUnfolds(m: Entries, p: Path, v: Json, child: Json)
    requires |p| > 1 && child == (if p[0] in m then m[p[0]] else Dict(map[])) && child.Dict?
    requires Put(child.entries, p[1..], v).Ok?
    ensures Put(m, p, v) == Ok(m[p[0] := Dict(Put(child.entries, p[1..], v).value)])
  {
  }

  lemma BelowAt(below: Entries, v: Json, p: Path)
    requires p != [] && Look(below, p) == Some(v)
    ensures LeafAt(Dict(below), []).None?
  {
    assert p[0] in below;
  }

  /** Every non-empty dictionary has a leaf. */
  lemma {:induction false} SomeLeaf(j: Json) returns (p: Path)
    ensures LeafAt(j, p).Some?
    decreases j
  {
    p := [];
    if !Terminal(j) {
      var k :| k in j.entries;
      var q := SomeLeaf(j.entries[k]);
      p := [k] + q;
      assert p[1..] == q;
    }
  }

  ghost predicate SameLeaves(a: Json, b: Json) {
    forall p :: LeafAt(a, p) == LeafAt(b, p)
  }

  /** A value is determined by its leaves. */
  lemma {:induction false} LeavesDetermine(a: Json, b: Json)
    requires SameLeaves(a, b)
    ensures a == b
    decreases a
  {
    assert LeafAt(a, []) == LeafAt(b, []);
    if !Terminal(a) {
      assert !Terminal(b);
      SameKeys(a, b);
      SameKeys(b, a);
      forall k | k in a.entries ensures a.entries[k] == b.entries[k] {
        SameBelow(a, b, k);
        LeavesDetermine(a.entries[k], b.entries[k]);
      }
      assert a.entries == b.entries;
    }
  }

  lemma SameKeys(a: Json, b: Json)
    requires SameLeaves(a, b) && !Terminal(a) && !Terminal(b)
    ensures forall k :: k in a.entries ==> k in b.entries
  {
    forall k | k in a.entries ensures k in b.entries {
      var q := SomeLeaf(a.entries[k]);
      var p := [k] + q;
      assert p[1..] == q && LeafAt(a, p).Some?;
      assert LeafAt(b, p).Some?;
    }
  }

  lemma SameBelow(a: Json, b: Json, k: string)
    requires SameLeaves(a, b) && !Terminal(a) && !Terminal(b) && k in a.entries && k in b.entries
    ensures SameLeaves(a.entries[k], b.entries[k])
  {
    forall q ensures LeafAt(a.entries[k], q) == LeafAt(b.entries[k], q) {
      var p := [k] + q;
      assert p[1..] == q && LeafAt(a, p) == LeafAt(b, p);
    }
  }

  predicate ListFree(j: Json) {
    match j
    case Leaf(_) => true
    case Dict(m) => forall k :: k in m ==> ListFree(m[k])
    case List(items) => items == []
  }

  /** No key at any depth holds the separator. */
  predicate KeysFree(j: Json, sep: char) {
    j.Dict? ==> forall k :: k in j.entries ==> sep !in k && KeysFree(j.entries[k], sep)
  }

  /** An empty key at the top leads to nothing else. */
  predicate Rooted(m: Entries) {
    "" in m ==> Terminal(m[""])
  }

  ghost predicate Clean(m: Entries, sep: char) {
    ListFree(Dict(m)) && KeysFree(Dict(m), sep) && Rooted(m)
  }

  lemma {:induction false} FreePaths(j: Json, p: Path, sep: char)
    requires ListFree(j) && KeysFree(j, sep) && LeafAt(j, p).Some?
    ensures SepFree(p, sep) && Plain(LeafAt(j, p).value)
  {
    if p != [] {
      assert p == [p[0]] + p[1..];
      FreePaths(j.entries[p[0]], p[1..], sep);
    }
  }

  lemma CleanPaths(m: Entries, p: Path, sep: char)
    requires Clean(m, sep) && Look(m, p).Some?
    ensures CleanPath(p, sep) && Plain(Look(m, p).value)
  {
    FreePaths(Dict(m), p, sep);
    if p[0] == "" && |p| > 1 {
      LookBelow(m, p);
    }
  }

  /** Splitting a stored key leads to a leaf, which is what is stored there. */
  lemma {:induction false} StoredAt(m: Entries, sep: char, flat: Entries, k: string)
    requires Clean(m, sep) && IsFlat(m, sep, flat) && k in flat
    ensures Look(m, Split(k, sep)) == Some(flat[k]) && CleanPath(Split(k, sep), sep) && Plain(flat[k])
    ensures KeyOf("", sep, Split(k, sep)) == k
  {
    var p :| p != [] && Produces(Dict(m), p, "", sep, k, flat[k]);
    CleanPaths(m, p, sep);
    SplitKey(p, sep);
  }

  lemma PartOfNext(p: Path, next: Path)
    requires next != [] && p == next[..|next| - 1]
    ensures p != next && !Apart(p, next)
  {
  }

  lemma {:induction false} NotContained(m: Entries, sep: char, flat: Entries, a: string, b: string)
    requires Clean(m, sep) && IsFlat(m, sep, flat) && a in flat && b in flat
    ensures var next := Split(b, sep);
      Split(a, sep) != next[..|next| - 1]
  {
    hide Clean;
    hide IsFlat;
    hide Split;
    hide Apart;
    hide LeafAt;
    StoredAt(m, sep, flat, a);
    StoredAt(m, sep, flat, b);
    var p, next := Split(a, sep), Split(b, sep);
    if p == next[..|next| - 1] {
      PartOfNext(p, next);
      LeavesApart(Dict(m), p, next);
    }
  }

  /** Of two stored keys none is contained in the other, so the adjacent-prefix test never
      fires. */
  lemma NeverSkips(m: Entries, sep: char, flat: Entries, i: nat)
    requires Clean(m, sep) && IsFlat(m, sep, flat) && i < |Sorted(flat)|
    ensures !Skips(Sorted(flat), i, sep)
  {
    hide Clean;
    hide IsFlat;
    hide Split;
    hide Sorted;
    hide Increasing;
    var keys := Sorted(flat);
    if i != |keys| - 1 {
      assert keys[i] in keys && keys[i + 1] in keys;
      NotContained(m, sep, flat, keys[i], keys[i + 1]);
    }
  }

  /** Among the first n keys. */
  predicate Done(keys: seq<string>, n: nat, p: Path, sep: char)
    requires n <= |keys|
  {
    exists i :: 0 <= i < n && Split(keys[i], sep) == p
  }

  lemma {:induction false} SplitApart(m: Entries, sep: char, flat: Entries, keys: seq<string>, n: nat, p: Path)
    requires Clean(m, sep) && IsFlat(m, sep, flat) && keys == Sorted(flat)
    requires n < |keys| && Done(keys, n, p, sep)
    ensures Apart(Split(keys[n], sep), p)
  {
    hide Clean;
    hide IsFlat;
    hide StrLt;
    var i :| 0 <= i < n && Split(keys[i], sep) == p;
    StoredAt(m, sep, flat, keys[i]);
    StoredAt(m, sep, flat, keys[n]);
    StrLtIrreflexive(keys[n]);
    assert keys[i] != keys[n];
    LeavesApart(Dict(m), Split(keys[n], sep), p);
  }

  /** After n keys the leaves are exactly those stored under the first n keys. */
  ghost predicate Reached(m: Entries, keys: seq<string>, n: nat, sep: char, r: Result<Entries, NestError>)
    requires n <= |keys|
  {
    r.Ok? && forall p :: Look(r.value, p) == if Done(keys, n, p, sep) then Look(m, p) else None
  }

  lemma {:induction false} UnflattenPrefix(m: Entries, sep: char, flat: Entries, keys: seq<string>, n: nat)
    requires Clean(m, sep) && IsFlat(m, sep, flat) && keys == Sorted(flat) && n <= |keys|
    ensures Reached(m, keys, n, sep, UnflattenUpTo(flat, keys, n, sep))
  {
    hide Clean;
    hide IsFlat;
    hide Reached;
    hide Put;
    hide Split;
    hide Skips;
    hide Sorted;
    hide Increasing;
    if n == 0 {
      NothingReached(m, keys, sep);
    } else {
      UnflattenPrefix(m, sep, flat, keys, n - 1);
      NeverSkips(m, sep, flat, n - 1);
      ReachedOk(m, keys, n - 1, sep, UnflattenUpTo(flat, keys, n - 1, sep));
      StoreNext(m, sep, flat, keys, n - 1, UnflattenUpTo(flat, keys, n - 1, sep).value);
    }
  }

  lemma NothingReached(m: Entries, keys: seq<string>, sep: char)
    ensures Reached(m, keys, 0, sep, Ok(map[]))
  {
    NothingDone(keys, sep);
  }

  lemma ReachedOk(m: Entries, keys: seq<string>, n: nat, sep: char, r: Result<Entries, NestError>)
    requires n <= |keys| && Reached(m, keys, n, sep, r)
    ensures r.Ok?
  {
  }

  lemma {:induction false} StoreNext(m: Entries, sep: char, flat: Entries, keys: seq<string>, n: nat, before: Entries)
    requires Clean(m, sep) && IsFlat(m, sep, flat) && keys == Sorted(flat) && n < |keys|
    requires Reached(m, keys, n, sep, Ok(before))
    ensures Reached(m, keys, n + 1, sep, Put(before, Split(keys[n], sep), flat[keys[n]]))
  {
    hide Clean;
    hide IsFlat;
    hide Increasing;
    hide Put;
    hide Done;
    hide Apart;
    hide Look;
    hide Sorted;
    hide Split;
    var k := keys[n];
    StoredAt(m, sep, flat, k);
    forall q | Look(before, q).Some? ensures Apart(Split(k, sep), q) {
      SplitApart(m, sep, flat, keys, n, q);
    }
    PutLeaf(before, Split(k, sep), flat[k]);
    forall p ensures Done(keys, n + 1, p, sep) <==> Done(keys, n, p, sep) || p == Split(k, sep) {
      OneMoreDone(keys, n, p, sep);
    }
  }

  lemma NothingDone(keys: seq<string>, sep: char)
    ensures forall p :: !Done(keys, 0, p, sep)
    ensures forall p :: Look(map[], p).None?
  {
  }

  lemma {:induction false} OneMoreDone(keys: seq<string>, n: nat, p: Path, sep: char)
    requires n < |keys|
    ensures Done(keys, n + 1, p, sep) <==> Done(keys, n, p, sep) || p == Split(keys[n], sep)
  {
    if Done(keys, n, p, sep) {
      var i :| 0 <= i < n && Split(keys[i], sep) == p;
    }
    assert p == Split(keys[n], sep) ==> Done(keys, n + 1, p, sep);
  }

  /** Every leaf is stored under some key. */
  lemma LeafDone(m: Entries, sep: char, flat: Entries, p: Path)
    requires Clean(m, sep) && IsFlat(m, sep, flat) && Look(m, p).Some?
    ensures Done(Sorted(flat), |Sorted(flat)|, p, sep)
  {
    hide Clean;
    hide Increasing;
    CleanPaths(m, p, sep);
    SplitKey(p, sep);
    var keys := Sorted(flat);
    assert KeyOf("", sep, p) in keys;
    var i :| 0 <= i < |keys| && keys[i] == KeyOf("", sep, p);
  }

  /** What flatten made of a clean dictionary, unflatten undoes. */
  lemma CleanRoundTrip(m: Entries, sep: char, flat: Entries)
    requires Clean(m, sep) && IsFlat(m, sep, flat)
    ensures Unflatten(flat, sep) == Ok(m)
  {
    hide Clean;
    hide IsFlat;
    hide Increasing;
    hide Done;
    hide UnflattenUpTo;
    hide Look;
    forall k | k in flat ensures Plain(flat[k]) {
      StoredAt(m, sep, flat, k);
    }
    var keys := Sorted(flat);
    UnflattenPrefix(m, sep, flat, keys, |keys|);
    var r := UnflattenUpTo(flat, keys, |keys|, sep).value;
    forall p ensures Look(r, p) == Look(m, p) {
      if Look(m, p).Some? {
        LeafDone(m, sep, flat, p);
      }
    }
    LooksDetermine(r, m);
  }

  lemma {:induction false} SplitFree(s: string, sep: char)
    ensures SepFree(Split(s, sep), sep)
  {
    if s != "" {
      SplitFree(s[1..], sep);
    }
  }

  lemma {:induction false} PutFree(m: Entries, p: Path, v: Json, sep: char)
    requires p != [] && SepFree(p, sep) && Terminal(v) && KeysFree(Dict(m), sep)
    ensures Put(m, p, v).Ok? ==> KeysFree(Dict(Put(m, p, v).value), sep)
    decreases |p|
  {
    if |p| > 1 {
      var child := if p[0] in m then m[p[0]] else Dict(map[]);
      if child.Dict? {
        assert child == Dict(child.entries);
        PutFree(child.entries, p[1..], v, sep);
      }
    }
  }

  /** No key that unflatten makes holds the separator. */
  lemma {:induction false} UnflattenFree(flat: Entries, keys: seq<string>, n: nat, sep: char)
    requires n <= |keys| && forall k :: k in keys ==> k in flat && Plain(flat[k])
    ensures var r := UnflattenUpTo(flat, keys, n, sep);
      r.Ok? ==> KeysFree(Dict(r.value), sep)
  {
    hide Put;
    hide Split;
    hide Skips;
    if n > 0 {
      UnflattenFree(flat, keys, n - 1, sep);
      var before := UnflattenUpTo(flat, keys, n - 1, sep);
      if before.Ok? {
        SplitFree(keys[n - 1], sep);
        PutFree(before.value, Split(keys[n - 1], sep), flat[keys[n - 1]], sep);
      }
    }
  }

  predicate StartsWith(s: string, sep: char) {
    s != "" && s[0] == sep
  }

  lemma {:induction false} KeyStarts(previous: string, sep: char, p: Path)
    requires !StartsWith(previous, sep) && SepFree(p, sep)
    ensures !StartsWith(KeyOf(previous, sep, p), sep)
    decreases |p|
  {
    if p != [] {
      KeyStarts(Construct(previous, sep, p[0]), sep, p[1..]);
    }
  }

  lemma {:induction false} SplitStarts(s: string, sep: char)
    requires !StartsWith(s, sep)
    ensures Split(s, sep)[0] == "" ==> |Split(s, sep)| == 1
  {
  }

  /** Unless a stored key begins with the separator, the result leads nowhere from an empty
      key at the top. */
  lemma {:induction false} UnflattenRooted(flat: Entries, keys: seq<string>, n: nat, sep: char)
    requires n <= |keys| && forall k :: k in keys ==> k in flat && Plain(flat[k]) && !StartsWith(k, sep)
    ensures var r := UnflattenUpTo(flat, keys, n, sep);
      r.Ok? ==> Rooted(r.value)
  {
    hide Split;
    hide Skips;
    if n > 0 {
      UnflattenRooted(flat, keys, n - 1, sep);
      SplitStarts(keys[n - 1], sep);
    }
  }

  /** The round trip holds exactly for the dictionaries no key of which holds the separator
      and whose empty top-level key, if there is one, leads to nothing else. */
  lemma {:induction false} RoundTripIff(m: Entries, sep: char, flat: Entries)
    requires ListFree(Dict(m)) && IsFlat(m, sep, flat)
    ensures Unflatten(flat, sep) == Ok(m) <==> KeysFree(Dict(m), sep) && Rooted(m)
  {
    if KeysFree(Dict(m), sep) && Rooted(m) {
      CleanRoundTrip(m, sep, flat);
    }
    if Unflatten(flat, sep) == Ok(m) {
      RoundTripNeeds(m, sep, flat);
    }
  }

  lemma {:induction false} RoundTripNeeds(m: Entries, sep: char, flat: Entries)
    requires ListFree(Dict(m)) && IsFlat(m, sep, flat) && Unflatten(flat, sep) == Ok(m)
    ensures KeysFree(Dict(m), sep) && Rooted(m)
  {
    hide UnflattenUpTo;
    hide Increasing;
    hide KeysFree;
    hide ListFree;
    hide LeafAt;
    hide KeyOf;
    var keys := Sorted(flat);
    UnflattenFree(flat, keys, |keys|, sep);
    forall k | k in keys ensures !StartsWith(k, sep) {
      var p :| p != [] && Produces(Dict(m), p, "", sep, k, flat[k]);
      FreePaths(Dict(m), p, sep);
      KeyStarts("", sep, p);
    }
    UnflattenRooted(flat, keys, |keys|, sep);
  }

  lemma LooksDetermine(a: Entries, b: Entries)
    requires forall p :: Look(a, p) == Look(b, p)
    ensures a == b
  {
    if a == map[] || b == map[] {
      NoLeafEmpty(a, b);
      NoLeafEmpty(b, a);
    } else {
      forall p ensures LeafAt(Dict(a), p) == LeafAt(Dict(b), p) {
        if p != [] {
          assert Look(a, p) == Look(b, p);
        }
      }
      LeavesDetermine(Dict(a), Dict(b));
    }
  }

  lemma NoLeafEmpty(a: Entries, b: Entries)
    requires forall p :: Look(a, p) == Look(b, p)
    ensures a == map[] ==> b == map[]
  {
    if b != map[] {
      var p := SomeLeaf(Dict(b));
      assert Look(a, p) == Look(b, p);
    }
  }

  /** The dictionary that _unflatten fills. */
  class NestedDict {
    var entries: Entries

    constructor ()
      ensures entries == map[]
    {
      entries := map[];
    }

    method Store(p: Path, v: Json) returns (error: Option<NestError>)
      requires p != []
      modifies this
      ensures var r := Put(old(entries), p, v);
        && (r.Ok? ==> error.None? && entries == r.value)
        && (r.Err? ==> error == Some(r.error))
    {
      var r := Put(entries, p, v);
      if r.Err? {
        return Some(r.error);
      }
      entries := r.value;
      return None;
    }
  }

  lemma {:induction false} ErrorStays(flat: Entries, keys: seq<string>, n: nat, k: nat, sep: char)
    requires n <= k <= |keys| && forall key :: key in keys ==> key in flat
    requires UnflattenUpTo(flat, keys, n, sep).Err?
    ensures UnflattenUpTo(flat, keys, k, sep) == UnflattenUpTo(flat, keys, n, sep)
    decreases k
  {
    hide Split;
    hide Put;
    hide Skips;
    if n < k {
      ErrorStays(flat, keys, n, k - 1, sep);
    }
  }

  method AllPlain(flat: Entries) returns (plain: bool)
    ensures plain <==> forall k :: k in flat ==> Plain(flat[k])
  {
    plain := true;
    var rest := flat;
    while rest != map[]
      invariant rest.Keys <= flat.Keys && forall k :: k in rest ==> rest[k] == flat[k]
      invariant plain <==> forall k :: k in flat && k !in rest ==> Plain(flat[k])
      decreases |rest|
    {
      var k :| k in rest;
      assert (rest - {k}).Keys == rest.Keys - {k};
      plain := plain && Plain(rest[k]);
      rest := rest - {k};
    }
  }

  /** The loop over the sorted keys. */
  method UnflattenKeys(flat: Entries, keys: seq<string>, sep: char) returns (r: Result<Entries, NestError>)
    requires forall k :: k in keys ==> k in flat
    ensures r == UnflattenUpTo(flat, keys, |keys|, sep)
  {
    hide Put;
    hide Split;
    hide Skips;
    var nested := new NestedDict();
    for i := 0 to |keys|
      invariant UnflattenUpTo(flat, keys, i, sep) == Ok(nested.entries)
    {
      if !Skips(keys, i, sep) {
        var error := nested.Store(Split(keys[i], sep), flat[keys[i]]);
        if error.Some? {
          ErrorStays(flat, keys, i + 1, |keys|, sep);
          return Err(error.value);
        }
      }
    }
    r := Ok(nested.entries);
  }

  method UnflattenDict(flat: Entries, sep: char) returns (r: Result<Entries, NestError>)
    ensures r == Unflatten(flat, sep)
  {
    hide Increasing;
    hide UnflattenUpTo;
    hide Plain;
    var plain := AllPlain(flat);
    if !plain {
      return Err(NotFlat);
    }
    r := UnflattenKeys(flat, Sorted(flat), sep);
  }
}
