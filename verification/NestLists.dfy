/** flatten on values with lists, and unflatten_list, which guesses the lists back from
    dictionaries whose keys are consecutive numbers. */
module NestLists {
  import opened Prelude
  import opened Nest

  /** The dictionary that flatten makes of a list: its items under their indices. */
  function Numbered(j: Json, n: nat): (e: Entries)
    requires j.List? && n <= |j.items|
    decreases j, 0, n
  {
    if n == 0 then map[] else Numbered(j, n - 1)[Decimal(n - 1) := ToDict(j.items[n - 1])]
  }

  /** The value with every list that holds something replaced by a dictionary. */
  function ToDict(j: Json): Json
    decreases j, 1, 0
  {
    match j
    case Leaf(_) => j
    case Dict(m) => Dict(map k | k in m :: ToDict(m[k]))
    case List(items) => if items == [] then j else Dict(Numbered(j, |items|))
  }

  function ToEntries(m: Entries): (e: Entries)
    ensures Dict(e) == ToDict(Dict(m))
  {
    map k | k in m :: ToDict(m[k])
  }

  lemma {:induction false} DecimalInjective(a: nat, b: nat)
    requires Decimal(a) == Decimal(b)
    ensures a == b
  {
    DecimalLast(a);
    DecimalLast(b);
    if a >= 10 && b >= 10 {
      DecimalInjective(a / 10, b / 10);
    }
  }

  lemma {:induction false} DecimalLast(n: nat)
    ensures var s := Decimal(n);
      && s[|s| - 1] == '0' + (n % 10) as char
      && s[..|s| - 1] == (if n < 10 then "" else Decimal(n / 10))
      && (s[..|s| - 1] == "" <==> n < 10)
  {
  }

  lemma {:induction false} DecimalDigits(n: nat)
    ensures forall i :: 0 <= i < |Decimal(n)| ==> '0' <= Decimal(n)[i] <= '9'
  {
    if n >= 10 {
      DecimalDigits(n / 10);
    }
  }

  /** Some index below n is written k. */
  predicate Index(k: string, n: nat) {
    exists i :: 0 <= i < n && Decimal(i) == k
  }

  lemma IndexNext(k: string, n: nat)
    ensures Index(k, n + 1) <==> Index(k, n) || k == Decimal(n)
    ensures !Index(Decimal(n), n)
  {
    if i :| 0 <= i < n && Decimal(i) == Decimal(n) {
      DecimalInjective(i, n);
    }
    if Index(k, n) {
      var i :| 0 <= i < n && Decimal(i) == k;
      assert 0 <= i < n + 1;
    }
    if k == Decimal(n) {
      assert 0 <= n < n + 1;
    }
  }

  lemma {:induction false} NumberedEntries(j: Json, n: nat)
    requires j.List? && n <= |j.items|
    ensures |Numbered(j, n)| == n
    ensures forall k :: k in Numbered(j, n) <==> Index(k, n)
    ensures forall i :: 0 <= i < n ==> Decimal(i) in Numbered(j, n) && Numbered(j, n)[Decimal(i)] == ToDict(j.items[i])
  {
    hide Decimal;
    hide ToDict;
    hide Index;
    if n == 0 {
      assert forall k :: !Index(k, 0) by { NoIndex(); }
    } else {
      NumberedEntries(j, n - 1);
      forall k ensures k in Numbered(j, n) <==> Index(k, n) {
        IndexNext(k, n - 1);
      }
      IndexNext(Decimal(n - 1), n - 1);
      forall i | 0 <= i < n - 1 ensures Decimal(i) != Decimal(n - 1) {
        if Decimal(i) == Decimal(n - 1) {
          DecimalInjective(i, n - 1);
        }
      }
    }
  }

  lemma NoIndex()
    ensures forall k :: !Index(k, 0)
  {
  }

  /** A key of the flattened dictionary: a string, or the index of a list item as it is, which
      the recursion leaves an integer where there is no key to put before it. */
  datatype Key = Name(text: string) | Place(n: nat)

  type Steps = seq<Key>

  type Flattened = map<Key, Json>

  function Show(k: Key): string {
    match k
    case Name(text) => text
    case Place(n) => Decimal(n)
  }

  /** Python's truth of a key: the empty string and the number zero count as none. */
  predicate Counts(k: Key) {
    match k
    case Name(text) => text != ""
    case Place(n) => n != 0
  }

  /** _construct_key, on strings and indices. */
  function Extend(previous: Key, sep: char, key: Key): Key {
    if Counts(previous) then Name(Show(previous) + [sep] + Show(key)) else key
  }

  /** The key under which the recursion stores the leaf at these steps. */
  function StoredUnder(previous: Key, sep: char, p: Steps): Key
    decreases |p|
  {
    if p == [] then previous else StoredUnder(Extend(previous, sep, p[0]), sep, p[1..])
  }

  /** The leaf at these steps through dictionaries and lists. */
  function LeafOf(j: Json, p: Steps): Option<Json>
    decreases |p|
  {
    if p == [] then (if Plain(j) then Some(j) else None)
    else
      match j
      case Leaf(_) => None
      case Dict(m) => if p[0].Name? && p[0].text in m then LeafOf(m[p[0].text], p[1..]) else None
      case List(items) => if p[0].Place? && p[0].n < |items| then LeafOf(items[p[0].n], p[1..]) else None
  }

  /** The leaf at p is what is stored as v under k. */
  predicate Stores(j: Json, p: Steps, previous: Key, sep: char, k: Key, v: Json) {
    LeafOf(j, p) == Some(v) && StoredUnder(previous, sep, p) == k
  }

  /** flat has an entry for every leaf, and nothing else. Where two leaves share a key, one of
      them is kept. */
  ghost predicate IsFlattened(m: Entries, sep: char, flat: Flattened) {
    && (forall p :: p != [] && LeafOf(Dict(m), p).Some? ==> StoredUnder(Name(""), sep, p) in flat)
    && (forall k :: k in flat ==> exists p :: p != [] && Stores(Dict(m), p, Name(""), sep, k, flat[k]))
  }

  /** The flattened dictionary, filled in place by the recursion. */
  class FlatDict {
    var entries: Flattened

    constructor ()
      ensures entries == map[]
    {
      entries := map[];
    }
  }

  /** What one call of the recursion does to the flattened dictionary: every leaf has its
      entry, and every entry was there or belongs to a leaf. */
  ghost predicate Wrote(before: Flattened, after: Flattened, j: Json, key: Key, sep: char) {
    && (forall k :: k in before ==> k in after)
    && (forall p :: LeafOf(j, p).Some? ==> StoredUnder(key, sep, p) in after)
    && (forall k :: k in after ==> Kept(before, after, k) || exists p :: Stores(j, p, key, sep, k, after[k]))
  }

  predicate Kept(before: Flattened, after: Flattened, k: Key)
    requires k in after
  {
    k in before && after[k] == before[k]
  }

  predicate Under(p: Steps, done: set<Key>) {
    p != [] && p[0] in done
  }

  /** The same for the leaves under some of the steps from a value. */
  ghost predicate WroteUnder(before: Flattened, after: Flattened, j: Json, key: Key, sep: char, done: set<Key>) {
    && (forall k :: k in before ==> k in after)
    && (forall p :: Under(p, done) && LeafOf(j, p).Some? ==> StoredUnder(key, sep, p) in after)
    && (forall k :: k in after ==>
          Kept(before, after, k) || exists p :: Under(p, done) && Stores(j, p, key, sep, k, after[k]))
  }

  lemma NothingWritten(before: Flattened, j: Json, key: Key, sep: char)
    ensures WroteUnder(before, before, j, key, sep, {})
  {
  }

  lemma LeafWritten(before: Flattened, j: Json, key: Key, sep: char)
    requires Plain(j)
    ensures Wrote(before, before[key := j], j, key, sep)
  {
    var after := before[key := j];
    forall p | LeafOf(j, p).Some? ensures StoredUnder(key, sep, p) in after {
      assert p == [];
    }
    assert Stores(j, [], key, sep, key, after[key]);
  }

  /** The value one step down. */
  predicate Child(j: Json, step: Key, child: Json) {
    match j
    case Leaf(_) => false
    case Dict(m) => step.Name? && step.text in m && m[step.text] == child
    case List(items) => step.Place? && step.n < |items| && items[step.n] == child
  }

  lemma {:induction false} ChildLeaf(j: Json, p: Steps, step: Key, child: Json, key: Key, sep: char)
    requires Child(j, step, child) && Under(p, {step})
    ensures LeafOf(j, p) == LeafOf(child, p[1..])
    ensures StoredUnder(key, sep, p) == StoredUnder(Extend(key, sep, step), sep, p[1..])
  {
  }

  lemma ChildWritten(before: Flattened, now: Flattened, next: Flattened, j: Json, key: Key, sep: char,
                     done: set<Key>, step: Key, child: Json)
    requires WroteUnder(before, now, j, key, sep, done) && Child(j, step, child)
    requires Wrote(now, next, child, Extend(key, sep, step), sep)
    ensures WroteUnder(before, next, j, key, sep, done + {step})
  {
    hide LeafOf;
    hide StoredUnder;
    hide Extend;
    hide Child;
    forall p | Under(p, done + {step}) && LeafOf(j, p).Some? ensures StoredUnder(key, sep, p) in next {
      if p[0] == step {
        ChildLeaf(j, p, step, child, key, sep);
      }
    }
    forall x | x in next
      ensures Kept(before, next, x) || exists p :: Under(p, done + {step}) && Stores(j, p, key, sep, x, next[x])
    {
      if Kept(now, next, x) {
        if !Kept(before, now, x) {
          var p :| Under(p, done) && Stores(j, p, key, sep, x, now[x]);
          assert Under(p, done + {step});
        }
      } else {
        var q :| Stores(child, q, Extend(key, sep, step), sep, x, next[x]);
        var p := [step] + q;
        assert p[1..] == q;
        ChildLeaf(j, p, step, child, key, sep);
        assert Under(p, done + {step}) && Stores(j, p, key, sep, x, next[x]);
      }
    }
  }

  lemma AllWritten(before: Flattened, after: Flattened, j: Json, key: Key, sep: char, done: set<Key>)
    requires WroteUnder(before, after, j, key, sep, done) && !Plain(j)
    requires forall step, child :: Child(j, step, child) ==> step in done
    ensures Wrote(before, after, j, key, sep)
  {
    hide StoredUnder;
    forall p: Steps | LeafOf(j, p).Some? ensures Under(p, done) {
      var child := if j.Dict? then j.entries[p[0].text] else j.items[p[0].n];
      assert Child(j, p[0], child);
    }
  }

  lemma RootWritten(after: Flattened, m: Entries, sep: char)
    requires if m == map[] then after == map[] else Wrote(map[], after, Dict(m), Name(""), sep)
    ensures IsFlattened(m, sep, after)
  {
    hide StoredUnder;
    forall k | k in after ensures exists p :: p != [] && Stores(Dict(m), p, Name(""), sep, k, after[k]) {
      var p :| Stores(Dict(m), p, Name(""), sep, k, after[k]);
      assert p != [];
    }
  }

  /** The recursion over a value. A dictionary is visited in any order of its keys. */
  method FlattenInto(j: Json, key: Key, sep: char, flat: FlatDict)
    modifies flat
    ensures Wrote(old(flat.entries), flat.entries, j, key, sep)
    decreases j, 1
  {
    hide Wrote;
    hide WroteUnder;
    if Plain(j) {
      LeafWritten(flat.entries, j, key, sep);
      flat.entries := flat.entries[key := j];
    } else if j.Dict? {
      FlattenDict(j, key, sep, flat);
    } else {
      FlattenList(j, key, sep, flat);
    }
  }

  function Names(keys: set<string>): (names: set<Key>)
    ensures forall k :: k in keys ==> Name(k) in names
  {
    set k | k in keys :: Name(k)
  }

  method FlattenDict(j: Json, key: Key, sep: char, flat: FlatDict)
    requires j.Dict? && !Plain(j)
    modifies flat
    ensures Wrote(old(flat.entries), flat.entries, j, key, sep)
    decreases j, 0
  {
    hide Wrote;
    hide WroteUnder;
    hide Extend;
    ghost var before := flat.entries;
    ghost var done: set<Key> := {};
    NothingWritten(before, j, key, sep);
    var rest := j.entries.Keys;
    while rest != {}
      invariant rest <= j.entries.Keys
      invariant WroteUnder(before, flat.entries, j, key, sep, done)
      invariant forall k :: k in j.entries && k !in rest ==> Name(k) in done
      decreases |rest|
    {
      var k :| k in rest;
      ghost var now := flat.entries;
      FlattenInto(j.entries[k], Extend(key, sep, Name(k)), sep, flat);
      ChildWritten(before, now, flat.entries, j, key, sep, done, Name(k), j.entries[k]);
      done := done + {Name(k)};
      rest := rest - {k};
    }
    AllWritten(before, flat.entries, j, key, sep, done);
  }

  method FlattenList(j: Json, key: Key, sep: char, flat: FlatDict)
    requires j.List? && j.items != []
    modifies flat
    ensures Wrote(old(flat.entries), flat.entries, j, key, sep)
    decreases j, 0
  {
    hide Wrote;
    hide WroteUnder;
    hide Extend;
    ghost var before := flat.entries;
    ghost var done: set<Key> := {};
    NothingWritten(before, j, key, sep);
    for i := 0 to |j.items|
      invariant WroteUnder(before, flat.entries, j, key, sep, done)
      invariant forall m: nat :: m < i ==> Place(m) in done
    {
      ghost var now := flat.entries;
      FlattenInto(j.items[i], Extend(key, sep, Place(i)), sep, flat);
      ChildWritten(before, now, flat.entries, j, key, sep, done, Place(i), j.items[i]);
      done := done + {Place(i)};
    }
    AllWritten(before, flat.entries, j, key, sep, done);
  }

  /** flatten: one entry for every leaf, under the constructed key. */
  method Flatten(m: Entries, sep: char) returns (flat: Flattened)
    ensures IsFlattened(m, sep, flat)
  {
    hide Wrote;
    hide IsFlattened;
    if m == map[] {
      RootWritten(map[], m, sep);
      return map[];
    }
    var filled := new FlatDict();
    FlattenInto(Dict(m), Name(""), sep, filled);
    flat := filled.entries;
    RootWritten(flat, m, sep);
  }

  lemma IndexIsDecimal(k: string, n: nat)
    requires Index(k, n)
    ensures exists m :: 0 <= m < n && Decimal(m) == k
  {
  }

  function Shown(p: Steps): (q: Path)
    ensures |q| == |p| && forall i :: 0 <= i < |p| ==> q[i] == Show(p[i])
  {
    seq(|p|, i requires 0 <= i < |p| => Show(p[i]))
  }

  /** A leaf is at the same place in the value without lists. */
  lemma {:induction false} LeafShown(j: Json, p: Steps)
    requires LeafOf(j, p).Some?
    ensures LeafAt(ToDict(j), Shown(p)) == LeafOf(j, p)
    decreases |p|
  {
    hide Decimal;
    hide Numbered;
    if p == [] {
      assert Shown(p) == [];
    } else {
      assert Shown(p)[1..] == Shown(p[1..]);
      match j
      case Dict(m) => LeafShown(m[p[0].text], p[1..]);
      case List(items) =>
        NumberedEntries(j, |items|);
        LeafShown(items[p[0].n], p[1..]);
    }
  }

  lemma {:induction false} LeafStepped(j: Json, q: Path) returns (p: Steps)
    requires LeafAt(ToDict(j), q).Some?
    ensures Shown(p) == q && LeafOf(j, p) == LeafAt(ToDict(j), q)
    decreases |q|
  {
    hide Decimal;
    hide Numbered;
    if j.List? && j.items != [] {
      ListBecomes(j);
      NumberedEntries(j, |j.items|);
      NotEmpty(j);
      IndexIsDecimal(q[0], |j.items|);
      var i: nat :| i < |j.items| && Decimal(i) == q[0];
      var rest := LeafStepped(j.items[i], q[1..]);
      p := [Place(i)] + rest;
      assert p[1..] == rest && q == [q[0]] + q[1..];
    } else if q == [] {
      p := [];
    } else {
      var rest := LeafStepped(j.entries[q[0]], q[1..]);
      p := [Name(q[0])] + rest;
      assert p[1..] == rest && q == [q[0]] + q[1..];
    }
  }

  lemma {:induction false} NotEmpty(j: Json)
    requires j.List? && j.items != []
    ensures Numbered(j, |j.items|) != map[]
  {
    NumberedEntries(j, |j.items|);
    assert Decimal(0) in Numbered(j, |j.items|);
  }

  /** Behind a key that counts, strings and indices make the same keys. */
  lemma {:induction false} StoredBehind(previous: string, sep: char, p: Steps)
    requires previous != ""
    ensures StoredUnder(Name(previous), sep, p) == Name(KeyOf(previous, sep, Shown(p)))
    decreases |p|
  {
    if p != [] {
      assert Shown(p)[1..] == Shown(p[1..]);
      StoredBehind(previous + [sep] + Show(p[0]), sep, p[1..]);
    }
  }

  lemma {:induction false} StoredFromRoot(sep: char, p: Steps)
    requires p != [] && p[0].Name? && (|p| == 1 || p[0].text != "")
    ensures StoredUnder(Name(""), sep, p) == Name(KeyOf("", sep, Shown(p)))
  {
    assert Shown(p)[1..] == Shown(p[1..]);
    if |p| > 1 {
      StoredBehind(p[0].text, sep, p[1..]);
    } else {
      assert p[1..] == [] && Shown(p[1..]) == [];
    }
  }

  /** Without indices they always do. */
  lemma {:induction false} StoredNames(previous: string, sep: char, p: Steps)
    requires forall i :: 0 <= i < |p| ==> p[i].Name?
    ensures StoredUnder(Name(previous), sep, p) == Name(KeyOf(previous, sep, Shown(p)))
    decreases |p|
  {
    if p != [] {
      assert Shown(p)[1..] == Shown(p[1..]);
      StoredNames(Construct(previous, sep, p[0].text), sep, p[1..]);
    }
  }

  lemma {:induction false} StoredStarts(previous: Key, sep: char, p: Steps)
    requires !StartsWith(Show(previous), sep) && forall i :: 0 <= i < |p| ==> sep !in Show(p[i])
    ensures !StartsWith(Show(StoredUnder(previous, sep, p)), sep)
    decreases |p|
  {
    hide Show;
    hide Counts;
    if p != [] {
      CountsShown(previous);
      assert sep !in Show(p[0]);
      ExtendStarts(previous, sep, p[0]);
      StoredStarts(Extend(previous, sep, p[0]), sep, p[1..]);
    }
  }

  lemma CountsShown(k: Key)
    ensures Counts(k) ==> Show(k) != ""
  {
  }

  lemma ExtendStarts(previous: Key, sep: char, key: Key)
    requires !StartsWith(Show(previous), sep) && sep !in Show(key) && (Counts(previous) ==> Show(previous) != "")
    ensures !StartsWith(Show(Extend(previous, sep, key)), sep)
  {
    hide Counts;
    hide Decimal;
    if Show(key) != "" {
      assert Show(key)[0] in Show(key);
    }
  }

  /** The entries under strings. */
  function Texts(flat: Flattened): (texts: Entries)
    ensures forall s :: s in texts <==> Name(s) in flat
    ensures forall s :: s in texts ==> texts[s] == flat[Name(s)]
  {
    map s | s in (set k | k in flat && k.Name? :: k.text) :: flat[Name(s)]
  }

  predicate AllNames(flat: Flattened) {
    forall k :: k in flat ==> k.Name?
  }

  /** Where the first step puts something before the others, so that no index is left an
      integer. */
  predicate Led(p: Steps) {
    p != [] && p[0].Name? && (|p| == 1 || p[0].text != "")
  }

  lemma {:induction false} RootedLeads(m: Entries, p: Steps)
    requires Rooted(ToEntries(m)) && p != [] && LeafOf(Dict(m), p).Some?
    ensures Led(p)
  {
    hide Numbered;
    if p[0].text == "" {
      var j := m[""];
      assert Terminal(ToDict(j));
      if j.List? && j.items != [] {
        NotEmpty(j);
      }
      if j.Dict? {
        assert j.entries.Keys == ToDict(j).entries.Keys;
      }
      assert Plain(j);
      assert LeafOf(j, p[1..]).Some?;
    }
  }

  /** If every leaf is led to, the flattened dictionary is the one without lists flattened. */
  lemma {:induction false} FlatMatches(m: Entries, sep: char, flat: Flattened)
    requires IsFlattened(m, sep, flat)
    requires forall p :: p != [] && LeafOf(Dict(m), p).Some? ==>
      StoredUnder(Name(""), sep, p) == Name(KeyOf("", sep, Shown(p)))
    ensures AllNames(flat) && IsFlat(ToEntries(m), sep, Texts(flat))
  {
    hide LeafOf;
    hide LeafAt;
    hide StoredUnder;
    hide KeyOf;
    var e, texts := ToEntries(m), Texts(flat);
    forall k | k in flat ensures k.Name? {
      var p :| p != [] && Stores(Dict(m), p, Name(""), sep, k, flat[k]);
    }
    forall q | Look(e, q).Some? ensures KeyOf("", sep, q) in texts {
      var p := LeafStepped(Dict(m), q);
    }
    forall k | k in texts ensures exists q :: q != [] && Produces(Dict(e), q, "", sep, k, texts[k]) {
      var p :| p != [] && Stores(Dict(m), p, Name(""), sep, Name(k), flat[Name(k)]);
      LeafShown(Dict(m), p);
      assert Shown(p) != [] && Produces(Dict(e), Shown(p), "", sep, k, texts[k]);
    }
  }

  lemma RootedFlat(m: Entries, sep: char, flat: Flattened)
    requires IsFlattened(m, sep, flat) && Rooted(ToEntries(m))
    ensures AllNames(flat) && IsFlat(ToEntries(m), sep, Texts(flat))
  {
    hide LeafOf;
    hide StoredUnder;
    hide IsFlattened;
    forall p | p != [] && LeafOf(Dict(m), p).Some?
      ensures StoredUnder(Name(""), sep, p) == Name(KeyOf("", sep, Shown(p)))
    {
      RootedLeads(m, p);
      StoredFromRoot(sep, p);
    }
    FlatMatches(m, sep, flat);
  }

  lemma {:induction false} NamesOnly(j: Json, p: Steps)
    requires ListFree(j) && LeafOf(j, p).Some?
    ensures forall i :: 0 <= i < |p| ==> p[i].Name?
    decreases |p|
  {
    if p != [] {
      NamesOnly(j.entries[p[0].text], p[1..]);
      assert p == [p[0]] + p[1..];
    }
  }

  /** Without lists the keys are strings, and what flatten makes is what Nest.RoundTripIff
      speaks of. */
  lemma ListFreeFlat(m: Entries, sep: char, flat: Flattened)
    requires ListFree(Dict(m)) && IsFlattened(m, sep, flat)
    ensures AllNames(flat) && IsFlat(m, sep, Texts(flat))
  {
    hide LeafOf;
    hide StoredUnder;
    hide IsFlattened;
    forall p | p != [] && LeafOf(Dict(m), p).Some?
      ensures StoredUnder(Name(""), sep, p) == Name(KeyOf("", sep, Shown(p)))
    {
      NamesOnly(Dict(m), p);
      StoredNames("", sep, p);
    }
    FlatMatches(m, sep, flat);
    ToDictIdle(Dict(m));
    assert ToEntries(m) == m;
  }

  /** Python's int(s), on strings. */
  type Reader = string -> Option<int>

  ghost predicate ReadsDecimals(read: Reader) {
    forall n: nat :: read(Decimal(n)) == Some(n)
  }

  /** The keys, read as integers and sorted, are 0, 1, 2 and so on. */
  ghost predicate ListLike(keys: set<string>, read: Reader) {
    && keys != {}
    && (forall k :: k in keys ==> read(k).Some?)
    && (forall i :: 0 <= i < |keys| ==> ReadAs(keys, read, i))
  }

  ghost predicate ReadAs(keys: set<string>, read: Reader, i: int) {
    exists k :: k in keys && read(k) == Some(i)
  }

  /** The entries under "0" to str(n - 1), as a list. */
  ghost predicate Countable(m: Entries) {
    forall i: nat :: i < |m| ==> Decimal(i) in m
  }

  function Counted(m: Entries): (items: seq<Json>)
    requires Countable(m)
    ensures |items| == |m| && forall i :: 0 <= i < |m| ==> items[i] == m[Decimal(i)]
  {
    seq(|m|, i requires 0 <= i < |m| && Countable(m) => m[Decimal(i)])
  }

  /** _convert_dict_to_list, children first. A dictionary that looks like a list but lacks one
      of the keys "0" to str(n - 1) makes the lookup fail. */
  ghost function Convert(j: Json, read: Reader): Option<Json>
    decreases j, 1
  {
    if !j.Dict? then Some(j)
    else
      var c := ConvertChildren(j, read);
      if c.None? then None else Assemble(c.value, read)
  }

  ghost function ConvertChildren(j: Json, read: Reader): (c: Option<Entries>)
    requires j.Dict?
    ensures c.Some? <==> forall k :: k in j.entries ==> Convert(j.entries[k], read).Some?
    ensures c.Some? ==> c.value.Keys == j.entries.Keys
    ensures c.Some? ==> forall k :: k in j.entries ==> Convert(j.entries[k], read) == Some(c.value[k])
    decreases j, 0
  {
    if exists k :: k in j.entries && Convert(j.entries[k], read).None? then None
    else Some(map k | k in j.entries :: Convert(j.entries[k], read).value)
  }

  ghost function Assemble(m: Entries, read: Reader): Option<Json> {
    if !ListLike(m.Keys, read) then Some(Dict(m))
    else if Countable(m) then Some(List(Counted(m)))
    else None
  }

  datatype ListError = Unflattening(error: NestError) | NotText | MissingIndex | RootIsList

  /** unflatten on flattened keys: an integer among them can neither be sorted with strings nor
      be split. */
  ghost function UnflattenAny(flat: Flattened, sep: char): Result<Entries, ListError> {
    if exists k :: k in flat && !Plain(flat[k]) then Err(Unflattening(NotFlat))
    else if !AllNames(flat) then Err(NotText)
    else
      match Unflatten(Texts(flat), sep)
      case Err(e) => Err(Unflattening(e))
      case Ok(m) => Ok(m)
  }

  ghost function UnflattenList(flat: Flattened, sep: char, read: Reader): Result<Entries, ListError> {
    match UnflattenAny(flat, sep)
    case Err(e) => Err(e)
    case Ok(m) =>
      match ConvertChildren(Dict(m), read)
      case None => Err(MissingIndex)
      case Some(c) => if ListLike(c.Keys, read) then Err(RootIsList) else Ok(c)
  }

  lemma UnflattenListIs(flat: Flattened, sep: char, read: Reader, m: Entries)
    ensures UnflattenList(flat, sep, read) == Ok(m) <==>
      UnflattenAny(flat, sep).Ok? && Convert(Dict(UnflattenAny(flat, sep).value), read) == Some(Dict(m))
  {
    hide UnflattenAny;
    hide ConvertChildren;
    hide ListLike;
    hide Countable;
    if UnflattenAny(flat, sep).Ok? {
      ConvertUnfolds(UnflattenAny(flat, sep).value, read);
    }
  }

  /** No dictionary in the value could be taken for a list. */
  ghost predicate NoImpostor(j: Json, read: Reader) {
    match j
    case Leaf(_) => true
    case Dict(m) => !ListLike(m.Keys, read) && forall k :: k in m ==> NoImpostor(m[k], read)
    case List(items) => forall i :: 0 <= i < |items| ==> NoImpostor(items[i], read)
  }

  lemma {:induction false} NumberedIsListLike(j: Json, m: Entries, read: Reader)
    requires ReadsDecimals(read) && j.List? && j.items != [] && m.Keys == Numbered(j, |j.items|).Keys
    ensures ListLike(m.Keys, read) && |m| == |j.items| && Countable(m)
  {
    hide Decimal;
    hide Numbered;
    var n := |j.items|;
    NumberedEntries(j, n);
    var e := Numbered(j, n);
    assert |e.Keys| == n && |m.Keys| == |m|;
    assert Decimal(0) in m.Keys;
    forall i | 0 <= i < n ensures ReadAs(m.Keys, read, i) {
      assert Decimal(i) in m.Keys && read(Decimal(i)) == Some(i);
    }
    forall k | k in m.Keys ensures read(k).Some? {
      IndexIsDecimal(k, n);
    }
  }

  ghost predicate Restores(j: Json, read: Reader) {
    Convert(ToDict(j), read) == Some(j)
  }

  lemma RestoresList(j: Json, read: Reader)
    requires ReadsDecimals(read) && j.List? && j.items != []
    ensures Restores(j, read) <==> forall i :: 0 <= i < |j.items| ==> Restores(j.items[i], read)
  {
    hide Decimal;
    hide Numbered;
    hide ListLike;
    hide Counted;
    hide Countable;
    hide Convert;
    hide ConvertChildren;
    hide ToDict;
    var n := |j.items|;
    var e := Numbered(j, n);
    ListBecomes(j);
    NumberedEntries(j, n);
    var c := ConvertChildren(Dict(e), read);
    ConvertUnfolds(e, read);
    if c.None? {
      var k :| k in e && Convert(e[k], read).None?;
      IndexIsDecimal(k, n);
      var i :| 0 <= i < n && Decimal(i) == k;
      assert !Restores(j.items[i], read);
    } else {
      NumberedIsListLike(j, c.value, read);
      CountedIs(j, c.value);
      forall i: nat | i < n ensures Restores(j.items[i], read) <==> c.value[Decimal(i)] == j.items[i] {
        assert Convert(e[Decimal(i)], read) == Some(c.value[Decimal(i)]);
      }
    }
  }

  lemma ConvertUnfolds(e: Entries, read: Reader)
    ensures Convert(Dict(e), read) ==
      var c := ConvertChildren(Dict(e), read);
      if c.None? then None else Assemble(c.value, read)
  {
  }

  lemma {:induction false} ListBecomes(j: Json)
    requires j.List? && j.items != []
    ensures ToDict(j) == Dict(Numbered(j, |j.items|))
  {
  }

  lemma CountedIs(j: Json, m: Entries)
    requires j.List? && Countable(m) && |m| == |j.items|
    ensures forall i: nat :: i < |m| ==> Decimal(i) in m
    ensures List(Counted(m)) == j <==> forall i: nat :: i < |m| ==> m[Decimal(i)] == j.items[i]
  {
    if List(Counted(m)) != j {
      assert Counted(m) != j.items;
    }
  }

  lemma RestoresDict(m: Entries, read: Reader)
    ensures Restores(Dict(m), read) <==> !ListLike(m.Keys, read) && forall k :: k in m ==> Restores(m[k], read)
  {
    hide ListLike;
    hide Convert;
    hide ConvertChildren;
    hide Countable;
    var e := ToEntries(m);
    var c := ConvertChildren(Dict(e), read);
    ConvertUnfolds(e, read);
    if c.None? {
      var k :| k in e && Convert(e[k], read).None?;
      assert !Restores(m[k], read);
    } else {
      assert forall k :: k in m ==> (Restores(m[k], read) <==> c.value[k] == m[k]);
      assert c.value == m <==> forall k :: k in m ==> c.value[k] == m[k];
    }
  }

  /** Converting back restores the value exactly when no dictionary in it looks like a list. */
  lemma {:induction false} RestoresIff(j: Json, read: Reader)
    requires ReadsDecimals(read)
    ensures Restores(j, read) <==> NoImpostor(j, read)
    decreases j
  {
    hide ListLike;
    hide Restores;
    match j
    case Leaf(_) => RestoresPlain(j, read);
    case Dict(m) =>
      RestoresDict(m, read);
      forall k | k in m ensures Restores(m[k], read) <==> NoImpostor(m[k], read) {
        RestoresIff(m[k], read);
      }
    case List(items) =>
      if items == [] {
        RestoresPlain(j, read);
      } else {
        RestoresList(j, read);
        forall i | 0 <= i < |items| ensures Restores(items[i], read) <==> NoImpostor(items[i], read) {
          RestoresIff(items[i], read);
        }
      }
  }

  lemma RestoresPlain(j: Json, read: Reader)
    requires j.Leaf? || j == List([])
    ensures Restores(j, read)
  {
  }

  lemma {:induction false} ToDictListFree(j: Json)
    ensures ListFree(ToDict(j))
    decreases j
  {
    hide Decimal;
    match j
    case Leaf(_) =>
    case Dict(m) =>
      forall k | k in m ensures ListFree(ToDict(m[k])) {
        ToDictListFree(m[k]);
      }
    case List(items) =>
      if items != [] {
        NumberedEntries(j, |items|);
        var e := Numbered(j, |items|);
        forall k | k in e ensures ListFree(e[k]) {
          IndexIsDecimal(k, |items|);
          var i :| 0 <= i < |items| && Decimal(i) == k;
          ToDictListFree(items[i]);
        }
      }
  }

  /** Without lists flatten works on the value as it is. */
  lemma {:induction false} ToDictIdle(j: Json)
    requires ListFree(j)
    ensures ToDict(j) == j
    decreases j
  {
    if j.Dict? {
      forall k | k in j.entries ensures ToDict(j.entries[k]) == j.entries[k] {
        ToDictIdle(j.entries[k]);
      }
    }
  }

  lemma {:induction false} PutListFree(m: Entries, p: Path, v: Json)
    requires p != [] && Plain(v) && ListFree(Dict(m))
    ensures Put(m, p, v).Ok? ==> ListFree(Dict(Put(m, p, v).value))
    decreases |p|
  {
    if |p| > 1 {
      var child := if p[0] in m then m[p[0]] else Dict(map[]);
      if child.Dict? {
        assert child == Dict(child.entries);
        PutListFree(child.entries, p[1..], v);
      }
    }
  }

  lemma {:induction false} UnflattenListFree(flat: Entries, keys: seq<string>, n: nat, sep: char)
    requires n <= |keys| && forall k :: k in keys ==> k in flat && Plain(flat[k])
    ensures var r := UnflattenUpTo(flat, keys, n, sep);
      r.Ok? ==> ListFree(Dict(r.value))
  {
    hide Put;
    hide Split;
    hide Skips;
    if n > 0 {
      UnflattenListFree(flat, keys, n - 1, sep);
      var before := UnflattenUpTo(flat, keys, n - 1, sep);
      if before.Ok? {
        PutListFree(before.value, Split(keys[n - 1], sep), flat[keys[n - 1]]);
      }
    }
  }

  /** What comes out of the conversion has keys clear of the separator, list indices among
      them: those of a rebuilt list were keys before. */
  lemma {:induction false} ConvertFree(j: Json, sep: char, read: Reader)
    requires KeysFree(j, sep) && ListFree(j) && Convert(j, read).Some?
    ensures KeysFree(ToDict(Convert(j, read).value), sep)
    decreases j
  {
    hide ListLike;
    hide ConvertChildren;
    hide Countable;
    hide Counted;
    hide ToDict;
    if j.Dict? {
      var c := ConvertChildren(j, read).value;
      forall k | k in c ensures sep !in k && KeysFree(ToDict(c[k]), sep) {
        ConvertFree(j.entries[k], sep, read);
      }
      AssembleFree(c, sep, read);
    } else {
      PlainToDict(j);
    }
  }

  lemma {:induction false} PlainToDict(j: Json)
    requires j.Leaf? || j == List([])
    ensures ToDict(j) == j
  {
  }

  lemma {:induction false} DictToDict(c: Entries, sep: char)
    requires forall k :: k in c ==> sep !in k && KeysFree(ToDict(c[k]), sep)
    ensures KeysFree(ToDict(Dict(c)), sep)
  {
  }

  lemma {:induction false} AssembleFree(c: Entries, sep: char, read: Reader)
    requires Assemble(c, read).Some?
    requires forall k :: k in c ==> sep !in k && KeysFree(ToDict(c[k]), sep)
    ensures KeysFree(ToDict(Assemble(c, read).value), sep)
  {
    hide ToDict;
    hide Numbered;
    hide Decimal;
    hide Counted;
    if !ListLike(c.Keys, read) {
      DictToDict(c, sep);
    } else {
      var j := List(Counted(c));
      assert |c| == |c.Keys| && j.items != [];
      ListBecomes(j);
      NumberedEntries(j, |j.items|);
      var e := Numbered(j, |j.items|);
      forall k | k in e ensures sep !in k && KeysFree(e[k], sep) {
        IndexIsDecimal(k, |j.items|);
        var i :| 0 <= i < |j.items| && Decimal(i) == k;
        assert Decimal(i) in c;
      }
    }
  }

  /** A value that a path does not lead beyond is not touched by the conversion. */
  lemma {:induction false} TerminalConverts(j: Json, read: Reader)
    requires Terminal(j) && ListFree(j)
    ensures Convert(j, read) == Some(j) && ToDict(j) == j
  {
  }

  /** The root of what was converted leads nowhere from an empty key, if it did not before. */
  lemma RootedConverts(r: Entries, m: Entries, read: Reader)
    requires Convert(Dict(r), read) == Some(Dict(m)) && ListFree(Dict(r)) && Rooted(r)
    ensures Rooted(ToEntries(m))
  {
    hide ListLike;
    hide Convert;
    hide ConvertChildren;
    hide ToDict;
    ConvertUnfolds(r, read);
    var c := ConvertChildren(Dict(r), read);
    if "" in m {
      TerminalConverts(r[""], read);
      assert Convert(Dict(r).entries[""], read) == Some(c.value[""]);
    }
  }

  lemma {:induction false} StoredKeysStart(m: Entries, sep: char, flat: Flattened, k: Key)
    requires IsFlattened(m, sep, flat) && KeysFree(Dict(ToEntries(m)), sep) && k in flat
    ensures !StartsWith(Show(k), sep)
  {
    hide LeafOf;
    hide LeafAt;
    hide StoredUnder;
    hide KeysFree;
    hide ListFree;
    var p :| p != [] && Stores(Dict(m), p, Name(""), sep, k, flat[k]);
    LeafShown(Dict(m), p);
    ToDictListFree(Dict(m));
    FreePaths(Dict(ToEntries(m)), Shown(p), sep);
    forall i | 0 <= i < |p| ensures sep !in Show(p[i]) {
      assert Shown(p)[i] == Show(p[i]);
    }
    StoredStarts(Name(""), sep, p);
  }

  /** What the round trip needs of the keys. */
  lemma {:induction false} ListRoundTripNeeds(m: Entries, sep: char, flat: Flattened, read: Reader)
    requires IsFlattened(m, sep, flat) && UnflattenList(flat, sep, read) == Ok(m)
    ensures KeysFree(Dict(ToEntries(m)), sep) && Rooted(ToEntries(m))
  {
    hide UnflattenUpTo;
    hide Increasing;
    hide KeysFree;
    hide ListFree;
    hide Convert;
    hide ToDict;
    hide Rooted;
    hide IsFlattened;
    hide UnflattenList;
    UnflattenListIs(flat, sep, read, m);
    var texts := Texts(flat);
    var keys, r := Sorted(texts), Unflatten(texts, sep).value;
    UnflattenFree(texts, keys, |keys|, sep);
    UnflattenListFree(texts, keys, |keys|, sep);
    ConvertFree(Dict(r), sep, read);
    forall k | k in keys ensures !StartsWith(k, sep) {
      StoredKeysStart(m, sep, flat, Name(k));
    }
    UnflattenRooted(texts, keys, |keys|, sep);
    RootedConverts(r, m, read);
  }

  lemma PlainTexts(flat: Flattened)
    requires AllNames(flat)
    ensures (exists k :: k in flat && !Plain(flat[k])) <==> exists s :: s in Texts(flat) && !Plain(Texts(flat)[s])
  {
    if k :| k in flat && !Plain(flat[k]) {
      assert k == Name(k.text) && k.text in Texts(flat);
    }
    if s :| s in Texts(flat) && !Plain(Texts(flat)[s]) {
      assert Name(s) in flat;
    }
  }

  /** With lists inside: unflatten_list undoes flatten exactly for the values whose keys, the
      indices of lists among them, are clear of the separator, whose empty key at the top
      leads to nothing else, and none of whose dictionaries could be taken for a list. */
  lemma {:induction false} ListRoundTripIff(m: Entries, sep: char, flat: Flattened, read: Reader)
    requires ReadsDecimals(read) && IsFlattened(m, sep, flat)
    ensures UnflattenList(flat, sep, read) == Ok(m) <==>
      KeysFree(Dict(ToEntries(m)), sep) && Rooted(ToEntries(m)) && NoImpostor(Dict(m), read)
  {
    hide IsFlat;
    hide IsFlattened;
    hide KeysFree;
    hide Rooted;
    hide NoImpostor;
    hide Convert;
    hide Unflatten;
    hide UnflattenList;
    hide Plain;
    UnflattenListIs(flat, sep, read, m);
    if UnflattenList(flat, sep, read) == Ok(m) {
      ListRoundTripNeeds(m, sep, flat, read);
    }
    if KeysFree(Dict(ToEntries(m)), sep) && Rooted(ToEntries(m)) {
      RootedFlat(m, sep, flat);
      PlainTexts(flat);
      ToDictListFree(Dict(m));
      RoundTripIff(ToEntries(m), sep, Texts(flat));
      UnflattenPlain(Texts(flat), sep);
      RestoresIff(Dict(m), read);
    }
  }

  lemma UnflattenPlain(flat: Entries, sep: char)
    ensures Unflatten(flat, sep).Ok? ==> !exists k :: k in flat && !Plain(flat[k])
  {
    hide UnflattenUpTo;
  }

  /** No key of a dictionary in the value holds the separator. */
  predicate DictKeysFree(j: Json, sep: char) {
    match j
    case Leaf(_) => true
    case Dict(m) => forall k :: k in m ==> sep !in k && DictKeysFree(m[k], sep)
    case List(items) => forall i :: 0 <= i < |items| ==> DictKeysFree(items[i], sep)
  }

  /** A separator that is not a digit is clear of all indices. */
  lemma {:induction false} KeysClear(j: Json, sep: char)
    requires DictKeysFree(j, sep) && !('0' <= sep <= '9')
    ensures KeysFree(ToDict(j), sep)
    decreases j
  {
    hide Decimal;
    match j
    case Leaf(_) =>
    case Dict(m) =>
      forall k | k in m ensures KeysFree(ToDict(m[k]), sep) {
        KeysClear(m[k], sep);
      }
    case List(items) =>
      if items != [] {
        NumberedEntries(j, |items|);
        var e := Numbered(j, |items|);
        forall k | k in e ensures sep !in k && KeysFree(e[k], sep) {
          IndexIsDecimal(k, |items|);
          var i :| 0 <= i < |items| && Decimal(i) == k;
          KeysClear(items[i], sep);
          DecimalDigits(i);
        }
      }
  }

  /** Converting a second time changes nothing, so the second call on list items is idle. */
  lemma {:induction false} ConvertIdle(j: Json, read: Reader)
    requires Convert(j, read).Some?
    ensures Convert(Convert(j, read).value, read) == Convert(j, read)
    decreases j
  {
    hide ListLike;
    hide ConvertChildren;
    if j.Dict? {
      var c := ConvertChildren(j, read).value;
      forall k | k in c ensures Convert(c[k], read) == Some(c[k]) {
        ConvertIdle(j.entries[k], read);
      }
      ConvertsToItself(c, read);
    }
  }

  lemma ConvertsToItself(c: Entries, read: Reader)
    requires forall k :: k in c ==> Convert(c[k], read) == Some(c[k])
    ensures Convert(Dict(c), read) == Assemble(c, read)
  {
    hide Assemble;
    hide ConvertChildren;
    ConvertUnfolds(c, read);
    var d := ConvertChildren(Dict(c), read);
    assert d.value == c;
  }
}
