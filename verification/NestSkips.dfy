/** What unflatten leaves out: exactly when the adjacent-prefix test fires, and what that drops. */
module NestSkips {
  import opened Prelude
  import opened Nest

  lemma {:induction false} SplitAppend(a: string, part: string, sep: char)
    requires sep !in part
    ensures Split(a + [sep] + part, sep) == Split(a, sep) + [part]
  {
    var s := a + [sep] + part;
    if a == "" {
      assert s[1..] == part;
      SplitPart(part, sep);
    } else {
      assert s[1..] == a[1..] + [sep] + part && s[0] == a[0];
      SplitAppend(a[1..], part, sep);
    }
  }

  lemma {:induction false} JoinSplit(s: string, sep: char)
    ensures Join(Split(s, sep), sep) == s
  {
    if s != "" {
      var rest := Split(s[1..], sep);
      JoinSplit(s[1..], sep);
      assert s == [s[0]] + s[1..];
      if s[0] == sep {
        assert ([""] + rest)[1..] == rest;
      } else {
        assert ([[s[0]] + rest[0]] + rest[1..])[1..] == rest[1..];
      }
    }
  }

  lemma {:induction false} JoinAppend(p: Path, part: string, sep: char)
    requires p != []
    ensures Join(p + [part], sep) == Join(p, sep) + [sep] + part
  {
    if |p| == 1 {
      assert (p + [part])[1..] == [part];
    } else {
      assert (p + [part])[1..] == p[1..] + [part];
      JoinAppend(p[1..], part, sep);
    }
  }

  /** One key is another with one part more at its end. */
  ghost predicate Extends(longer: string, key: string, sep: char) {
    exists part :: ExtendsBy(longer, key, sep, part)
  }

  predicate ExtendsBy(longer: string, key: string, sep: char, part: string) {
    sep !in part && longer == key + [sep] + part
  }

  /** The test fires exactly if the next key is this key with one part more. */
  lemma SkipsIff(keys: seq<string>, i: nat, sep: char)
    requires i < |keys|
    ensures Skips(keys, i, sep) <==> i + 1 < |keys| && Extends(keys[i + 1], keys[i], sep)
  {
    hide Split;
    if i + 1 < |keys| {
      var a, b := keys[i], keys[i + 1];
      if Extends(b, a, sep) {
        var part :| ExtendsBy(b, a, sep, part);
        SplitAppend(a, part, sep);
        assert (Split(a, sep) + [part])[..|Split(a, sep)|] == Split(a, sep);
      }
      if Skips(keys, i, sep) {
        var next := Split(b, sep);
        var part := next[|next| - 1];
        assert next == Split(a, sep) + [part];
        JoinSplit(a, sep);
        JoinSplit(b, sep);
        JoinAppend(Split(a, sep), part, sep);
        SplitFree(b, sep);
        assert ExtendsBy(b, a, sep, part);
      }
    }
  }

  lemma {:induction false} PrefixIsLess(a: string, b: string)
    requires b != ""
    ensures StrLt(a, a + b)
  {
    assert PartAt(a, a + b, |a|);
    StrLtIff(a, a + b);
  }

  lemma {:induction false} TwoSorted(flat: Entries, a: string, b: string)
    requires flat.Keys == {a, b} && StrLt(a, b)
    ensures Sorted(flat) == [a, b]
  {
    hide StrLt;
    var keys := Sorted(flat);
    StrLtIrreflexive(a);
    StrLtAsymmetric(a, b);
    assert |{a, b}| == 2;
    assert keys[0] in flat && keys[1] in flat;
    assert StrLt(keys[0], keys[1]);
  }

  /** A value under a key that goes on in the next one is dropped. */
  lemma {:induction false} SkipDrops(a: string, b: string, sep: char, v: Json, w: Json)
    requires sep !in a && sep !in b && Plain(v) && Plain(w)
    ensures Unflatten(map[a := v, a + [sep] + b := w], sep) == Ok(map[a := Dict(map[b := w])])
  {
    hide Sorted;
    hide Split;
    hide Skips;
    hide StrLt;
    var long := a + [sep] + b;
    var flat := map[a := v, long := w];
    assert long == a + ([sep] + b) && |long| > |a|;
    PrefixIsLess(a, [sep] + b);
    TwoSorted(flat, a, long);
    var keys := Sorted(flat);
    assert |flat.Keys| == 2;
    assert ExtendsBy(long, a, sep, b);
    SkipsIff(keys, 0, sep);
    SkipsIff(keys, 1, sep);
    SplitPart(a, sep);
    SplitAppend(a, b, sep);
    assert UnflattenUpTo(flat, keys, 1, sep) == Ok(map[]);
    PutTwo(a, b, w);
  }

  lemma {:induction false} PutTwo(a: string, b: string, w: Json)
    ensures Put(map[], [a, b], w) == Ok(map[a := Dict(map[b := w])])
  {
    assert [a, b][1..] == [b];
    assert Put(map[], [b], w) == Ok(map[b := w]);
  }
}
