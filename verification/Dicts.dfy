/** Sums over the values of a dictionary. A Python dictionary is a map here; exact
    arithmetic makes its iteration order immaterial to a sum. */
module Dicts {

  ghost function Sum<K(!new)>(m: map<K, int>): int
    decreases |m|
  {
    if m == map[] then 0
    else
      var k :| k in m;
      assert (m - {k}).Keys == m.Keys - {k};
      m[k] + Sum(m - {k})
  }

  lemma {:induction false} SumSplit<K(!new)>(m: map<K, int>, k: K)
    requires k in m
    ensures Sum(m) == m[k] + Sum(m - {k})
    decreases |m|
  {
    var j :| j in m && Sum(m) == m[j] + Sum(m - {j});
    if j != k {
      assert (m - {j}).Keys == m.Keys - {j};
      assert (m - {k}).Keys == m.Keys - {k};
      SumSplit(m - {j}, k);
      SumSplit(m - {k}, j);
      assert m - {j} - {k} == m - {k} - {j};
    }
  }

  lemma SumSet<K(!new)>(m: map<K, int>, k: K, v: int)
    ensures Sum(m[k := v]) == Sum(m) + v - (if k in m then m[k] else 0)
  {
    SumSplit(m[k := v], k);
    assert m[k := v] - {k} == m - {k};
    if k in m {
      SumSplit(m, k);
    } else {
      assert m - {k} == m;
    }
  }

  lemma {:induction false} SumLeq<K(!new)>(a: map<K, int>, b: map<K, int>)
    requires a.Keys == b.Keys
    requires forall k :: k in a ==> a[k] <= b[k]
    ensures Sum(a) <= Sum(b)
    ensures Sum(a) == Sum(b) <==> a == b
    decreases |a|
  {
    if a != map[] {
      var k :| k in a;
      SumSplit(a, k);
      SumSplit(b, k);
      assert (a - {k}).Keys == a.Keys - {k} == (b - {k}).Keys;
      SumLeq(a - {k}, b - {k});
      if a - {k} == b - {k} && a[k] == b[k] {
        forall j | j in a ensures a[j] == b[j] {
          assert j != k ==> (a - {k})[j] == (b - {k})[j];
        }
        assert a == b;
      }
    }
  }

  lemma {:induction false} SumConstant<K(!new)>(m: map<K, int>, c: int)
    requires forall k :: k in m ==> m[k] == c
    ensures Sum(m) == |m| * c
    decreases |m|
  {
    if m != map[] {
      var k :| k in m;
      SumSplit(m, k);
      assert (m - {k}).Keys == m.Keys - {k};
      SumConstant(m - {k}, c);
      assert |m| == |m - {k}| + 1;
      assert |m| * c == |m - {k}| * c + c;
    }
  }

  /** Dictionaries in balance entry by entry are in balance as a whole. */
  lemma {:induction false} SumBalance<K(!new)>(a: map<K, int>, b: map<K, int>, c: map<K, int>, d: map<K, int>)
    requires a.Keys == b.Keys == c.Keys == d.Keys
    requires forall k :: k in a ==> a[k] - b[k] == c[k] - d[k]
    ensures Sum(a) - Sum(b) == Sum(c) - Sum(d)
    decreases |a|
  {
    if a != map[] {
      var k :| k in a;
      SumSplit(a, k);
      SumSplit(b, k);
      SumSplit(c, k);
      SumSplit(d, k);
      assert (a - {k}).Keys == a.Keys - {k};
      SumBalance(a - {k}, b - {k}, c - {k}, d - {k});
    }
  }

  ghost function SumReal<K(!new)>(m: map<K, real>): real
    decreases |m|
  {
    if m == map[] then 0.0
    else
      var k :| k in m;
      assert (m - {k}).Keys == m.Keys - {k};
      m[k] + SumReal(m - {k})
  }

  lemma {:induction false} SumRealSplit<K(!new)>(m: map<K, real>, k: K)
    requires k in m
    ensures SumReal(m) == m[k] + SumReal(m - {k})
    decreases |m|
  {
    var j :| j in m && SumReal(m) == m[j] + SumReal(m - {j});
    if j != k {
      assert (m - {j}).Keys == m.Keys - {j};
      assert (m - {k}).Keys == m.Keys - {k};
      SumRealSplit(m - {j}, k);
      SumRealSplit(m - {k}, j);
      assert m - {j} - {k} == m - {k} - {j};
    }
  }

  lemma SumRealSet<K(!new)>(m: map<K, real>, k: K, v: real)
    ensures SumReal(m[k := v]) == SumReal(m) + v - (if k in m then m[k] else 0.0)
  {
    SumRealSplit(m[k := v], k);
    assert m[k := v] - {k} == m - {k};
    if k in m {
      SumRealSplit(m, k);
    } else {
      assert m - {k} == m;
    }
  }

  lemma {:induction false} SumRealLeq<K(!new)>(a: map<K, real>, b: map<K, real>)
    requires a.Keys == b.Keys
    requires forall k :: k in a ==> a[k] <= b[k]
    ensures SumReal(a) <= SumReal(b)
    decreases |a|
  {
    if a != map[] {
      var k :| k in a;
      SumRealSplit(a, k);
      SumRealSplit(b, k);
      assert (a - {k}).Keys == a.Keys - {k} == (b - {k}).Keys;
      SumRealLeq(a - {k}, b - {k});
    }
  }

  lemma {:induction false} SumAsReal<K(!new)>(m: map<K, int>, r: map<K, real>)
    requires m.Keys == r.Keys
    requires forall k :: k in m ==> r[k] == m[k] as real
    ensures SumReal(r) == Sum(m) as real
    decreases |m|
  {
    if m != map[] {
      var k :| k in m;
      SumSplit(m, k);
      SumRealSplit(r, k);
      assert (m - {k}).Keys == m.Keys - {k};
      SumAsReal(m - {k}, r - {k});
    }
  }

  function Floats(m: map<string, int>): (r: map<string, real>)
    ensures r.Keys == m.Keys
  {
    map k | k in m :: m[k] as real
  }

  lemma {:induction false} FloatsSum(m: map<string, int>)
    ensures SumReal(Floats(m)) == Sum(m) as real
  {
    SumAsReal(m, Floats(m));
  }

  lemma {:induction false} ZeroSum(m: map<string, real>)
    requires forall k :: k in m ==> m[k] == 0.0
    ensures SumReal(m) == 0.0
    decreases |m|
  {
    if m != map[] {
      var k :| k in m;
      SumRealSplit(m, k);
      assert (m - {k}).Keys == m.Keys - {k};
      ZeroSum(m - {k});
    }
  }

  lemma {:induction false} SumRealParts(m: map<string, real>, a: map<string, real>, b: map<string, real>)
    requires m.Keys == a.Keys == b.Keys && forall k :: k in m ==> m[k] == a[k] + b[k]
    ensures SumReal(m) == SumReal(a) + SumReal(b)
    decreases |m|
  {
    if m != map[] {
      var k :| k in m;
      SumRealSplit(m, k);
      SumRealSplit(a, k);
      SumRealSplit(b, k);
      assert (m - {k}).Keys == m.Keys - {k};
      SumRealParts(m - {k}, a - {k}, b - {k});
    }
  }

  function Times(c: real, x: real): real {
    c * x
  }

  lemma TimesAdds(c: real, x: real, y: real)
    ensures Times(c, x + y) == Times(c, x) + Times(c, y)
  {
  }

  lemma TimesUnit(c: real)
    ensures Times(c, 0.0) == 0.0 && Times(c, 1.0) == c
  {
  }

  lemma {:induction false} SumRealConstant(m: map<string, real>, c: real)
    requires forall k :: k in m ==> m[k] == c
    ensures SumReal(m) == Times(c, |m| as real)
    decreases |m|
  {
    hide Times;
    hide SumReal;
    TimesUnit(c);
    if m == map[] {
      EmptySumReal(m);
    } else {
      var k :| k in m;
      SumRealSplit(m, k);
      var rest := m - {k};
      assert rest.Keys == m.Keys - {k};
      SumRealConstant(rest, c);
      assert |m| == |rest| + 1;
      TimesAdds(c, |rest| as real, 1.0);
    }
  }

  lemma {:induction false} EmptySumReal<K(!new)>(m: map<K, real>)
    requires m.Keys == {}
    ensures SumReal(m) == 0.0
  {
    assert m == map[];
  }

  lemma {:induction false} SumRealScale(m: map<string, real>, a: map<string, real>, c: real)
    requires m.Keys == a.Keys && forall k :: k in m ==> m[k] == Times(c, a[k])
    ensures SumReal(m) == Times(c, SumReal(a))
    decreases |m|
  {
    hide Times;
    hide SumReal;
    if m == map[] {
      TimesUnit(c);
      EmptySumReal(m);
      EmptySumReal(a);
    } else {
      var k :| k in m;
      SumRealSplit(m, k);
      SumRealSplit(a, k);
      assert (m - {k}).Keys == m.Keys - {k};
      SumRealScale(m - {k}, a - {k}, c);
      TimesAdds(c, a[k], SumReal(a - {k}));
    }
  }

  method SumRealValues(m: map<string, real>) returns (total: real)
    ensures total == SumReal(m)
  {
    total := 0.0;
    var rest := m;
    while rest != map[]
      invariant total + SumReal(rest) == SumReal(m)
      decreases |rest|
    {
      var key :| key in rest;
      SumRealSplit(rest, key);
      assert (rest - {key}).Keys == rest.Keys - {key};
      total := total + rest[key];
      rest := rest - {key};
    }
  }

  /** sum(d.values()) */
  method SumValues(m: map<string, int>) returns (total: int)
    ensures total == Sum(m)
  {
    total := 0;
    var rest := m;
    while rest != map[]
      invariant total + Sum(rest) == Sum(m)
      decreases |rest|
    {
      var key :| key in rest;
      SumSplit(rest, key);
      assert (rest - {key}).Keys == rest.Keys - {key};
      total := total + rest[key];
      rest := rest - {key};
    }
  }
}
