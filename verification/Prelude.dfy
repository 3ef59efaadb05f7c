/** Shared vocabulary: optional values, results, small arithmetic, and the order that
    every deterministic choice of the allocator uses. */
module Prelude {

  datatype Option<+T> = None | Some(value: T)

  datatype Result<+T, +E> = Ok(value: T) | Err(error: E)

  function Max(a: int, b: int): int {
    if a < b then b else a
  }

  function Min(a: int, b: int): int {
    if a < b then a else b
  }

  function MaxReal(a: real, b: real): real {
    if a < b then b else a
  }

  function MinReal(a: real, b: real): real {
    if a < b then a else b
  }

  /** min(max(v, lo), hi), in this order, as every clamp of the repository writes it. */
  function Clamp(v: int, lo: int, hi: int): int {
    Min(Max(v, lo), hi)
  }

  /** Python's str(n) of a number that is not negative. */
  function Decimal(n: nat): (s: string)
    ensures s != ""
  {
    var digit := ['0' + (n % 10) as char];
    if n < 10 then digit else Decimal(n / 10) + digit
  }

  /** The number that a string of decimal digits stands for. */
  function Numeral(s: string): int {
    if s == "" then 0 else 10 * Numeral(s[..|s| - 1]) + (s[|s| - 1] as int - '0' as int)
  }

  /** Decimal writes a number in decimal digits, without leading zeros. */
  lemma {:induction false} DecimalStandsFor(n: nat)
    ensures Numeral(Decimal(n)) == n
    ensures forall i :: 0 <= i < |Decimal(n)| ==> '0' <= Decimal(n)[i] <= '9'
    ensures Decimal(n)[0] == '0' ==> n == 0
  {
    var s, digit := Decimal(n), '0' + (n % 10) as char;
    if n < 10 {
      assert s == [digit] && s[..0] == "" && Numeral("") == 0;
    } else {
      DecimalStandsFor(n / 10);
      assert s[..|s| - 1] == Decimal(n / 10) && s[|s| - 1] == digit;
      assert s[0] == Decimal(n / 10)[0];
    }
  }

  /** Python's comparison of strings: code point by code point, a proper prefix first. */
  predicate StrLt(a: string, b: string) {
    |b| > 0 && (|a| == 0 || a[0] < b[0] || (a[0] == b[0] && StrLt(a[1..], b[1..])))
  }

  lemma {:induction false} StrLtIrreflexive(a: string)
    ensures !StrLt(a, a)
  {
    if |a| > 0 {
      StrLtIrreflexive(a[1..]);
    }
  }

  lemma {:induction false} StrLtTotal(a: string, b: string)
    ensures a == b || StrLt(a, b) || StrLt(b, a)
  {
    if |a| > 0 && |b| > 0 && a[0] == b[0] {
      StrLtTotal(a[1..], b[1..]);
      assert a == [a[0]] + a[1..] && b == [b[0]] + b[1..];
    }
  }

  lemma {:induction false} StrLtTransitive(a: string, b: string, c: string)
    requires StrLt(a, b) && StrLt(b, c)
    ensures StrLt(a, c)
  {
    if |a| > 0 && a[0] == b[0] && b[0] == c[0] {
      StrLtTransitive(a[1..], b[1..], c[1..]);
    }
  }

  lemma {:induction false} StrLtAsymmetric(a: string, b: string)
    requires StrLt(a, b)
    ensures !StrLt(b, a)
  {
    if StrLt(b, a) {
      StrLtTransitive(a, b, a);
      StrLtIrreflexive(a);
    }
  }

  /** The strings agree in their first n characters, and there the first one ends or is lower. */
  predicate PartAt(a: string, b: string, n: nat) {
    n <= |a| && n < |b| && a[..n] == b[..n] && (n == |a| || a[n] < b[n])
  }

  lemma PartNext(a: string, b: string, n: nat)
    requires a != "" && b != "" && a[0] == b[0]
    ensures PartAt(a, b, n + 1) <==> PartAt(a[1..], b[1..], n)
    ensures !PartAt(a, b, 0)
  {
    if n < |a| && n < |b| {
      assert a[..n + 1] == [a[0]] + a[1..][..n] && b[..n + 1] == [b[0]] + b[1..][..n];
    }
  }

  lemma NoPart(a: string, b: string)
    requires b == "" || (a != "" && a[0] > b[0])
    ensures forall n: nat :: !PartAt(a, b, n)
  {
    forall n: nat ensures !PartAt(a, b, n) {
      if 0 < n <= |a| && n <= |b| {
        assert a[..n][0] == a[0] && b[..n][0] == b[0];
      }
    }
  }

  /** The order of strings is decided where they first differ. */
  lemma {:induction false} StrLtIff(a: string, b: string)
    ensures StrLt(a, b) <==> exists n: nat :: PartAt(a, b, n)
  {
    if a != "" && b != "" && a[0] == b[0] {
      StrLtIff(a[1..], b[1..]);
      if n: nat :| PartAt(a[1..], b[1..], n) {
        PartNext(a, b, n);
      }
      if n: nat :| PartAt(a, b, n) {
        PartNext(a, b, 0);
        PartNext(a, b, n - 1);
      }
    } else if b != "" && (a == "" || a[0] < b[0]) {
      assert PartAt(a, b, 0);
    } else {
      NoPart(a, b);
    }
  }

  /** p comes no later than q when keys are ordered by the pair (score, key). */
  predicate Leads(score: map<string, real>, p: string, q: string)
    requires p in score && q in score
  {
    score[p] < score[q] || (score[p] == score[q] && (p == q || StrLt(p, q)))
  }

  predicate IsFirst(score: map<string, real>, p: string) {
    p in score && forall q :: q in score ==> Leads(score, p, q)
  }

  lemma FindFirst(score: map<string, real>) returns (p: string)
    requires score != map[]
    ensures IsFirst(score, p)
    decreases |score|
  {
    var k :| k in score;
    var rest := score - {k};
    if rest == map[] {
      assert forall q :: q in score && q != k ==> q in rest;
      return k;
    }
    assert |rest.Keys| < |score.Keys| by { assert rest.Keys == score.Keys - {k}; }
    var r := FindFirst(rest);
    StrLtTotal(k, r);
    p := if Leads(score, k, r) then k else r;
    forall q | q in score
      ensures Leads(score, p, q)
    {
      if q != k {
        assert q in rest && Leads(rest, r, q);
        if p == k && score[k] == score[r] == score[q] && k != r && r != q {
          StrLtTransitive(k, r, q);
        }
      }
    }
  }

  lemma FirstExists(score: map<string, real>)
    requires score != map[]
    ensures exists p :: IsFirst(score, p)
  {
    var p := FindFirst(score);
  }

  lemma FirstUnique(score: map<string, real>, p: string, q: string)
    requires IsFirst(score, p) && IsFirst(score, q)
    ensures p == q
  {
    assert Leads(score, p, q) && Leads(score, q, p);
    if p != q {
      StrLtAsymmetric(p, q);
    }
  }

  /** Python's min(keys, key=lambda k: (score[k], k)): the ties are broken by the key. */
  function First(score: map<string, real>): (p: string)
    requires score != map[]
    ensures p in score && IsFirst(score, p)
  {
    FirstExists(score);
    assert forall p, q :: IsFirst(score, p) && IsFirst(score, q) ==> p == q by {
      forall p, q | IsFirst(score, p) && IsFirst(score, q) ensures p == q {
        FirstUnique(score, p, q);
      }
    }
    var p :| p in score && IsFirst(score, p);
    p
  }

  /** order lists the keys of score, each once, every one leading all later ones. */
  ghost predicate IsSortedBy(score: map<string, real>, order: seq<string>) {
    && |order| == |score|
    && (forall k :: k in order <==> k in score)
    && (forall i, j :: 0 <= i < j < |order| ==> order[i] != order[j] && Leads(score, order[i], order[j]))
  }

  lemma ConsMembers(score: map<string, real>, p: string, order: seq<string>)
    requires IsFirst(score, p) && IsSortedBy(score - {p}, order)
    ensures |[p] + order| == |score|
    ensures forall k :: k in [p] + order <==> k in score
  {
    hide Leads;
    var rest := score - {p};
    assert rest.Keys == score.Keys - {p};
    assert |score.Keys| == |rest.Keys| + 1;
    forall k ensures k in [p] + order <==> k in score {
      assert k in order <==> k in rest;
    }
  }

  ghost predicate LeadsAt(score: map<string, real>, order: seq<string>, i: nat, j: nat)
    requires i < |order| && j < |order|
  {
    order[i] in score && order[j] in score && order[i] != order[j] && Leads(score, order[i], order[j])
  }

  lemma ConsLeads(score: map<string, real>, p: string, order: seq<string>, i: nat, j: nat)
    requires IsFirst(score, p) && IsSortedBy(score - {p}, order)
    requires i < j < |order| + 1
    ensures LeadsAt(score, [p] + order, i, j)
  {
    hide StrLt;
    var rest := score - {p};
    assert order[j - 1] in order && order[j - 1] in rest;
    if i > 0 {
      assert order[i - 1] in order && order[i - 1] in rest;
      assert Leads(rest, order[i - 1], order[j - 1]);
    }
  }

  lemma ConsAllLead(score: map<string, real>, p: string, order: seq<string>)
    requires IsFirst(score, p) && IsSortedBy(score - {p}, order)
    ensures forall i, j :: 0 <= i < j < |order| + 1 ==> LeadsAt(score, [p] + order, i, j)
  {
    hide StrLt;
    hide IsFirst;
    hide IsSortedBy;
    hide Leads;
    forall i, j | 0 <= i < j < |order| + 1 ensures LeadsAt(score, [p] + order, i, j) {
      ConsLeads(score, p, order, i, j);
    }
  }

  lemma ConsSorted(score: map<string, real>, p: string, order: seq<string>)
    requires IsFirst(score, p) && IsSortedBy(score - {p}, order)
    ensures IsSortedBy(score, [p] + order)
  {
    hide StrLt;
    hide IsFirst;
    hide IsSortedBy;
    hide LeadsAt;
    ConsMembers(score, p, order);
    ConsAllLead(score, p, order);
    LeadingSorted(score, [p] + order);
  }

  lemma LeadingSorted(score: map<string, real>, order: seq<string>)
    requires |order| == |score| && forall k :: k in order <==> k in score
    requires forall i, j :: 0 <= i < j < |order| ==> LeadsAt(score, order, i, j)
    ensures IsSortedBy(score, order)
  {
    hide StrLt;
    hide Leads;
    forall i, j | 0 <= i < j < |order| ensures order[i] != order[j] && Leads(score, order[i], order[j]) {
      assert LeadsAt(score, order, i, j);
    }
  }

  /** Python's sorted(keys, key=lambda k: (score[k], k)). */
  function SortBy(score: map<string, real>): (order: seq<string>)
    ensures forall k :: k in order <==> k in score
    ensures IsSortedBy(score, order)
    decreases |score|
  {
    if score == map[] then []
    else
      var p := First(score);
      assert (score - {p}).Keys == score.Keys - {p};
      ConsSorted(score, p, SortBy(score - {p}));
      [p] + SortBy(score - {p})
  }

  ghost predicate Increasing(order: seq<string>) {
    forall i, j :: 0 <= i < j < |order| ==> StrLt(order[i], order[j])
  }

  /** Python's sorted(keys): by the key alone. */
  function SortedKeys(keys: set<string>): (order: seq<string>)
    ensures |order| == |keys|
    ensures forall k :: k in order <==> k in keys
    ensures Increasing(order)
  {
    var score := map k | k in keys :: 0.0;
    assert score.Keys == keys;
    var order := SortBy(score);
    assert forall i, j :: 0 <= i < j < |order| ==> Leads(score, order[i], order[j]);
    order
  }

  ghost predicate Distinct(order: seq<string>) {
    forall i, j :: 0 <= i < j < |order| ==> order[i] != order[j]
  }

  lemma IncreasingDistinct(order: seq<string>)
    requires Increasing(order)
    ensures Distinct(order)
  {
    hide StrLt;
    forall i, j | 0 <= i < j < |order| ensures order[i] != order[j] {
      StrLtIrreflexive(order[i]);
    }
  }

  lemma IncreasingAhead(order: seq<string>, i: nat)
    requires Increasing(order) && i < |order|
    ensures order[i] !in order[i + 1..]
  {
    if order[i] in order[i + 1..] {
      var j :| i < j < |order| && order[j] == order[i];
      StrLtIrreflexive(order[i]);
    }
  }

  /** min(queues, key=(len, queue_id)) */
  function LeastLoaded<T>(queues: seq<seq<T>>): (i: nat)
    requires queues != []
    ensures i < |queues|
    ensures forall j :: 0 <= j < |queues| ==> |queues[i]| <= |queues[j]|
    ensures forall j :: 0 <= j < i ==> |queues[i]| < |queues[j]|
  {
    if |queues| == 1 then 0
    else
      var n := |queues| - 1;
      var i := LeastLoaded(queues[..n]);
      assert forall j :: 0 <= j < n ==> queues[..n][j] == queues[j];
      if |queues[n]| < |queues[i]| then n else i
  }

  /** How a running minimum goes on. */
  lemma LeastLoadedNext<T>(queues: seq<seq<T>>, n: nat)
    requires 0 < n < |queues|
    ensures var i := LeastLoaded(queues[..n]);
      LeastLoaded(queues[..n + 1]) == if |queues[n]| < |queues[i]| then n else i
  {
    assert queues[..n + 1][..n] == queues[..n];
  }

  lemma LeastLoadedFirst<T>(queues: seq<seq<T>>)
    requires queues != []
    ensures LeastLoaded(queues[..1]) == 0
  {
  }
}
