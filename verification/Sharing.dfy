/** How the synchronous scheduler shares nodes and budget among its queues. */
module Sharing {
  import opened Prelude
  import opened Arithmetic

  /** The queues after the nodes were dealt out, each to the least loaded queue. */
  function Deal<T>(nodes: seq<T>, q: nat): (queues: seq<seq<T>>)
    requires q > 0
    ensures |queues| == q
  {
    if nodes == [] then seq(q, _ => [])
    else
      var n := |nodes| - 1;
      var before := Deal(nodes[..n], q);
      var i := LeastLoaded(before);
      before[i := before[i] + [nodes[n]]]
  }

  /** How many of n nodes queue j gets. */
  function Load(n: nat, q: nat, j: nat): nat
    requires q > 0
  {
    n / q + if j < n % q then 1 else 0
  }

  lemma NextQuotient(n: nat, q: nat)
    requires q > 0
    ensures (n + 1) / q == n / q + (if n % q == q - 1 then 1 else 0)
    ensures (n + 1) % q == if n % q == q - 1 then 0 else n % q + 1
  {
    if n % q == q - 1 {
      assert n + 1 == q * (n / q + 1) + 0;
      QuotientIs(n + 1, q, n / q + 1, 0);
    } else {
      QuotientIs(n + 1, q, n / q, n % q + 1);
    }
  }

  lemma NextLoad(n: nat, q: nat, j: nat)
    requires j < q
    ensures Load(n + 1, q, j) == Load(n, q, j) + if j == n % q then 1 else 0
  {
    NextQuotient(n, q);
  }

  lemma LoadFacts(n: nat, q: nat)
    requires q > 0
    ensures n % q < q && Load(n, q, n % q) == n / q
    ensures forall j :: 0 <= j < q ==> n / q <= Load(n, q, j)
    ensures forall j :: 0 <= j < n % q ==> n / q < Load(n, q, j)
  {
  }

  lemma {:induction false} FirstOfTheShortest<T>(queues: seq<seq<T>>, n: nat)
    requires queues != [] && forall j :: 0 <= j < |queues| ==> |queues[j]| == Load(n, |queues|, j)
    ensures LeastLoaded(queues) == n % |queues|
  {
    hide Load;
    LoadFacts(n, |queues|);
    var r := n % |queues|;
    assert |queues[r]| == n / |queues|;
    assert forall j :: 0 <= j < |queues| ==> |queues[r]| <= |queues[j]|;
    assert forall j :: 0 <= j < r ==> |queues[r]| < |queues[j]|;
  }

  lemma {:induction false} EvenLoads<T>(nodes: seq<T>, q: nat)
    requires q > 0
    ensures forall j :: 0 <= j < q ==> |Deal(nodes, q)[j]| == Load(|nodes|, q, j)
    ensures LeastLoaded(Deal(nodes, q)) == |nodes| % q
  {
    hide Load;
    hide LeastLoaded;
    var queues := Deal(nodes, q);
    if nodes == [] {
      EmptyLoad(q);
    } else {
      var n := |nodes| - 1;
      EvenLoads(nodes[..n], q);
      forall j | 0 <= j < q ensures |queues[j]| == Load(|nodes|, q, j) {
        NextLoad(n, q, j);
      }
    }
    FirstOfTheShortest(queues, |nodes|);
  }

  /** Node i is the (i div q)-th of queue i mod q. */
  predicate Dealt<T(==)>(nodes: seq<T>, queues: seq<seq<T>>, i: nat)
    requires i < |nodes| && queues != []
  {
    var j := i % |queues|;
    i / |queues| < |queues[j]| && queues[j][i / |queues|] == nodes[i]
  }

  /** The least loaded queue is always the next one in turn, so that node i goes to queue
      i mod q. With EvenLoads this says all that the queues hold. */
  lemma {:induction false} RoundRobin<T>(nodes: seq<T>, q: nat, i: nat)
    requires q > 0 && i < |nodes|
    ensures Dealt(nodes, Deal(nodes, q), i)
  {
    hide LeastLoaded;
    var n := |nodes| - 1;
    var before := Deal(nodes[..n], q);
    EvenLoads(nodes[..n], q);
    if i < n {
      RoundRobin(nodes[..n], q, i);
      assert Dealt(nodes[..n], before, i);
    } else {
      LoadFacts(n, q);
    }
  }

  lemma EmptyLoad(q: nat)
    requires q > 0
    ensures forall j :: 0 <= j < q ==> Load(0, q, j) == 0
  {
  }

  /** Python's round of the quotient a / b. */
  function RoundedQuotient(a: int, b: int): (h: int)
    requires b > 0
    ensures -b <= 2 * (a - b * h) <= b
    ensures 2 * (a - b * h) == b || 2 * (a - b * h) == -b ==> h % 2 == 0
  {
    var h := HalfEven(a as real / b as real);
    NearestQuotient(a, b, a as real / b as real, h);
    h
  }

  lemma NearestQuotient(a: int, b: int, x: real, h: int)
    requires b > 0 && x == a as real / b as real && h == HalfEven(x)
    ensures -b <= 2 * (a - b * h) <= b
    ensures 2 * (a - b * h) == b || 2 * (a - b * h) == -b ==> h % 2 == 0
  {
    hide HalfEven;
    var d, r := x - h as real, (a - b * h) as real;
    assert x * b as real == a as real;
    assert r == d * b as real by {
      assert (b * h) as real == b as real * h as real;
    }
    ProductNotNegative(0.5 - d, b as real, 0.5 * b as real - r);
    ProductNotNegative(d + 0.5, b as real, r + 0.5 * b as real);
    if 2 * (a - b * h) == b {
      OneFactor(d, 0.5, b as real);
    } else if 2 * (a - b * h) == -b {
      OneFactor(d, -0.5, b as real);
    }
  }

  lemma OneFactor(x: real, y: real, b: real)
    requires b > 0.0 && x * b == y * b
    ensures x == y
  {
    assert (x - y) * b == 0.0;
  }

  lemma WholeBelow(a: int, b: int, m: int)
    requires b > 0 && m * b <= a
    ensures m <= RoundedQuotient(a, b)
  {
    hide RoundedQuotient;
    var h := RoundedQuotient(a, b);
    if h < m {
      NextMultiple(b, h, m);
    }
  }

  lemma NextMultiple(b: int, h: int, m: int)
    requires b > 0 && h < m
    ensures b * h + b <= m * b == b * m
  {
    TimesOrder(h + 1, m, b);
  }

  lemma WholeAbove(a: int, b: int, m: int)
    requires b > 0 && a <= m * b
    ensures RoundedQuotient(a, b) <= m
  {
    hide RoundedQuotient;
    var h := RoundedQuotient(a, b);
    if h > m {
      NextMultiple(b, m, h);
    }
  }

  /** The budget and the nodes that are left for the queues that were not served yet. */
  datatype Rest = Rest(budget: int, nodes: int)

  function Total(sizes: seq<nat>): nat {
    if sizes == [] then 0 else Total(sizes[..|sizes| - 1]) + sizes[|sizes| - 1]
  }

  function QueueBudget(rest: Rest, size: nat): int {
    RoundedQuotient(rest.budget * size, Max(rest.nodes, 1))
  }

  /** The sequential split: each non-empty queue takes its share of what is left. */
  function Split(sizes: seq<nat>, total: int, nodes: int): Rest {
    if sizes == [] then Rest(total, nodes)
    else
      var n := |sizes| - 1;
      var rest := Split(sizes[..n], total, nodes);
      if sizes[n] == 0 then rest
      else Rest(rest.budget - QueueBudget(rest, sizes[n]), rest.nodes - sizes[n])
  }

  /** What queue j is given out of the total; nothing if it is empty. */
  function ShareOf(sizes: seq<nat>, total: int, j: nat): int
    requires j < |sizes|
  {
    if sizes[j] == 0 then 0 else QueueBudget(Split(sizes[..j], total, Total(sizes)), sizes[j])
  }

  /** One share of a fair remainder is fair, and leaves a fair remainder. */
  lemma FairStep(b: int, r: int, size: int, f: int, c: int)
    requires 0 < size <= r && f * r <= b <= c * r
    ensures var h := RoundedQuotient(b * size, r);
      f * size <= h <= c * size && f * (r - size) <= b - h <= c * (r - size)
  {
    hide RoundedQuotient;
    FairFloor(b, r, size, f);
    FairCeiling(b, r, size, c);
  }

  lemma FairFloor(b: int, r: int, size: int, f: int)
    requires 0 < size <= r && f * r <= b
    ensures var h := RoundedQuotient(b * size, r);
      f * size <= h && f * (r - size) <= b - h
  {
    hide RoundedQuotient;
    TimesOrder(f * r, b, size);
    WholeBelow(b * size, r, f * size);
    TimesOrder(f * r, b, r - size);
    assert b * size <= (b - f * (r - size)) * r by {
      assert (b - f * (r - size)) * r == b * r - f * r * (r - size);
    }
    WholeAbove(b * size, r, b - f * (r - size));
  }

  lemma FairCeiling(b: int, r: int, size: int, c: int)
    requires 0 < size <= r && b <= c * r
    ensures var h := RoundedQuotient(b * size, r);
      h <= c * size && b - h <= c * (r - size)
  {
    hide RoundedQuotient;
    TimesOrder(b, c * r, size);
    WholeAbove(b * size, r, c * size);
    TimesOrder(b, c * r, r - size);
    assert (b - c * (r - size)) * r <= b * size by {
      assert (b - c * (r - size)) * r == b * r - c * r * (r - size);
    }
    WholeBelow(b * size, r, b - c * (r - size));
  }

  lemma {:induction false} PrefixTotal(sizes: seq<nat>, n: nat)
    requires n <= |sizes|
    ensures Total(sizes[..n]) <= Total(sizes)
  {
    if n < |sizes| {
      var m := |sizes| - 1;
      PrefixTotal(sizes[..m], n);
      assert sizes[..m][..n] == sizes[..n];
    } else {
      assert sizes[..n] == sizes;
    }
  }

  lemma {:induction false} SplitFair(sizes: seq<nat>, n: nat, total: int, f: int, c: int)
    requires n <= |sizes| && f * Total(sizes) <= total <= c * Total(sizes)
    ensures var rest := Split(sizes[..n], total, Total(sizes));
      && rest.nodes == Total(sizes) - Total(sizes[..n])
      && f * rest.nodes <= rest.budget <= c * rest.nodes
  {
    if n > 0 {
      SplitFair(sizes, n - 1, total, f, c);
      PrefixTotal(sizes, n);
      assert sizes[..n][..n - 1] == sizes[..n - 1];
      var rest := Split(sizes[..n - 1], total, Total(sizes));
      if sizes[n - 1] > 0 {
        FairStep(rest.budget, rest.nodes, sizes[n - 1], f, c);
      }
    }
  }

  /** Fairness with any whole bounds on the budget per node. */
  lemma {:induction false} ShareBetween(sizes: seq<nat>, total: int, j: nat, f: int, c: int)
    requires j < |sizes| && f * Total(sizes) <= total <= c * Total(sizes)
    ensures f * sizes[j] <= ShareOf(sizes, total, j) <= c * sizes[j]
  {
    if sizes[j] > 0 {
      SplitFair(sizes, j, total, f, c);
      SplitNext(sizes, total, j);
      PrefixTotal(sizes, j + 1);
      var rest := Split(sizes[..j], total, Total(sizes));
      FairStep(rest.budget, rest.nodes, sizes[j], f, c);
    }
  }

  lemma {:induction false} SplitNext(sizes: seq<nat>, total: int, j: nat)
    requires j < |sizes|
    ensures Total(sizes[..j + 1]) == Total(sizes[..j]) + sizes[j]
    ensures var rest, next := Split(sizes[..j], total, Total(sizes)), Split(sizes[..j + 1], total, Total(sizes));
      && next.budget == rest.budget - ShareOf(sizes, total, j)
      && next.nodes == rest.nodes - sizes[j]
  {
    assert sizes[..j + 1][..j] == sizes[..j];
  }

  /** With T the total and N the number of nodes, every queue is given between
      floor(T / N) and ceil(T / N) per node. */
  lemma {:induction false} FairShares(sizes: seq<nat>, total: nat, j: nat)
    requires j < |sizes| && Total(sizes) > 0
    ensures var n := Total(sizes);
      total / n * sizes[j] <= ShareOf(sizes, total, j) <= (total + n - 1) / n * sizes[j]
  {
    hide ShareOf;
    FloorAndCeiling(total, Total(sizes));
    ShareBetween(sizes, total, j, total / Total(sizes), (total + Total(sizes) - 1) / Total(sizes));
  }

  lemma FloorAndCeiling(t: int, n: int)
    requires n > 0
    ensures t / n * n <= t <= (t + n - 1) / n * n
  {
  }

  function SumShares(sizes: seq<nat>, total: int, n: nat): int
    requires n <= |sizes|
  {
    if n == 0 then 0 else SumShares(sizes, total, n - 1) + ShareOf(sizes, total, n - 1)
  }

  lemma {:induction false} SharesTaken(sizes: seq<nat>, total: int, n: nat)
    requires n <= |sizes|
    ensures SumShares(sizes, total, n) == total - Split(sizes[..n], total, Total(sizes)).budget
  {
    if n > 0 {
      SharesTaken(sizes, total, n - 1);
      SplitNext(sizes, total, n - 1);
    }
  }

  /** The shares add up to exactly the total. */
  lemma {:induction false} SharesSum(sizes: seq<nat>, total: nat)
    requires Total(sizes) > 0
    ensures SumShares(sizes, total, |sizes|) == total
  {
    var n := Total(sizes);
    var c := total;
    assert total <= c * n by { TimesOrder(1, n, total); }
    SharesTaken(sizes, total, |sizes|);
    SplitFair(sizes, |sizes|, total, 0, c);
    assert sizes[..|sizes|] == sizes;
  }

  lemma {:induction false} SumAtLeast(sizes: seq<nat>, total: int, n: nat, f: int)
    requires n <= |sizes| && forall j :: 0 <= j < n ==> f * sizes[j] <= ShareOf(sizes, total, j)
    ensures f * Total(sizes[..n]) <= SumShares(sizes, total, n)
  {
    hide ShareOf;
    hide Total;
    hide Split;
    if n == 0 {
      assert Total([]) == 0 by { EmptyTotal(); }
      assert sizes[..0] == [];
    } else {
      SumAtLeast(sizes, total, n - 1, f);
      SplitNext(sizes, total, n - 1);
      Distribute(f, Total(sizes[..n - 1]), sizes[n - 1]);
    }
  }

  lemma EmptyTotal()
    ensures Total([]) == 0
  {
  }

  lemma Distribute(f: int, x: int, y: int)
    ensures f * (x + y) == f * x + f * y
  {
  }

  /** No queue is given less than f for each of its nodes, exactly if the total has f for
      every node. */
  lemma {:induction false} EnoughForAll(sizes: seq<nat>, total: nat, f: int)
    requires Total(sizes) > 0
    ensures (forall j :: 0 <= j < |sizes| ==> f * sizes[j] <= ShareOf(sizes, total, j)) <==> f * Total(sizes) <= total
  {
    hide ShareOf;
    if f * Total(sizes) <= total {
      var c := total;
      assert total <= c * Total(sizes) by { TimesOrder(1, Total(sizes), total); }
      forall j | 0 <= j < |sizes| ensures f * sizes[j] <= ShareOf(sizes, total, j) {
        ShareBetween(sizes, total, j, f, c);
      }
    }
    if forall j :: 0 <= j < |sizes| ==> f * sizes[j] <= ShareOf(sizes, total, j) {
      SumAtLeast(sizes, total, |sizes|, f);
      SharesSum(sizes, total);
      assert sizes[..|sizes|] == sizes;
    }
  }
}
