/** Facts about products and quotients that several proofs need. A product is passed on as a
    value of its own, so that no other product is in sight of the solver. */
module Arithmetic {

  lemma ProductNotNegative(a: real, b: real, p: real)
    requires a >= 0.0 && b >= 0.0 && p == a * b
    ensures p >= 0.0
  {
  }

  lemma ProductPositive(a: real, b: real, p: real)
    requires a > 0.0 && b > 0.0 && p == a * b
    ensures p > 0.0
  {
  }

  lemma TimesOrder(x: int, y: int, k: int)
    requires x <= y && 0 <= k
    ensures x * k <= y * k && k * x <= k * y
  {
  }

  /** Fractions are compared by their cross products, here l and r. */
  lemma QuotientOrder(x: real, d: real, y: real, e: real, l: real, r: real)
    requires d > 0.0 && e > 0.0 && l == x * e && r == y * d && l <= r
    ensures x / d <= y / e
  {
    var p, q, t := x / d, y / e, d * e;
    ProductPositive(d, e, t);
    CrossProduct(p, d, x, e, l, t);
    CrossProduct(q, e, y, d, r, t);
    if q < p {
      Growth(q, p, t, q * t, p * t);
    }
  }

  lemma CrossProduct(p: real, d: real, x: real, e: real, l: real, t: real)
    requires p * d == x && l == x * e && t == d * e
    ensures l == p * t
  {
  }

  lemma Growth(q: real, p: real, t: real, qt: real, pt: real)
    requires q < p && t > 0.0 && qt == q * t && pt == p * t
    ensures qt < pt
  {
    ProductPositive(p - q, t, pt - qt);
  }

  lemma QuotientNotNegative(x: real, d: real)
    requires x >= 0.0 && d > 0.0
    ensures x / d >= 0.0
  {
    var p := x / d;
    if p < 0.0 {
      ProductPositive(-p, d, -x);
    }
  }

  /** Quotient and remainder are determined by what they stand for. */
  lemma QuotientIs(n: nat, q: nat, a: nat, r: nat)
    requires q > 0 && n == q * a + r && r < q
    ensures n / q == a && n % q == r
  {
    var d := n / q - a;
    assert q * d == r - n % q;
    if d > 0 {
      TimesOrder(1, d, q);
    } else if d < 0 {
      TimesOrder(d, -1, q);
    }
  }

  /** Python's round: to the nearest integer, ties to the even one. */
  function HalfEven(x: real): (h: int)
    ensures -0.5 <= x - h as real <= 0.5
    ensures x - h as real == 0.5 || x - h as real == -0.5 ==> h % 2 == 0
  {
    var down := x.Floor;
    var rest := x - down as real;
    if rest < 0.5 || (rest == 0.5 && down % 2 == 0) then down else down + 1
  }

  /** A larger number is not rounded to a smaller one. */
  lemma HalfEvenMonotone(x: real, y: real)
    requires x <= y
    ensures HalfEven(x) <= HalfEven(y)
  {
  }
}
