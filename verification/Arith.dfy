/** Multiplication and division by a variable, in steps small enough for the solver. */
module Arith {
  lemma ProductOfNonnegatives(a: nat, b: nat)
    ensures a * b >= 0
  {
  }

  lemma AtLeastOnce(d: int, n: int)
    requires d >= 1 && n > 0
    ensures d * n >= n
  {
    ProductOfNonnegatives(d - 1, n);
    assert (d - 1) * n == d * n - n;
  }

  lemma Distribute(a: int, b: int, n: int)
    ensures (a - b) * n == a * n - b * n
    ensures (a + b) * n == a * n + b * n
  {
  }

  lemma DivMod(v: int, n: int)
    requires n > 0
    ensures v == (v / n) * n + v % n && 0 <= v % n < n
  {
  }

  lemma SameProduct(d: int, n: int)
    requires n > 0 && -n < d * n < n
    ensures d == 0
  {
    Distribute(0, d, n);
    if d >= 1 { AtLeastOnce(d, n); }
    if d <= -1 { AtLeastOnce(-d, n); }
  }

  /** Quotient and remainder are determined by `v == q * n + r`. */
  lemma DivModUnique(v: int, n: int, q: int, r: int)
    requires n > 0 && v == q * n + r && 0 <= r < n
    ensures v / n == q && v % n == r
  {
    DivMod(v, n);
    var a, s := v / n, v % n;
    Distribute(a, q, n);
    SameProduct(a - q, n);
  }

  lemma ScaleLess(a: int, b: int, n: int)
    requires n > 0
    ensures a * n < b * n <==> a < b
  {
    Distribute(b, a, n);
    if a < b { AtLeastOnce(b - a, n); }
    Distribute(a, b, n);
    if b < a { AtLeastOnce(a - b, n); }
  }

  lemma DivMonotone(a: int, b: int, n: int)
    requires n > 0 && a <= b
    ensures a / n <= b / n
  {
    DivMod(a, n);
    DivMod(b, n);
    ScaleLess(b / n + 1, a / n, n);
    Distribute(b / n, 1, n);
  }

  lemma DivNonnegative(a: nat, n: nat)
    requires n > 0
    ensures a / n >= 0
  {
    DivMonotone(0, a, n);
    DivModUnique(0, n, 0, 0);
  }
}
