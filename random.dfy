/**
 * Draws of the process-wide uniform random source. A draw of `Math.random()`
 * is a fraction num/den in [0, 1); the engine only ever uses it as
 * `Math.floor(r * n)` or compares it with 0.5.
 */
module Random {

  datatype Fraction = Fraction(num: nat, den: nat)

  /** A value in [0, 1). */
  type Random01 = f: Fraction | f.num < f.den witness Fraction(0, 1)

  /** `Math.floor(r * n)`: an index into a list of n elements. */
  function Scale(r: Random01, n: nat): (i: nat)
    ensures n > 0 ==> i < n
    ensures n == 0 ==> i == 0
  {
    if n == 0 then 0
    else
      ScaledBelow(r.num, r.den, n);
      Quotient(r.num * n, r.den)
  }

  function Quotient(a: nat, d: nat): (q: nat)
    requires d > 0
    ensures q * d <= a < (q + 1) * d
    decreases a
  {
    if a < d then 0 else 1 + Quotient(a - d, d)
  }

  /** `r < 0.5`. */
  predicate BelowHalf(r: Random01)
  {
    2 * r.num < r.den
  }

  lemma ScaledBelow(num: nat, den: nat, n: nat)
    requires num < den && 0 < n
    ensures Quotient(num * n, den) < n
  {
    var q := Quotient(num * n, den);
    assert q * den <= num * n;
    assert num * n < den * n by {
      MulStrict(num, den, n);
    }
    if q >= n {
      MulMono(n, q, den);
    }
  }

  lemma MulStrict(a: nat, b: nat, n: nat)
    requires a < b && 0 < n
    ensures a * n < b * n
  {
    assert b * n == a * n + (b - a) * n;
  }

  lemma MulMono(a: nat, b: nat, d: nat)
    requires a <= b
    ensures a * d <= b * d
  {
    assert b * d == a * d + (b - a) * d;
  }

  /** `Math.floor(r * n)` is the i with i <= r * n < i + 1. */
  lemma ScaleIs(r: Random01, n: nat, i: nat)
    requires 0 < n && i * r.den <= r.num * n < (i + 1) * r.den
    ensures Scale(r, n) == i
  {
    var q := Quotient(r.num * n, r.den);
    if q < i {
      MulMono(q + 1, i, r.den);
    } else if q > i {
      MulMono(i + 1, q, r.den);
    }
  }

  /** A draw below 1/n picks the first of n elements. */
  lemma ScaleFirst(r: Random01, n: nat)
    requires 0 < n && r.num * n < r.den
    ensures Scale(r, n) == 0
  {
    ScaleIs(r, n, 0);
  }

  /** A draw of at least (n-1)/n picks the last of n elements. */
  lemma ScaleLast(r: Random01, n: nat)
    requires 0 < n && (n - 1) * r.den <= r.num * n
    ensures Scale(r, n) == n - 1
  {
    ScaleIs(r, n, n - 1);
  }
}
