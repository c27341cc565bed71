/**
  Division and remainder: what offsets and alignments need.
 */
module Arithmetic {

  lemma {:induction false} ProductGrows(a: int, d: int)
    requires a > 0
    ensures d > 0 ==> a * d >= a
    ensures d < 0 ==> a * d <= -a
    decreases if d < 0 then -d else d
  {
    if d > 1 {
      ProductGrows(a, d - 1);
      assert a * d == a * (d - 1) + a;
    } else if d < -1 {
      ProductGrows(a, d + 1);
      assert a * d == a * (d + 1) - a;
    }
  }

  /** Quotient and remainder are unique. */
  lemma Remainder(n: int, a: int, q: int, r: int)
    requires a > 0 && 0 <= r < a && n == a * q + r
    ensures n / a == q && n % a == r
  {
    var d := q - n / a;
    assert a * d == a * q - a * (n / a);
    assert a * d == n % a - r;
    ProductGrows(a, d);
  }

  lemma ShiftByMultiple(r: int, q: int, a: int)
    requires a > 0
    ensures (a * q + r) % a == r % a
  {
    assert a * (q + r / a) == a * q + a * (r / a);
    Remainder(a * q + r, a, q + r / a, r % a);
  }

  lemma SumRemainder(x: int, y: int, a: int)
    requires a > 0 && x % a == 0
    ensures (x + y) % a == y % a
  {
    assert x == a * (x / a);
    ShiftByMultiple(y, x / a, a);
  }

  lemma NegatedMultiple(n: int, a: int)
    requires a > 0 && n % a == 0
    ensures (-n) % a == 0
  {
    assert -n == a * -(n / a) by {
      assert n == a * (n / a);
    }
    ShiftByMultiple(0, -(n / a), a);
  }

  /** Going down to a multiple, or up to the next one. */
  lemma Rounding(n: int, a: int)
    requires a > 0
    ensures (n - n % a) % a == 0 && (n - n % a + a) % a == 0
  {
    assert n - n % a == a * (n / a);
    ShiftByMultiple(0, n / a, a);
    ShiftByMultiple(a, n / a, a);
    Remainder(a, a, 1, 0);
  }

  lemma SmallRemainder(n: int, a: int)
    requires 0 <= n < a
    ensures n % a == n
  {
    Remainder(n, a, 0, n);
  }
}
