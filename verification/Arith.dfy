// Integer division and multiplication facts used by the floor arithmetic.

module Arith {
  /** Floor division by a positive number, characterised by multiplication. */
  lemma DivBound(a: int, b: int, x: int)
    requires b > 0
    ensures x * b <= a <==> x <= a / b
    ensures a / b * b <= a < a / b * b + b
  {
    if x <= a / b {
      assert x * b <= a / b * b;
    } else {
      assert (a / b + 1) * b <= x * b;
    }
  }

  /** `q` is `a` divided by `b` and rounded down: `b` goes `q` times into `a`, and not once more. */
  ghost predicate Quotient(q: int, a: int, b: int) {
    q * b <= a < (q + 1) * b
  }

  lemma QuotientIs(a: int, b: int)
    requires b > 0
    ensures Quotient(a / b, a, b)
  {
    DivBound(a, b, a / b);
    assert (a / b + 1) * b == a / b * b + b;
  }

  /** There is only one. */
  lemma QuotientOnly(p: int, q: int, a: int, b: int)
    requires b > 0 && Quotient(p, a, b) && Quotient(q, a, b)
    ensures p == q
  {
    MulLe(p + 1, q, b);
    MulLe(q + 1, p, b);
  }

  lemma MulLe(x: int, y: int, c: int)
    requires c > 0
    ensures x <= y <==> x * c <= y * c
  {
    if x <= y {
      assert 0 <= (y - x) * c;
    } else {
      assert 0 < (x - y) * c;
    }
  }

  /** A product of two factors grows with each of them. */
  lemma MulMono(a: int, b: int, x: int, y: int)
    requires 0 <= a <= b && 0 <= x <= y
    ensures 0 <= a * x <= b * y
  {
    assert 0 <= a * x;
    assert 0 <= (b - a) * x;
    assert 0 <= b * (y - x);
  }

  lemma Associate(a: int, b: int, c: int)
    ensures a * (b * c) == a * b * c
  {
  }

  /** Floor division is monotone. */
  lemma DivMono(a: int, b: int, d: int)
    requires a <= b && d > 0
    ensures a / d <= b / d
  {
    DivBound(a, d, a / d);
    DivBound(b, d, a / d);
  }
}
