/** Integer limits, and the few facts about products and quotients that the solver does not find by itself. */
module Arithmetic {

  const MAX_U32 := 0xFFFF_FFFF
  const MAX_USIZE := 0xFFFF_FFFF_FFFF_FFFF

  type Positive = x: int | x > 0 witness 1

  function Min(a: int, b: int): (m: int)
  {
    if a <= b then a else b
  }

  lemma MulPositive(a: Positive, b: Positive)
    ensures a * b > 0
  {
  }

  lemma DivNonNegative(i: nat, d: Positive)
    ensures i / d >= 0
  {
  }

  lemma MulAtLeast(a: int, d: Positive)
    requires a >= 1
    ensures a * d >= d
  {
  }

  lemma MulDistributes(a: int, b: int, d: int)
    ensures (a - b) * d == a * d - b * d
    ensures (a + b) * d == a * d + b * d
  {
  }

  /** Quotient and remainder are determined by the division equation. */
  lemma DivUnique(i: int, d: Positive, q: int, r: int)
    requires i == q * d + r && 0 <= r < d
    ensures i / d == q && i % d == r
  {
    var q', r' := i / d, i % d;
    assert i == q' * d + r';
    MulDistributes(q, q', d);
    MulDistributes(q', q, d);
    if q > q' {
      MulAtLeast(q - q', d);
    } else if q < q' {
      MulAtLeast(q' - q, d);
    }
  }

  /** Dividing twice is dividing by the product. */
  lemma DivTwice(n: nat, a: Positive, b: Positive)
    ensures a * b > 0 && n / a / b == n / (a * b)
  {
    var q, r := n / a, n % a;
    var q', r' := q / b, q % b;
    assert q == q' * b + r';
    Regroup(n, a, b, q', r', r);
    MulDistributes(b, r', a);
    MulAtLeast(b - r', a);
    MulPositive(a, b);
    var low := r' * a + r;
    assert r' * a >= 0;
    DivUnique(n, a * b, q', low);
  }

  lemma Regroup(n: int, a: int, b: int, q: int, x: int, y: int)
    requires n == a * (q * b + x) + y
    ensures n == q * (a * b) + (x * a + y)
  {
  }
}
