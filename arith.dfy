/**
 * Integer arithmetic: Go's truncating division, and the facts about
 * Dafny's (Euclidean) division that the reports rely on.
 *
 * Go's integer division on int64 operands truncates toward zero, while
 * Dafny's `/` is Euclidean; on non-negative operands the two agree.
 */
module Arith {
  function Abs(a: int): nat
  {
    if a < 0 then -a else a
  }

  /** Go's `a / b`: the quotient truncated toward zero. */
  function Quo(a: int, b: int): (q: int)
    requires b != 0
    ensures 0 <= a && 0 < b ==> q == a / b
    ensures a < 0 && 0 < b ==> q == -((-a) / b)
    ensures 0 <= a && b < 0 ==> q == -(a / (-b))
    ensures a < 0 && b < 0 ==> q == (-a) / (-b)
  {
    var m := Abs(a) / Abs(b);
    if (a < 0) == (b < 0) then m else -m
  }

  /** Multiplying by a non-negative factor preserves order. */
  lemma MulMonotone(d: nat, x: int, y: int)
    requires x <= y
    ensures d * x <= d * y
  {
  }

  /** A non-zero multiple of d is at least d away from 0. */
  lemma MulAwayFromZero(d: int, k: int)
    requires 0 < d
    ensures 1 <= k ==> d <= d * k
    ensures k <= -1 ==> d * k <= -d
  {
    if 1 <= k {
      MulMonotone(d, 1, k);
    } else if k <= -1 {
      MulMonotone(d, k, -1);
    }
  }

  /** The quotient of a division is determined by the bounds of its remainder. */
  lemma DivUnique(a: int, d: int, q: int, r: int)
    requires 0 < d && a == d * q + r && 0 <= r < d
    ensures a / d == q
  {
    var q', r' := a / d, a % d;
    assert a == d * q' + r' && 0 <= r' < d;
    assert d * (q - q') == r' - r;
    MulAwayFromZero(d, q - q');
  }

  /** Division by a positive divisor preserves order. */
  lemma DivMonotone(a: int, b: int, d: int)
    requires a <= b && 0 < d
    ensures a / d <= b / d
  {
    var qa, ra, qb, rb := a / d, a % d, b / d, b % d;
    assert a == d * qa + ra && 0 <= ra < d;
    assert b == d * qb + rb && 0 <= rb < d;
    assert d * (qa - qb) == (a - b) + (rb - ra);
    MulAwayFromZero(d, qa - qb);
  }

  /** Dividing twice is dividing once by the product. */
  lemma DivDiv(a: nat, b: int, c: int)
    requires 0 < b && 0 < c
    ensures a / b / c == a / (b * c)
  {
    var q, r := a / b, a % b;
    var q2, r2 := q / c, q % c;
    assert a == b * q + r && 0 <= r < b;
    assert q == c * q2 + r2 && 0 <= r2 < c;
    assert b * q == b * (c * q2) + b * r2;
    assert b * (c * q2) == (b * c) * q2;
    MulMonotone(b, r2, c - 1);
    assert b * (c - 1) == b * c - b;
    DivUnique(a, b * c, q2, b * r2 + r);
  }

  /** A multiple of n divided by n gives back the factor. */
  lemma MulDivCancel(k: int, n: int)
    requires 0 < n
    ensures (n * k) / n == k
  {
    DivUnique(n * k, n, k, 0);
  }
}
