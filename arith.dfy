/** The integer operations of the evaluators, on mathematical integers. */
module Arith {

  function Abs(x: int): nat {
    if x < 0 then -x else x
  }

  /**
   * C's `/` on `int`: the quotient truncated toward zero (Dafny's own `/` is Euclidean).
   * Used by parser.h:134 and noalloc.c:296.
   */
  function TruncDiv(a: int, b: int): int
    requires b != 0
  {
    if (a < 0) == (b < 0) then Abs(a) / Abs(b) else -(Abs(a) / Abs(b))
  }

  /**
   * The defining property of C division: the remainder `a - (a/b)*b` is smaller than the
   * divisor in magnitude and is zero or has the sign of the dividend.
   */
  lemma TruncDivRemainder(a: int, b: int)
    requires b != 0
    ensures Abs(a - TruncDiv(a, b) * b) < Abs(b)
    ensures a - TruncDiv(a, b) * b == 0 || (a - TruncDiv(a, b) * b < 0 <==> a < 0)
  {
    var m: int := Abs(b);
    var q0: int, r0: int := Abs(a) / m, Abs(a) % m;
    assert Abs(a) == q0 * m + r0 && 0 <= r0 < m;
    TruncProduct(a, b, q0);
    assert a - TruncDiv(a, b) * b == if a >= 0 then r0 else -r0;
  }

  /** The quotient times the divisor is the magnitudes' quotient times |b|, with the sign of `a`. */
  lemma TruncProduct(a: int, b: int, q0: int)
    requires b != 0 && q0 == Abs(a) / Abs(b)
    ensures TruncDiv(a, b) * b == if a >= 0 then q0 * Abs(b) else -(q0 * Abs(b))
  {
    if b < 0 {
      assert TruncDiv(a, b) * b == (-TruncDiv(a, b)) * Abs(b);
    }
  }

  /** Truncation and Dafny's Euclidean division differ on negative dividends. */
  lemma TruncDivDiffersFromEuclidean()
    ensures TruncDiv(-7, 2) == -3 && -7 / 2 == -4
    ensures TruncDiv(7, -2) == -3 && TruncDiv(-7, -2) == 3
  {
  }

  /** The value `powi(a, b)` computes: `a` multiplied `b` times, so 1 when `b <= 0`. */
  function Pow(a: int, b: int): int
    decreases if b < 0 then 0 else b
  {
    if b <= 0 then 1 else a * Pow(a, b - 1)
  }

  /** Exponents add: a^(m+n) == a^m * a^n. */
  lemma {:induction false} PowAdd(a: int, m: nat, n: nat)
    ensures Pow(a, m + n) == Pow(a, m) * Pow(a, n)
  {
    if m > 0 {
      PowAdd(a, m - 1, n);
      assert Pow(a, m + n) == a * Pow(a, m - 1 + n);
    }
  }
}
