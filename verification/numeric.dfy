/** The two pieces of JavaScript arithmetic the engine relies on, written out over unbounded integers. */
module Numeric {

  /** JavaScript's `a % n` for a positive `n`: the remainder truncates toward zero, so it takes the
      sign of `a` (Dafny's own `%` never returns a negative number). */
  function JsRem(a: int, n: int): (r: int)
    requires n > 0
    ensures a >= 0 ==> 0 <= r < n && r == a % n
    ensures a < 0 ==> -n < r <= 0
  {
    if a >= 0 then a % n else -((-a) % n)
  }

  /** Below twice the modulus, the remainder subtracts the modulus at most once. */
  lemma JsRemWrap(a: int, n: int)
    requires n > 0
    ensures 0 <= a < 2 * n ==> JsRem(a, n) == if a < n then a else a - n
  {
    if n <= a < 2 * n {
      QuotientOne(a, n, a / n, a % n);
    }
  }

  lemma CancelFactor(t: int, x: int, y: int)
    requires t > 0 && t * x < t * y
    ensures x < y
  {
  }

  /** A dividend between n and 2n has quotient 1. */
  lemma QuotientOne(a: int, n: int, q: int, r: int)
    requires n > 0 && a == n * q + r && 0 <= r < n && n <= a < 2 * n
    ensures q == 1
  {
    assert n * (q - 1) == n * q - n;
    assert n * (q - 1) < n * 1;
    CancelFactor(n, q - 1, 1);
    assert n * -1 < n * (q - 1);
    CancelFactor(n, -1, q - 1);
  }

  /** `Math.round(a / b)` computed exactly: the integer nearest to a/b, halves rounded up.
      (The source divides in floating point first; see README.) */
  function Round(a: int, b: int): (r: int)
    requires b > 0
    ensures 2 * b * r - b <= 2 * a < 2 * b * r + b
  {
    var q := (2 * a + b) / (2 * b);
    assert 2 * a + b == 2 * b * q + (2 * a + b) % (2 * b);
    q
  }


  /** The percentage `Math.round(done / total * 100)` of a part stays within 0..100. */
  lemma {:induction false} PercentInRange(done: int, total: int)
    requires 0 <= done <= total && total > 0
    ensures 0 <= Round(100 * done, total) <= 100
  {
    var r := Round(100 * done, total);
    assert total * r < total * 101 by {
      assert 2 * total * r - total <= 200 * done <= 200 * total;
    }
    CancelFactor(total, r, 101);
    assert total * -1 < total * r by {
      assert 0 <= 200 * done < 2 * total * r + total;
    }
    CancelFactor(total, -1, r);
  }

  /** Rounding an exact quotient gives the quotient. */
  lemma {:induction false} RoundExact(k: int, b: int)
    requires b > 0
    ensures Round(k * b, b) == k
  {
    var r := Round(k * b, b);
    assert b * (r - 1) < b * k by {
      assert 2 * b * r - b <= 2 * (k * b);
    }
    CancelFactor(b, r - 1, k);
    assert b * k < b * (r + 1) by {
      assert 2 * (k * b) < 2 * b * r + b;
    }
    CancelFactor(b, k, r + 1);
  }

  /** Rounding a larger quotient never gives a smaller integer. */
  lemma {:induction false} RoundMonotone(a: int, a': int, b: int)
    requires b > 0 && a <= a'
    ensures Round(a, b) <= Round(a', b)
  {
    var r, r' := Round(a, b), Round(a', b);
    assert b * (r - 1) < b * r' by {
      assert 2 * b * r - b <= 2 * a <= 2 * a' < 2 * b * r' + b;
    }
    CancelFactor(b, r - 1, r');
  }
}
