/** Facts about Euclidean division by a positive divisor, which for the
    non-negative operands of the lottery code agrees with JavaScript's `%`
    and `Math.floor(a / b)`. */
module Arith {

  lemma MulAtLeast(k: int, n: int)
    requires k >= 1 && n > 0
    ensures k * n >= n
  {
  }

  /** Quotient and remainder are determined by `x == q * t + r` with `0 <= r < t`. */
  lemma DivModUnique(x: int, t: int, q: int, r: int)
    requires t > 0
    ensures x == q * t + r && 0 <= r < t ==> x / t == q && x % t == r
  {
    var q', r' := x / t, x % t;
    assert x == q' * t + r';
    if q > q' {
      MulAtLeast(q - q', t);
      assert (q - q') * t == q * t - q' * t;
    } else if q' > q {
      MulAtLeast(q' - q, t);
      assert (q' - q) * t == q' * t - q * t;
    }
  }

  lemma DivLe(a: int, b: int, t: int)
    requires t > 0
    ensures a <= b ==> a / t <= b / t
  {
    var qa, qb := a / t, b / t;
    assert a == qa * t + a % t;
    assert b == qb * t + b % t;
    if qa > qb {
      MulAtLeast(qa - qb, t);
      assert (qa - qb) * t == qa * t - qb * t;
    }
  }

  /** One step of a counter: either the remainder grows by one, or it wraps
      to 0 and the quotient grows by one. */
  lemma StepDiv(i: int, t: int)
    requires t > 0
    ensures (i + 1) % t == 0 ==> (i + 1) / t == i / t + 1 && i % t == t - 1
    ensures (i + 1) % t != 0 ==> (i + 1) / t == i / t && (i + 1) % t == i % t + 1
  {
    var q, r := i / t, i % t;
    assert i == q * t + r;
    DivModUnique(i + 1, t, q, r + 1);
    assert (q + 1) * t == q * t + t;
    DivModUnique(i + 1, t, q + 1, 0);
  }

  lemma ModSucc(a: int, n: int)
    requires n > 0
    ensures (a + 1) % n == if a % n + 1 == n then 0 else a % n + 1
  {
    StepDiv(a, n);
  }

  /** Distinct offsets below `n` from the same base land on distinct residues. */
  lemma ModDistinct(x: int, a: int, b: int, n: int)
    requires n > 0 && 0 <= a < n && 0 <= b < n && a != b
    ensures (x + a) % n != (x + b) % n
  {
    var qa, qb := (x + a) / n, (x + b) / n;
    assert x + a == qa * n + (x + a) % n;
    assert x + b == qb * n + (x + b) % n;
    if qa > qb {
      MulAtLeast(qa - qb, n);
      assert (qa - qb) * n == qa * n - qb * n;
    } else if qb > qa {
      MulAtLeast(qb - qa, n);
      assert (qb - qa) * n == qb * n - qa * n;
    }
  }

  /** `Math.ceil(s / t)` for non-negative `s` is `(s + t - 1) / t`; an index
      below `s` has a quotient below it. */
  lemma QuotientBelowCeil(i: int, s: int, t: int)
    requires t > 0 && 0 <= i < s
    ensures i / t < (s + t - 1) / t
  {
    DivLe(i, s - 1, t);
    var q, r := (s - 1) / t, (s - 1) % t;
    assert s - 1 == q * t + r;
    assert (q + 1) * t == q * t + t;
    DivModUnique(s + t - 1, t, q + 1, r);
  }
}
