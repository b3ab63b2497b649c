/** Facts about products and quotients that the verifier does not find by itself, and rounding to multiples. */
module Arith {

  lemma {:induction false} MulAtLeast(d: int, m: nat)
    requires d >= 1
    ensures d * m >= m
  {
    assert d * m == (d - 1) * m + m;
  }

  lemma {:induction false} MulMono(a: int, b: int, m: nat)
    requires a <= b
    ensures a * m <= b * m
  {
    assert (b - a) * m >= 0;
    assert b * m == a * m + (b - a) * m;
  }

  lemma {:induction false} MulLess(a: int, b: int, m: nat)
    requires a < b
    ensures a * m + m <= b * m
  {
    MulMono(a + 1, b, m);
    assert (a + 1) * m == a * m + m;
  }

  lemma {:induction false} MulAssoc(a: nat, b: nat, c: nat)
    ensures a * b * c == a * (b * c) == a * (c * b)
  {
  }

  lemma {:induction false} NegMul(d: int, m: int)
    ensures (-d) * m == -(d * m)
  {
  }

  lemma {:induction false} DivUnique(x: int, m: nat, q: int, r: int)
    requires m > 0 && 0 <= r < m && x == q * m + r
    ensures x % m == r && x / m == q
  {
    var q', r' := x / m, x % m;
    var d := q - q';
    assert d * m == q * m - q' * m;
    assert d * m == r' - r;
    if d >= 1 {
      MulAtLeast(d, m);
    } else if d <= -1 {
      NegMul(d, m);
      MulAtLeast(-d, m);
    }
  }

  // ----- Rounding to multiples -----

  function AlignDown(n: nat, m: nat): nat
    requires m > 0
  {
    n / m * m
  }

  function AlignUp(n: nat, m: nat): nat
    requires m > 0
  {
    AlignDown(n + m - 1, m)
  }

  lemma DivMod(n: nat, m: nat)
    requires m > 0
    ensures 0 <= n - n / m * m < m
  {
    assert n == n / m * m + n % m;
  }

  lemma {:induction false} AlignUpByMod(n: nat, m: nat)
    requires m > 0
    ensures AlignUp(n, m) == n + m - 1 - (n + m - 1) % m
  {
    assert n + m - 1 == (n + m - 1) / m * m + (n + m - 1) % m;
  }

  lemma {:induction false} SmallMod(x: nat, m: nat)
    requires x < m
    ensures x % m == x
  {
    DivUnique(x, m, 0, x);
  }

  lemma AlignDownBounds(n: nat, m: nat)
    requires m > 0
    ensures AlignDown(n, m) <= n < AlignDown(n, m) + m
  {
    DivMod(n, m);
  }

  /** AlignDown gives the greatest multiple at or below n. */
  lemma AlignDownGreatest(n: nat, m: nat, k: nat)
    requires m > 0 && k * m <= n
    ensures k * m <= AlignDown(n, m)
  {
    DivMod(n, m);
    if n / m < k {
      MulLess(n / m, k, m);
    } else {
      MulMono(k, n / m, m);
    }
  }

  /** AlignUp gives the least multiple at or above n. */
  lemma AlignUpLeast(n: nat, m: nat, k: nat)
    requires m > 0 && n <= k * m
    ensures n <= AlignUp(n, m) <= k * m
  {
    var q := (n + m - 1) / m;
    DivMod(n + m - 1, m);
    if q > k {
      MulLess(k, q, m);
    } else {
      MulMono(q, k, m);
    }
  }
}
