/** Bitwise AND and OR on natural numbers.

C builds stream words as `offset | flags` and takes them apart with `&`. Offsets are
unbounded `nat`s in this project, so the two operators are defined here bit by bit, and the
facts the decoders rely on are proved from that definition.
*/
module NatBits {
  import opened Arith

  function Pow2(k: nat): (p: nat)
    ensures p > 0
  {
    if k == 0 then 1 else 2 * Pow2(k - 1)
  }

  lemma {:induction false} Pow2Add(a: nat, b: nat)
    ensures Pow2(a + b) == Pow2(a) * Pow2(b)
  {
    if b != 0 { Pow2Add(a, b - 1); }
  }

  function And(a: nat, b: nat): nat {
    if a == 0 || b == 0 then 0
    else (if a % 2 == 1 && b % 2 == 1 then 1 else 0) + 2 * And(a / 2, b / 2)
  }

  function Or(a: nat, b: nat): nat {
    if a == 0 then b else if b == 0 then a
    else (if a % 2 == 1 || b % 2 == 1 then 1 else 0) + 2 * Or(a / 2, b / 2)
  }

  lemma DoubleMod(a: nat, m: nat)
    requires m > 0
    ensures (2 * a) % (2 * m) == 2 * (a % m)
    ensures (2 * a + 1) % (2 * m) == 2 * (a % m) + 1
  {
    var q, r := a / m, a % m;
    assert a == q * m + r;
    DivUnique(2 * a, 2 * m, q, 2 * r) by { assert 2 * a == q * (2 * m) + 2 * r; }
    DivUnique(2 * a + 1, 2 * m, q, 2 * r + 1) by { assert 2 * a + 1 == q * (2 * m) + (2 * r + 1); }
  }

  /** The low k bits of x. */
  function Low(x: nat, k: nat): nat {
    if k == 0 then 0 else x % 2 + 2 * Low(x / 2, k - 1)
  }

  lemma {:induction false} LowIsMod(x: nat, k: nat)
    ensures Low(x, k) == x % Pow2(k) <= x
  {
    if k != 0 {
      LowIsMod(x / 2, k - 1);
      DoubleMod(x / 2, Pow2(k - 1));
    }
  }

  /** ORing below a boundary leaves what is above the boundary alone. */
  lemma {:induction false} OrAbove(hi: nat, a: nat, b: nat, k: nat)
    requires Low(hi, k) == 0 && a < Pow2(k) && b < Pow2(k)
    ensures Or(hi + a, b) == hi + Or(a, b)
  {
    if k != 0 {
      OrAbove(hi / 2, a / 2, b / 2, k - 1);
    }
  }

  /** Masking with 2^k - 1 keeps the low k bits. */
  lemma {:induction false} AndLowMask(x: nat, k: nat)
    ensures And(x, Pow2(k) - 1) == Low(x, k)
  {
    if k != 0 {
      AndLowMask(x / 2, k - 1);
      var m := Pow2(k - 1);
      assert Pow2(k) - 1 == 2 * m - 1;
      assert (2 * m - 1) / 2 == m - 1 && (2 * m - 1) % 2 == 1;
      if x == 0 { LowZero(k - 1); }
    }
  }

  lemma LowZero(k: nat)
    ensures Low(0, k) == 0
  {
  }

  /** Masking an n-bit word with the complement of 2^k - 1 clears the low k bits. */
  lemma {:induction false} AndHighMask(x: nat, k: nat, n: nat)
    requires k <= n && x < Pow2(n)
    ensures Pow2(k) <= Pow2(n)
    ensures And(x, Pow2(n) - Pow2(k)) == x - Low(x, k)
  {
    if k == 0 {
      LowAll(x, n);
      AndLowMask(x, n);
    } else {
      AndHighMask(x / 2, k - 1, n - 1);
      var m := Pow2(n - 1) - Pow2(k - 1);
      assert Pow2(n) - Pow2(k) == 2 * m;
      assert (2 * m) / 2 == m && (2 * m) % 2 == 0;
      if x == 0 { LowZero(k); }
    }
  }

  lemma {:induction false} LowAll(x: nat, n: nat)
    requires x < Pow2(n)
    ensures Low(x, n) == x
  {
    if n != 0 { LowAll(x / 2, n - 1); }
  }

  lemma {:induction false} LowOfSum(hi: nat, lo: nat, k: nat)
    requires Low(hi, k) == 0 && lo < Pow2(k)
    ensures Low(hi + lo, k) == lo
  {
    if k != 0 {
      assert hi % 2 == 0 && Low(hi / 2, k - 1) == 0;
      assert (hi + lo) / 2 == hi / 2 + lo / 2 && (hi + lo) % 2 == lo % 2;
      LowOfSum(hi / 2, lo / 2, k - 1);
    }
  }

  /** What was put above and below a boundary comes back out with the two masks. */
  lemma SplitAt(hi: nat, lo: nat, k: nat, n: nat)
    requires Low(hi, k) == 0 && lo < Pow2(k) && k <= n && hi + lo < Pow2(n)
    ensures And(hi + lo, Pow2(k) - 1) == lo
    ensures Pow2(k) <= Pow2(n) && And(hi + lo, Pow2(n) - Pow2(k)) == hi
  {
    LowOfSum(hi, lo, k);
    AndLowMask(hi + lo, k);
    AndHighMask(hi + lo, k, n);
  }

  lemma {:induction false} OrZero(x: nat)
    ensures Or(0, x) == x
  {
    if x != 0 {
      OrZero(x / 2);
    }
  }
}
