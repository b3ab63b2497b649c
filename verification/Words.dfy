/** Bits of an unsigned long (bitops.h). A word is a number below 2^64; &, | and ~ are the bitwise
    operators of NatBits, << and >> are multiplication and division by a power of two. */
module Words {
  import opened Arith
  import opened NatBits

  /** Bit j of a number, counting from the least significant. */
  predicate Bit(w: nat, j: nat) {
    if j == 0 then w % 2 == 1 else Bit(w / 2, j - 1)
  }

  /** An n-bit number has no bit n or above. */
  lemma {:induction false} BitBelow(w: nat, n: nat, j: nat)
    requires w < Pow2(n) && Bit(w, j)
    ensures j < n
  {
    if n == 0 {
      BitOfZero(j);
    } else if j != 0 {
      BitBelow(w / 2, n - 1, j - 1);
    }
  }

  lemma {:induction false} BitOfZero(j: nat)
    ensures !Bit(0, j)
  {
    if j != 0 { BitOfZero(j - 1); }
  }

  /** A number that is not zero has a bit. */
  lemma {:induction false} SomeBit(w: nat) returns (j: nat)
    requires w != 0
    ensures Bit(w, j)
  {
    if w % 2 == 1 {
      j := 0;
    } else {
      j := SomeBit(w / 2);
      j := j + 1;
    }
  }

  lemma {:induction false} BitAnd(a: nat, b: nat, j: nat)
    ensures Bit(And(a, b), j) == (Bit(a, j) && Bit(b, j))
  {
    if a == 0 || b == 0 {
      BitOfZero(j);
    } else if j != 0 {
      BitAnd(a / 2, b / 2, j - 1);
    }
  }

  lemma {:induction false} BitOr(a: nat, b: nat, j: nat)
    ensures Bit(Or(a, b), j) == (Bit(a, j) || Bit(b, j))
  {
    if a == 0 || b == 0 {
      BitOfZero(j);
    } else if j != 0 {
      BitOr(a / 2, b / 2, j - 1);
    }
  }

  lemma {:induction false} OrBound(a: nat, b: nat, n: nat)
    requires a < Pow2(n) && b < Pow2(n)
    ensures Or(a, b) < Pow2(n)
  {
    if n != 0 { OrBound(a / 2, b / 2, n - 1); }
  }

  lemma {:induction false} AndBound(a: nat, b: nat)
    ensures And(a, b) <= a && And(a, b) <= b
  {
    if a != 0 && b != 0 { AndBound(a / 2, b / 2); }
  }

  /** ~w, for an n-bit word. */
  lemma {:induction false} BitNot(w: nat, n: nat, j: nat)
    requires w < Pow2(n) && j < n
    ensures Bit(Pow2(n) - 1 - w, j) == !Bit(w, j)
  {
    if j != 0 {
      assert (Pow2(n) - 1 - w) / 2 == Pow2(n - 1) - 1 - w / 2;
      BitNot(w / 2, n - 1, j - 1);
    }
  }

  /** ~0 << k, for an n-bit word: the bits from k up. */
  lemma {:induction false} BitHighMask(n: nat, k: nat, j: nat)
    requires k <= n
    ensures Pow2(k) <= Pow2(n)
    ensures Bit(Pow2(n) - Pow2(k), j) == (k <= j < n)
  {
    if k == 0 {
      BitLowMask(n, j);
    } else {
      BitHighMask(n - 1, k - 1, if j == 0 then 0 else j - 1);
      assert (Pow2(n) - Pow2(k)) / 2 == Pow2(n - 1) - Pow2(k - 1);
    }
  }

  /** ~0 >> (64 - k), and (1 << k) - 1: the bits below k. */
  lemma {:induction false} BitLowMask(k: nat, j: nat)
    ensures Bit(Pow2(k) - 1, j) == (j < k)
  {
    if k == 0 {
      BitOfZero(j);
    } else if j != 0 {
      assert (Pow2(k) - 1) / 2 == Pow2(k - 1) - 1;
      BitLowMask(k - 1, j - 1);
    }
  }

  /** 1 << k: bit k alone. */
  lemma {:induction false} BitOfPow2(k: nat, j: nat)
    ensures Bit(Pow2(k), j) == (j == k)
  {
    if k == 0 {
      if j != 0 { BitOfZero(j - 1); }
    } else if j != 0 {
      BitOfPow2(k - 1, j - 1);
    }
  }

  /** w << k has no bit below k, and bit k is w's lowest. */
  lemma {:induction false} BitShl(w: nat, k: nat, j: nat)
    requires j <= k
    ensures Bit(w * Pow2(k), j) == (j == k && w % 2 == 1)
  {
    if k != 0 {
      assert w * Pow2(k) == 2 * (w * Pow2(k - 1));
      if j != 0 { BitShl(w, k - 1, j - 1); }
    }
  }

  lemma {:induction false} DivDiv(w: nat, m: nat)
    requires m > 0
    ensures w / 2 / m == w / (2 * m)
  {
    var q, r := w / 2 / m, w / 2 % m;
    assert w / 2 == q * m + r;
    assert w == q * (2 * m) + (2 * r + w % 2);
    DivUnique(w, 2 * m, q, 2 * r + w % 2);
  }

  /** w >> k. */
  function Shr(w: nat, k: nat): (r: nat)
    ensures r == w / Pow2(k)
  {
    if k == 0 then w else
      DivDiv(w, Pow2(k - 1));
      Shr(w / 2, k - 1)
  }

  lemma {:induction false} BitShr(w: nat, k: nat, j: nat)
    ensures Bit(Shr(w, k), j) == Bit(w, j + k)
  {
    if k != 0 {
      BitShr(w / 2, k - 1, j);
    }
  }

  // ----- bitops_ffsl, bitops_flsl, ffz -----

  /** The number of the lowest set bit. */
  ghost predicate IsFirst(w: nat, n: nat) {
    Bit(w, n) && forall j :: 0 <= j < n ==> !Bit(w, j)
  }

  /** The number of the highest set bit. */
  ghost predicate IsLast(w: nat, n: nat) {
    Bit(w, n) && forall j :: j > n ==> !Bit(w, j)
  }

  /** Skipping k zero bits at the bottom: what `word >>= k` keeps of the search. */
  lemma {:induction false} SkipLow(w: nat, word: nat, num: nat, k: nat)
    requires w == word * Pow2(num) && And(word, Pow2(k) - 1) == 0
    ensures w == Shr(word, k) * Pow2(num + k)
    ensures word != 0 ==> Shr(word, k) != 0
  {
    hide Pow2, Shr;
    AndLowMask(word, k);
    LowIsMod(word, k);
    DivMul(word, Pow2(k), Shr(word, k));
    Pow2Add(num, k);
    MulAssoc(Shr(word, k), Pow2(k), Pow2(num));
  }

  lemma {:induction false} DivMul(w: nat, m: nat, q: nat)
    requires m > 0 && w % m == 0 && q == w / m
    ensures w == q * m && (w != 0 ==> q != 0)
  {
  }

  lemma {:induction false} LowBits()
    ensures Pow2(1) == 0x2 && Pow2(2) == 0x4 && Pow2(4) == 0x10 && Pow2(8) == 0x100
    ensures Pow2(16) == 0x1_0000 && Pow2(32) == 0x1_0000_0000 && Pow2(64) == 0x1_0000_0000_0000_0000
  {
    assert Pow2(8) == 0x100;
    Pow2Add(8, 8);
    Pow2Add(16, 16);
    Pow2Add(32, 32);
  }

  /** One halving step of the search: a bit known to be among the low 2k, the j-th, is then known
      to be among the low k. */
  method HalveDown(w: nat, word: nat, num: nat, k: nat, mask: nat, ghost j: nat)
    returns (word': nat, num': nat, ghost j': nat)
    requires mask == Pow2(k) - 1 && w == word * Pow2(num) && word != 0
    requires j < 2 * k && Bit(word, j)
    ensures w == word' * Pow2(num') && word' != 0
    ensures j' < k && Bit(word', j')
  {
    word', num' := word, num;
    if And(word, mask) == 0 {
      SkipLow(w, word, num, k);
      if j < k { LowBitShows(word, k, j); }
      num' := num + k;
      word' := Shr(word, k);
      j' := j - k;
      BitShr(word, k, j');
    } else {
      j' := HasLowBit(word, k);
    }
  }

  lemma {:induction false} HasLowBit(word: nat, k: nat) returns (j: nat)
    requires And(word, Pow2(k) - 1) != 0
    ensures j < k && Bit(word, j)
  {
    j := SomeBit(And(word, Pow2(k) - 1));
    BitAnd(word, Pow2(k) - 1, j);
    BitLowMask(k, j);
  }

  lemma {:induction false} LowBitShows(word: nat, k: nat, j: nat)
    requires j < k && Bit(word, j)
    ensures And(word, Pow2(k) - 1) != 0
  {
    BitAnd(word, Pow2(k) - 1, j);
    BitLowMask(k, j);
    BitOfZero(j);
  }

  /** bitops_ffsl: the binary search finds the lowest set bit. */
  method Ffsl(w: nat) returns (num: nat)
    requires 0 < w < Pow2(64)
    ensures num < 64 && IsFirst(w, num)
  {
    LowBits();
    var word := w;
    num := 0;
    ghost var j := SomeBit(w);
    BitBelow(w, 64, j);
    word, num, j := HalveDown(w, word, num, 32, 0xffff_ffff, j);
    word, num, j := HalveDown(w, word, num, 16, 0xffff, j);
    word, num, j := HalveDown(w, word, num, 8, 0xff, j);
    word, num, j := HalveDown(w, word, num, 4, 0xf, j);
    word, num, j := HalveDown(w, word, num, 2, 0x3, j);
    word, num, j := HalveDown(w, word, num, 1, 0x1, j);
    FirstFound(w, word, num);
  }

  lemma {:induction false} FirstFound(w: nat, word: nat, num: nat)
    requires w == word * Pow2(num) && word % 2 == 1 && w < Pow2(64)
    ensures num < 64 && IsFirst(w, num)
  {
    forall j | 0 <= j <= num ensures Bit(w, j) == (j == num) { BitShl(word, num, j); }
    BitBelow(w, 64, num);
  }

  /** ffz. */
  method Ffz(w: nat) returns (num: nat)
    requires w < Pow2(64) - 1
    ensures num < 64 && !Bit(w, num) && forall j :: 0 <= j < num ==> Bit(w, j)
  {
    num := Ffsl(Pow2(64) - 1 - w);
    forall j | 0 <= j <= num ensures Bit(w, j) == !Bit(Pow2(64) - 1 - w, j) { BitNot(w, 64, j); }
  }

  /** word & (~0 << (n - k)) is zero exactly when word is below 2^(n - k). */
  lemma {:induction false} BitsAbove(word: nat, k: nat, n: nat)
    requires word < Pow2(n) && k <= n
    ensures Pow2(n - k) <= Pow2(n)
    ensures And(word, Pow2(n) - Pow2(n - k)) == 0 <==> word < Pow2(n - k)
  {
    AndHighMask(word, n - k, n);
    if word < Pow2(n - k) {
      LowAll(word, n - k);
    } else {
      LowBelow(word, n - k);
    }
  }

  lemma {:induction false} LowBelow(x: nat, k: nat)
    ensures Low(x, k) < Pow2(k)
  {
    if k != 0 { LowBelow(x / 2, k - 1); }
  }

  lemma {:induction false} TopClear(word: nat, k: nat, n: nat)
    requires k <= n && 0 < word < Pow2(n - k)
    ensures 0 < word * Pow2(k) < Pow2(n)
  {
    Pow2Add(n - k, k);
    MulAtLeast(word, Pow2(k));
    MulLess(word, Pow2(n - k), Pow2(k));
  }

  /** Skipping k zero bits at the top: `word <<= k` keeps the search, w << (63 - num) == word. */
  method HalveUp(w: nat, word: nat, num: nat, k: nat) returns (word': nat, num': nat)
    requires 0 < word < Pow2(64) && num < 64 && word == w * Pow2(63 - num)
    requires 0 < k <= 32 && word >= Pow2(64 - 2 * k)
    ensures 0 < word' < Pow2(64) && num' < 64 && word' == w * Pow2(63 - num')
    ensures word' >= Pow2(64 - k)
  {
    hide Pow2, And;
    word', num' := word, num;
    BitsAbove(word, k, 64);
    if And(word, Pow2(64) - Pow2(64 - k)) == 0 {
      TopClear(word, k, 64);
      ShiftUp(w, word, num, k);
      num' := num - k;
      word' := word * Pow2(k);
    }
  }

  lemma {:induction false} ShiftUp(w: nat, word: nat, num: nat, k: nat)
    requires num < 64 && 0 < k <= 32 && word == w * Pow2(63 - num)
    requires Pow2(64 - 2 * k) <= word < Pow2(64 - k)
    ensures k <= num && word * Pow2(k) == w * Pow2(63 - (num - k)) && word * Pow2(k) >= Pow2(64 - k)
  {
    Pow2Add(64 - 2 * k, k);
    MulMono(Pow2(64 - 2 * k), word, Pow2(k));
    ShiftRoom(w, 63 - num, 64 - k);
    ShiftMore(w, word, 63 - num, k);
  }

  lemma {:induction false} ShiftMore(w: nat, word: nat, s: nat, k: nat)
    requires word == w * Pow2(s)
    ensures word * Pow2(k) == w * Pow2(s + k)
  {
    Pow2Add(s, k);
    MulAssoc(w, Pow2(s), Pow2(k));
  }

  lemma {:induction false} ShiftRoom(w: nat, s: nat, n: nat)
    requires 0 < w * Pow2(s) < Pow2(n)
    ensures s < n
  {
    MulMono(1, w, Pow2(s));
    if s >= n { Pow2Mono(n, s); }
  }

  lemma {:induction false} Pow2Mono(a: nat, b: nat)
    requires a <= b
    ensures Pow2(a) <= Pow2(b)
  {
    if a < b { Pow2Mono(a, b - 1); }
  }

  /** bitops_flsl: the binary search finds the highest set bit. */
  method Flsl(w: nat) returns (num: nat)
    requires 0 < w < Pow2(64)
    ensures num < 64 && IsLast(w, num)
  {
    var word := w;
    num := 63;
    assert Pow2(0) == 1 && w * Pow2(0) == w;
    word, num := HalveUp(w, word, num, 32);
    word, num := HalveUp(w, word, num, 16);
    word, num := HalveUp(w, word, num, 8);
    word, num := HalveUp(w, word, num, 4);
    word, num := HalveUp(w, word, num, 2);
    word, num := HalveUp(w, word, num, 1);
    LastFound(w, word, num);
  }

  /** A word with its top bit set came from a number whose highest bit is `num`. */
  lemma {:induction false} LastFound(w: nat, word: nat, num: nat)
    requires num < 64 && word == w * Pow2(63 - num) && Pow2(63) <= word < Pow2(64)
    ensures IsLast(w, num)
  {
    Pow2Add(num, 63 - num);
    Pow2Add(num + 1, 63 - num);
    if w < Pow2(num) { MulLess(w, Pow2(num), Pow2(63 - num)); }
    if w >= Pow2(num + 1) { MulMono(Pow2(num + 1), w, Pow2(63 - num)); }
    TopBit(w, num);
    forall j | j > num ensures !Bit(w, j) {
      if Bit(w, j) { BitBelow(w, num + 1, j); }
    }
  }

  lemma {:induction false} TopBit(w: nat, n: nat)
    requires Pow2(n) <= w < Pow2(n + 1)
    ensures Bit(w, n)
  {
    if n != 0 { TopBit(w / 2, n - 1); }
  }
}
