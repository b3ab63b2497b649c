/** Searching a bitmap word by word (bitops.c). */
module BitSearch {
  import opened NatBits
  import opened Words

  /** Every element is an unsigned long. */
  ghost predicate AreWords(addr: seq<nat>) {
    forall i :: 0 <= i < |addr| ==> addr[i] < Pow2(64)
  }

  /** test_bit. */
  predicate TestBit(addr: seq<nat>, i: nat)
    requires i / 64 < |addr|
  {
    Bit(addr[i / 64], i % 64)
  }

  /** No bit equal to b in [lo, hi). */
  ghost predicate NoneIn(addr: seq<nat>, b: bool, lo: nat, hi: nat)
    requires hi <= 64 * |addr|
  {
    forall i :: lo <= i < hi ==> TestBit(addr, i) == !b
  }

  /** The naive search: the first bit equal to b in [lo, hi), or hi. */
  ghost predicate IsNext(addr: seq<nat>, b: bool, lo: nat, hi: nat, r: nat)
    requires lo <= hi <= 64 * |addr|
  {
    lo <= r <= hi && NoneIn(addr, b, lo, r) && (r < hi ==> TestBit(addr, r) == b)
  }

  /** Bits [lo, hi) of the word at p, seen as bits of the bitmap. */
  lemma {:induction false} InWord(addr: seq<nat>, p: nat, j: nat)
    requires p < |addr| && j < 64
    ensures TestBit(addr, 64 * p + j) == Bit(addr[p], j)
  {
  }

  lemma {:induction false} WordNone(addr: seq<nat>, b: bool, p: nat, lo: nat, hi: nat)
    requires p < |addr| && lo <= hi <= 64
    requires forall j :: lo <= j < hi ==> Bit(addr[p], j) == !b
    ensures NoneIn(addr, b, 64 * p + lo, 64 * p + hi)
  {
    forall i | 64 * p + lo <= i < 64 * p + hi ensures TestBit(addr, i) == !b {
      InWord(addr, p, i - 64 * p);
    }
  }

  /** The end of both forward searches: a hit at bit n of the word at p, everything before clear. */
  lemma {:induction false} Found(addr: seq<nat>, b: bool, lo: nat, hi: nat, p: nat, bit: nat, n: nat)
    requires p < |addr| && bit <= n < 64 && lo <= 64 * p + bit && 64 * p + n < hi <= 64 * |addr|
    requires NoneIn(addr, b, lo, 64 * p + bit)
    requires Bit(addr[p], n) == b && forall j :: bit <= j < n ==> Bit(addr[p], j) == !b
    ensures IsNext(addr, b, lo, hi, 64 * p + n)
  {
    WordNone(addr, b, p, bit, n);
    InWord(addr, p, n);
  }

  lemma {:induction false} NotFound(addr: seq<nat>, b: bool, lo: nat, hi: nat, p: nat, bit: nat)
    requires p < |addr| && bit <= 64 && lo <= 64 * p + bit <= hi <= 64 * p + 64 <= 64 * |addr|
    requires NoneIn(addr, b, lo, 64 * p + bit)
    requires forall j :: bit <= j < hi - 64 * p ==> Bit(addr[p], j) == !b
    ensures IsNext(addr, b, lo, hi, hi)
  {
    WordNone(addr, b, p, bit, hi - 64 * p);
  }

  // ----- find_next_bit -----

  /** The word's bits from `offset` up: tmp &= ~0UL << offset. */
  method MaskBelow(w: nat, offset: nat) returns (tmp: nat)
    requires w < Pow2(64) && offset < 64
    ensures tmp < Pow2(64)
    ensures forall j :: 0 <= j < 64 ==> Bit(tmp, j) == (offset <= j && Bit(w, j))
  {
    hide Pow2, And, Bit;
    BitHighMask(64, offset, 0);
    tmp := And(w, Pow2(64) - Pow2(offset));
    AndBound(w, Pow2(64) - Pow2(offset));
    forall j | 0 <= j < 64 ensures Bit(tmp, j) == (offset <= j && Bit(w, j)) {
      BitAnd(w, Pow2(64) - Pow2(offset), j);
      BitHighMask(64, offset, j);
    }
  }

  /** The word's bits below `size`: tmp &= ~0UL >> (64 - size). */
  method MaskAbove(w: nat, size: nat) returns (tmp: nat)
    requires w < Pow2(64) && size <= 64
    ensures tmp < Pow2(64)
    ensures forall j :: 0 <= j < 64 ==> Bit(tmp, j) == (j < size && Bit(w, j))
  {
    hide And, Bit;
    tmp := And(w, Pow2(size) - 1);
    AndBound(w, Pow2(size) - 1);
    forall j | 0 <= j < 64 ensures Bit(tmp, j) == (j < size && Bit(w, j)) {
      BitAnd(w, Pow2(size) - 1, j);
      BitLowMask(size, j);
    }
  }

  lemma {:induction false} ZeroHasNone(w: nat)
    requires w == 0
    ensures forall j :: 0 <= j ==> !Bit(w, j)
  {
    forall j | 0 <= j ensures !Bit(w, j) { BitOfZero(j); }
  }

  /** found_first: the last, partial word. */
  method InLastWord(addr: seq<nat>, lo: nat, hi: nat, p: nat, bit: nat, word: nat) returns (r: nat)
    requires AreWords(addr) && p < |addr| && word < Pow2(64)
    requires bit < 64 && lo <= 64 * p + bit < hi <= 64 * p + 64 <= 64 * |addr|
    requires NoneIn(addr, true, lo, 64 * p + bit)
    requires forall j :: 0 <= j < 64 ==> Bit(word, j) == (bit <= j && Bit(addr[p], j))
    ensures IsNext(addr, true, lo, hi, r)
  {
    var size := hi - 64 * p;
    var tmp := MaskAbove(word, size);
    if tmp == 0 {
      ZeroHasNone(tmp);
      NotFound(addr, true, lo, hi, p, bit);
      return 64 * p + size;
    }
    var n := Ffsl(tmp);
    Found(addr, true, lo, hi, p, bit, n);
    return 64 * p + n;
  }

  /** found_middle: a word known to have a bit, all of whose bits are below size. */
  method InMiddleWord(addr: seq<nat>, lo: nat, hi: nat, p: nat, bit: nat, tmp: nat) returns (r: nat)
    requires AreWords(addr) && p < |addr| && 0 < tmp < Pow2(64)
    requires bit < 64 && lo <= 64 * p + bit && 64 * p + 64 <= hi <= 64 * |addr|
    requires NoneIn(addr, true, lo, 64 * p + bit)
    requires forall j :: 0 <= j < 64 ==> Bit(tmp, j) == (bit <= j && Bit(addr[p], j))
    ensures IsNext(addr, true, lo, hi, r)
  {
    var n := Ffsl(tmp);
    Found(addr, true, lo, hi, p, bit, n);
    return 64 * p + n;
  }

  /** The loop over whole words, starting with the word at p. */
  method ScanWords(addr: seq<nat>, lo: nat, size: nat, start: nat) returns (r: nat)
    requires AreWords(addr) && lo <= 64 * start <= size <= 64 * |addr|
    requires NoneIn(addr, true, lo, 64 * start)
    ensures IsNext(addr, true, lo, size, r)
  {
    var p, left := start, size - 64 * start;
    while left >= 64
      invariant left == size - 64 * p && lo <= 64 * p <= size
      invariant NoneIn(addr, true, lo, 64 * p)
    {
      if addr[p] != 0 {
        r := InMiddleWord(addr, lo, size, p, 0, addr[p]);
        return;
      }
      ZeroHasNone(addr[p]);
      WordNone(addr, true, p, 0, 64);
      p, left := p + 1, left - 64;
    }
    if left == 0 { return 64 * p; }
    r := InLastWord(addr, lo, size, p, 0, addr[p]);
  }

  /** find_next_bit is the naive search, for every bitmap, size and offset. */
  method FindNextBit(addr: seq<nat>, size: nat, offset: nat) returns (r: nat)
    requires AreWords(addr) && size <= 64 * |addr|
    ensures if offset >= size then r == size else IsNext(addr, true, offset, size, r)
  {
    if offset >= size { return size; }
    var p, bit := offset / 64, offset % 64;
    if bit != 0 {
      var tmp := MaskBelow(addr[p], bit);
      if size - 64 * p < 64 {
        r := InLastWord(addr, offset, size, p, bit, tmp);
        return;
      }
      if tmp != 0 {
        r := InMiddleWord(addr, offset, size, p, bit, tmp);
        return;
      }
      ZeroHasNone(tmp);
      WordNone(addr, true, p, bit, 64);
      p := p + 1;
    }
    r := ScanWords(addr, offset, size, p);
  }

  // ----- find_next_zero_bit -----

  /** The word with its bits below `offset` set: tmp |= ~0UL >> (64 - offset). */
  method SetBelow(w: nat, offset: nat) returns (tmp: nat)
    requires w < Pow2(64) && offset < 64
    ensures tmp < Pow2(64)
    ensures forall j :: 0 <= j < 64 ==> Bit(tmp, j) == (j < offset || Bit(w, j))
  {
    hide Or, Bit;
    tmp := Or(w, Pow2(offset) - 1);
    Pow2Mono(offset, 64);
    OrBound(w, Pow2(offset) - 1, 64);
    forall j | 0 <= j < 64 ensures Bit(tmp, j) == (j < offset || Bit(w, j)) {
      BitOr(w, Pow2(offset) - 1, j);
      BitLowMask(offset, j);
    }
  }

  /** The word with its bits from `size` up set: tmp |= ~0UL << size. */
  method SetAbove(w: nat, size: nat) returns (tmp: nat)
    requires w < Pow2(64) && size <= 64
    ensures tmp < Pow2(64)
    ensures forall j :: 0 <= j < 64 ==> Bit(tmp, j) == (size <= j || Bit(w, j))
  {
    hide Pow2, Or, Bit;
    BitHighMask(64, size, 0);
    tmp := Or(w, Pow2(64) - Pow2(size));
    OrBound(w, Pow2(64) - Pow2(size), 64);
    forall j | 0 <= j < 64 ensures Bit(tmp, j) == (size <= j || Bit(w, j)) {
      BitOr(w, Pow2(64) - Pow2(size), j);
      BitHighMask(64, size, j);
    }
  }

  lemma {:induction false} OnesHasAll(w: nat)
    requires w == Pow2(64) - 1
    ensures forall j :: 0 <= j < 64 ==> Bit(w, j)
  {
    forall j | 0 <= j < 64 ensures Bit(w, j) { BitLowMask(64, j); }
  }

  method ZeroInLastWord(addr: seq<nat>, lo: nat, hi: nat, p: nat, bit: nat, word: nat) returns (r: nat)
    requires AreWords(addr) && p < |addr| && word < Pow2(64)
    requires bit < 64 && lo <= 64 * p + bit < hi < 64 * p + 64 <= 64 * |addr|
    requires NoneIn(addr, false, lo, 64 * p + bit)
    requires forall j :: 0 <= j < 64 ==> Bit(word, j) == (j < bit || Bit(addr[p], j))
    ensures IsNext(addr, false, lo, hi, r)
  {
    hide Pow2, Bit;
    var size := hi - 64 * p;
    var tmp := SetAbove(word, size);
    if tmp == Pow2(64) - 1 {
      OnesHasAll(tmp);
      NotFound(addr, false, lo, hi, p, bit);
      return 64 * p + size;
    }
    var n := Ffz(tmp);
    Found(addr, false, lo, hi, p, bit, n);
    return 64 * p + n;
  }

  method ZeroInMiddleWord(addr: seq<nat>, lo: nat, hi: nat, p: nat, bit: nat, tmp: nat) returns (r: nat)
    requires AreWords(addr) && p < |addr| && tmp < Pow2(64) - 1
    requires bit < 64 && lo <= 64 * p + bit && 64 * p + 64 <= hi <= 64 * |addr|
    requires NoneIn(addr, false, lo, 64 * p + bit)
    requires forall j :: 0 <= j < 64 ==> Bit(tmp, j) == (j < bit || Bit(addr[p], j))
    ensures IsNext(addr, false, lo, hi, r)
  {
    var n := Ffz(tmp);
    Found(addr, false, lo, hi, p, bit, n);
    return 64 * p + n;
  }

  method ScanZeroWords(addr: seq<nat>, lo: nat, size: nat, start: nat) returns (r: nat)
    requires AreWords(addr) && lo <= 64 * start <= size <= 64 * |addr|
    requires NoneIn(addr, false, lo, 64 * start)
    ensures IsNext(addr, false, lo, size, r)
  {
    var p, left := start, size - 64 * start;
    while left >= 64
      invariant left == size - 64 * p && lo <= 64 * p <= size
      invariant NoneIn(addr, false, lo, 64 * p)
    {
      if addr[p] != Pow2(64) - 1 {
        r := ZeroInMiddleWord(addr, lo, size, p, 0, addr[p]);
        return;
      }
      OnesHasAll(addr[p]);
      WordNone(addr, false, p, 0, 64);
      p, left := p + 1, left - 64;
    }
    if left == 0 { return 64 * p; }
    r := ZeroInLastWord(addr, lo, size, p, 0, addr[p]);
  }

  /** find_next_zero_bit is the naive search for a clear bit. */
  method FindNextZeroBit(addr: seq<nat>, size: nat, offset: nat) returns (r: nat)
    requires AreWords(addr) && size <= 64 * |addr|
    ensures if offset >= size then r == size else IsNext(addr, false, offset, size, r)
  {
    if offset >= size { return size; }
    var p, bit := offset / 64, offset % 64;
    if bit != 0 {
      var tmp := SetBelow(addr[p], bit);
      if size - 64 * p < 64 {
        r := ZeroInLastWord(addr, offset, size, p, bit, tmp);
        return;
      }
      if tmp != Pow2(64) - 1 {
        r := ZeroInMiddleWord(addr, offset, size, p, bit, tmp);
        return;
      }
      OnesHasAll(tmp);
      WordNone(addr, false, p, bit, 64);
      p := p + 1;
    }
    r := ScanZeroWords(addr, offset, size, p);
  }

  // ----- find_last_bit -----

  /** The last set bit below size, or size if there is none. */
  ghost predicate IsLastBit(addr: seq<nat>, size: nat, r: nat)
    requires size <= 64 * |addr|
  {
    r <= size && (r < size ==> TestBit(addr, r) && NoneIn(addr, true, r + 1, size))
              && (r == size ==> NoneIn(addr, true, 0, size))
  }

  lemma {:induction false} LastFoundAt(addr: seq<nat>, size: nat, p: nat, n: nat, hi: nat)
    requires p < |addr| && n < hi <= 64 && 64 * p + hi <= size <= 64 * |addr|
    requires NoneIn(addr, true, 64 * p + hi, size)
    requires Bit(addr[p], n) && forall j :: n < j < hi ==> !Bit(addr[p], j)
    ensures IsLastBit(addr, size, 64 * p + n)
  {
    InWord(addr, p, n);
    WordNone(addr, true, p, n + 1, hi);
  }

  lemma {:induction false} NoneAtAll(addr: seq<nat>, size: nat)
    requires size <= 64 * |addr| && NoneIn(addr, true, 0, size)
    ensures IsLastBit(addr, size, size)
  {
  }

  method FindLastBit(addr: seq<nat>, size: nat) returns (r: nat)
    requires AreWords(addr) && size <= 64 * |addr|
    ensures IsLastBit(addr, size, r)
  {
    hide Bit, IsLastBit;
    var words := size / 64;
    if size % 64 != 0 {
      var tmp := MaskAbove(addr[words], size % 64);
      if tmp != 0 {
        var n := Flsl(tmp);
        LastFoundAt(addr, size, words, n, size % 64);
        return 64 * words + n;
      }
      ZeroHasNone(tmp);
      WordNone(addr, true, words, 0, size % 64);
    }
    while words != 0
      invariant 0 <= words && 64 * words <= size
      invariant NoneIn(addr, true, 64 * words, size)
    {
      words := words - 1;
      if addr[words] != 0 {
        var n := Flsl(addr[words]);
        LastFoundAt(addr, size, words, n, 64);
        return 64 * words + n;
      }
      ZeroHasNone(addr[words]);
      WordNone(addr, true, words, 0, 64);
    }
    NoneAtAll(addr, size);
    return size;
  }
}
