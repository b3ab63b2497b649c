/** Setting, clearing and allocating ranges of a bitmap (bitmap.c). */
module Bitmap {
  import opened NatBits
  import opened Words
  import opened BitSearch
  import opened ZeroArea

  /** The same bitmap with bits [lo, hi) set to b. */
  ghost predicate RangeSetTo(before: seq<nat>, after: seq<nat>, lo: int, hi: int, b: bool) {
    && |after| == |before|
    && AreWords(after)
    && forall i: nat :: i < 64 * |before| ==>
         TestBit(after, i) == if lo <= i < hi then b else TestBit(before, i)
  }

  /** One word of the loop: the bits of `mask` are set to b. */
  function UpdateWord(w: nat, mask: nat, b: bool): nat
    requires mask < Pow2(64)
  {
    if b then Or(w, mask) else And(w, Pow2(64) - 1 - mask)
  }

  lemma {:induction false} UpdateWordBits(w: nat, mask: nat, b: bool, j: nat)
    requires w < Pow2(64) && mask < Pow2(64) && j < 64
    ensures UpdateWord(w, mask, b) < Pow2(64)
    ensures Bit(UpdateWord(w, mask, b), j) == if Bit(mask, j) then b else Bit(w, j)
  {
    hide And, Or, Bit, Pow2;
    if b {
      OrBound(w, mask, 64);
      BitOr(w, mask, j);
    } else {
      AndBound(w, Pow2(64) - 1 - mask);
      BitAnd(w, Pow2(64) - 1 - mask, j);
      BitNot(mask, 64, j);
    }
  }

  /** A mask of bits [lo, hi) of the word at p extends the range done so far. */
  lemma {:induction false} ExtendRange(before: seq<nat>, now: seq<nat>, start: nat, p: nat, lo: nat, hi: nat,
                                       mask: nat, b: bool)
    requires AreWords(before) && AreWords(now) && |now| == |before| && p < |now| && mask < Pow2(64)
    requires lo <= hi <= 64 && start <= 64 * p + lo
    requires lo == 0 || start == 64 * p + lo
    requires RangeSetTo(before, now, start, 64 * p + lo, b)
    requires forall j :: 0 <= j < 64 ==> Bit(mask, j) == (lo <= j < hi)
    ensures RangeSetTo(before, now[p := UpdateWord(now[p], mask, b)], start, 64 * p + hi, b)
  {
    var after := now[p := UpdateWord(now[p], mask, b)];
    UpdateWordBits(now[p], mask, b, 0);
    forall i: nat | i < 64 * |before|
      ensures TestBit(after, i) == if start <= i < 64 * p + hi then b else TestBit(before, i)
    {
      assert TestBit(now, i) == if start <= i < 64 * p + lo then b else TestBit(before, i);
      if i / 64 == p {
        UpdateWordBits(now[p], mask, b, i % 64);
      }
    }
  }

  /** BITMAP_FIRST_WORD_MASK. */
  function FirstWordMask(start: nat): nat {
    Pow2Mono(start % 64, 64);
    Pow2(64) - Pow2(start % 64)
  }

  /** BITMAP_LAST_WORD_MASK. */
  function LastWordMask(nbits: nat): nat {
    if nbits % 64 != 0 then Pow2(nbits % 64) - 1 else Pow2(64) - 1
  }

  lemma {:induction false} FirstMaskBits(start: nat)
    ensures FirstWordMask(start) < Pow2(64)
    ensures forall j :: 0 <= j < 64 ==> Bit(FirstWordMask(start), j) == (start % 64 <= j)
  {
    BitHighMask(64, start % 64, 0);
    forall j | 0 <= j < 64 ensures Bit(FirstWordMask(start), j) == (start % 64 <= j) {
      BitHighMask(64, start % 64, j);
    }
  }

  lemma {:induction false} LastMaskBits(mask: nat, size: nat, lo: nat)
    requires mask < Pow2(64) && size % 64 != 0
    requires forall j :: 0 <= j < 64 ==> Bit(mask, j) == (lo <= j)
    ensures And(mask, LastWordMask(size)) < Pow2(64)
    ensures forall j :: 0 <= j < 64 ==> Bit(And(mask, LastWordMask(size)), j) == (lo <= j < size % 64)
  {
    hide And, Bit;
    AndBound(mask, LastWordMask(size));
    forall j | 0 <= j < 64 ensures Bit(And(mask, LastWordMask(size)), j) == (lo <= j < size % 64) {
      BitAnd(mask, LastWordMask(size), j);
      BitLowMask(size % 64, j);
    }
  }

  /** bitmap_set (b) and bitmap_clear (!b): exactly the given range changes. The two loops of the
      source differ only in the word operation. */
  method UpdateRange(a: array<nat>, start: nat, nr: nat, b: bool)
    requires AreWords(a[..]) && start + nr <= 64 * a.Length
    modifies a
    ensures RangeSetTo(old(a[..]), a[..], start, start + nr, b)
  {
    var p, left, size := start / 64, nr, start + nr;
    ghost var before: seq<nat>, lo: nat := a[..], start % 64;
    var bits: nat := 64 - start % 64;
    FirstMaskBits(start);
    var mask: nat := FirstWordMask(start);
    while left - bits >= 0
      invariant 0 <= left && size == 64 * p + lo + left && lo + bits == 64
      invariant lo < 64 && (lo == 0 || start == 64 * p + lo) && start <= 64 * p + lo
      invariant mask < Pow2(64) && forall j :: 0 <= j < 64 ==> Bit(mask, j) == (lo <= j)
      invariant AreWords(a[..]) && RangeSetTo(before, a[..], start, 64 * p + lo, b)
      decreases left
    {
      ExtendRange(before, a[..], start, p, lo, 64, mask, b);
      a[p] := UpdateWord(a[p], mask, b);
      left := left - bits;
      bits := 64;
      mask := Pow2(64) - 1;
      OnesHasAll(mask);
      lo, p := 0, p + 1;
    }
    if left != 0 {
      LastPart(size, p, lo, left);
      LastMaskBits(mask, size, lo);
      mask := And(mask, LastWordMask(size));
      ExtendRange(before, a[..], start, p, lo, lo + left, mask, b);
      a[p] := UpdateWord(a[p], mask, b);
    }
  }

  method BitmapSet(a: array<nat>, start: nat, nr: nat)
    requires AreWords(a[..]) && start + nr <= 64 * a.Length
    modifies a
    ensures RangeSetTo(old(a[..]), a[..], start, start + nr, true)
  {
    UpdateRange(a, start, nr, true);
  }

  method BitmapClear(a: array<nat>, start: nat, nr: nat)
    requires AreWords(a[..]) && start + nr <= 64 * a.Length
    modifies a
    ensures RangeSetTo(old(a[..]), a[..], start, start + nr, false)
  {
    UpdateRange(a, start, nr, false);
  }

  lemma {:induction false} LastPart(size: nat, p: nat, lo: nat, left: nat)
    requires size == 64 * p + lo + left && lo + left < 64
    ensures size % 64 == lo + left
  {
  }

  // ----- An allocator: find an area, set it; clear it to give it back -----

  datatype Area = Area(start: nat, nr: nat)

  ghost predicate InArea(a: Area, i: nat) { a.start <= i < a.start + a.nr }

  /** The set bits are exactly those of the areas handed out, which do not overlap. */
  ghost predicate Owned(addr: seq<nat>, areas: seq<Area>) {
    && AreWords(addr)
    && (forall k :: 0 <= k < |areas| ==> areas[k].start + areas[k].nr <= 64 * |addr|)
    && (forall k, m, i :: 0 <= k < m < |areas| ==> !(InArea(areas[k], i) && InArea(areas[m], i)))
    && (forall i: nat :: i < 64 * |addr| ==>
          (TestBit(addr, i) <==> exists k :: 0 <= k < |areas| && InArea(areas[k], i)))
  }

  /** An area found free and then set overlaps nothing handed out before. */
  lemma {:induction false} AllocateKeeps(addr: seq<nat>, areas: seq<Area>, size: nat, start: nat, mask: nat,
                                         a: Area, addr': seq<nat>)
    requires Owned(addr, areas) && size <= 64 * |addr|
    requires FreeArea(addr, size, start, a.nr, mask, a.start)
    requires RangeSetTo(addr, addr', a.start, a.start + a.nr, true)
    ensures forall k, i :: 0 <= k < |areas| ==> !(InArea(areas[k], i) && InArea(a, i))
    ensures Owned(addr', areas + [a])
  {
    var areas' := areas + [a];
    forall k, i | 0 <= k < |areas|
      ensures !(InArea(areas[k], i) && InArea(a, i))
    {
      if InArea(areas[k], i) { assert TestBit(addr, i); }
    }
    forall i: nat | i < 64 * |addr'|
      ensures TestBit(addr', i) <==> exists k :: 0 <= k < |areas'| && InArea(areas'[k], i)
    {
      assert TestBit(addr', i) == (InArea(a, i) || TestBit(addr, i));
      assert InArea(a, i) == InArea(areas'[|areas|], i);
      if TestBit(addr, i) {
        var k :| 0 <= k < |areas| && InArea(areas[k], i);
        assert InArea(areas'[k], i);
      }
    }
  }

  /** Clearing one area gives back exactly that area. */
  lemma {:induction false} FreeKeeps(addr: seq<nat>, areas: seq<Area>, n: nat, addr': seq<nat>)
    requires Owned(addr, areas) && n < |areas|
    requires RangeSetTo(addr, addr', areas[n].start, areas[n].start + areas[n].nr, false)
    ensures Owned(addr', areas[..n] + areas[n + 1..])
  {
    var areas' := areas[..n] + areas[n + 1..];
    assert forall k :: 0 <= k < |areas'| ==> areas'[k] == areas[if k < n then k else k + 1];
    forall i: nat | i < 64 * |addr'|
      ensures TestBit(addr', i) <==> exists k :: 0 <= k < |areas'| && InArea(areas'[k], i)
    {
      assert TestBit(addr', i) == (!InArea(areas[n], i) && TestBit(addr, i));
      if TestBit(addr', i) {
        var k :| 0 <= k < |areas| && InArea(areas[k], i);
        assert InArea(areas'[if k < n then k else k - 1], i);
      }
      if exists k :: 0 <= k < |areas'| && InArea(areas'[k], i) {
        var k :| 0 <= k < |areas'| && InArea(areas'[k], i);
        assert InArea(areas[if k < n then k else k + 1], i);
      }
    }
  }
}
