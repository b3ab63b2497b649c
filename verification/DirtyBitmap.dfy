/** Dirty tracking of a block device: one bit for every chunk of sectors, and a count of the set
    bits (block.c). */
module DirtyBitmap {
  import opened NatBits
  import opened Words
  import opened BitSearch
  import opened Sectors

  /** C's division truncates toward zero. */
  function TruncDiv(a: int, b: nat): int
    requires b > 0
  {
    if a >= 0 then a / b else -(-a / b)
  }

  function FirstChunk(sector: nat): int { TruncDiv(sector, CHUNK) }

  function LastChunk(sector: nat, nb: nat): int { TruncDiv(sector + nb - 1, CHUNK) }

  ghost predicate Between(lo: int, c: nat, hi: int) { lo <= c < hi }

  ghost function Chunks(lo: int, hi: int): set<nat> { set c: nat | c < hi && Between(lo, c, hi) }

  /** The chunks set_dirty_bitmap's loop visits. */
  ghost function Touched(sector: nat, nb: nat): set<nat> {
    Chunks(FirstChunk(sector), LastChunk(sector, nb) + 1)
  }

  /** The chunks that hold a sector of the range. */
  ghost predicate Meets(sector: nat, nb: nat, c: nat) {
    exists x: nat :: sector <= x < sector + nb && x / CHUNK == c
  }

  /** A mark or reset touches exactly the chunks its range meets, except that an empty range still
      touches one chunk unless it starts on a chunk boundary past the first chunk. */
  lemma {:induction false} TouchedIffMeets(sector: nat, nb: nat)
    ensures (forall c: nat :: c in Touched(sector, nb) <==> Meets(sector, nb, c))
            <==> (nb > 0 || (sector > 0 && sector % CHUNK == 0))
  {
    if nb > 0 {
      forall c: nat
        ensures c in Touched(sector, nb) <==> Meets(sector, nb, c)
      {
        assert c in Touched(sector, nb) <==> Between(FirstChunk(sector), c, LastChunk(sector, nb) + 1);
        if c in Touched(sector, nb) {
          var x := if c * CHUNK >= sector then c * CHUNK else sector;
          assert sector <= x < sector + nb && x / CHUNK == c;
        }
      }
    } else if sector > 0 && sector % CHUNK == 0 {
      var lo, hi := FirstChunk(sector), LastChunk(sector, nb) + 1;
      assert forall c: nat :: !Between(lo, c, hi);
    } else {
      assert Between(FirstChunk(sector), sector / CHUNK, LastChunk(sector, nb) + 1);
      assert sector / CHUNK in Touched(sector, nb);
    }
  }

  /** An empty range in the middle of a chunk touches the chunk. */
  lemma {:induction false} EmptyRangeTouches()
    ensures 0 in Touched(1, 0) && !Meets(1, 0, 0)
  {
    assert Between(FirstChunk(1), 0, LastChunk(1, 0) + 1);
  }

  /** The chunks whose bit is set. */
  ghost function DirtySet(words: seq<nat>): set<nat> {
    set i: nat | i < 64 * |words| && TestBit(words, i)
  }

  /** val |= 1UL << bit. */
  function WithBit(val: nat, bit: nat): nat { Or(val, Pow2(bit)) }

  /** val &= ~(1UL << bit). */
  function WithoutBit(val: nat, bit: nat): nat
    requires bit < 64
  {
    BitBelowWord(bit);
    And(val, Pow2(64) - 1 - Pow2(bit))
  }

  /** The bitmap with the bit of chunk c given a value. */
  function SetBit(words: seq<nat>, c: nat, b: bool): (r: seq<nat>)
    requires c / 64 < |words|
    ensures |r| == |words|
  {
    words[c / 64 := if b then WithBit(words[c / 64], c % 64) else WithoutBit(words[c / 64], c % 64)]
  }

  lemma {:induction false} BitBelowWord(k: nat)
    requires k < 64
    ensures Pow2(k) < Pow2(64)
  {
    Pow2Mono(k, 63);
    assert Pow2(64) == 2 * Pow2(63);
  }

  lemma {:induction false} SetBitWord(w: nat, k: nat, j: nat)
    requires w < Pow2(64) && k < 64 && j < 64
    ensures WithBit(w, k) < Pow2(64) && WithoutBit(w, k) < Pow2(64)
    ensures Bit(WithBit(w, k), j) == (j == k || Bit(w, j))
    ensures Bit(WithoutBit(w, k), j) == (j != k && Bit(w, j))
  {
    hide Pow2, And, Or, Bit;
    BitBelowWord(k);
    OrBound(w, Pow2(k), 64);
    AndBound(w, Pow2(64) - 1 - Pow2(k));
    BitOr(w, Pow2(k), j);
    BitAnd(w, Pow2(64) - 1 - Pow2(k), j);
    BitNot(Pow2(k), 64, j);
    BitOfPow2(k, j);
  }

  lemma {:induction false} SetBitSets(words: seq<nat>, c: nat, b: bool)
    requires AreWords(words) && c / 64 < |words|
    ensures AreWords(SetBit(words, c, b))
    ensures DirtySet(SetBit(words, c, b)) == if b then DirtySet(words) + {c} else DirtySet(words) - {c}
  {
    var words' := SetBit(words, c, b);
    SetBitWord(words[c / 64], c % 64, 0);
    forall i: nat | i < 64 * |words|
      ensures TestBit(words', i) == if i == c then b else TestBit(words, i)
    {
      SetBitAt(words, c, b, i);
    }
  }

  lemma {:induction false} SetBitAt(words: seq<nat>, c: nat, b: bool, i: nat)
    requires AreWords(words) && c / 64 < |words| && i < 64 * |words|
    ensures TestBit(SetBit(words, c, b), i) == if i == c then b else TestBit(words, i)
  {
    SetBitWord(words[c / 64], c % 64, i % 64);
  }

  /** Chunks marked dirty, or reset. */
  ghost function Updated(s: set<nat>, chunks: set<nat>, dirty: bool): set<nat> {
    if dirty then s + chunks else s - chunks
  }

  lemma {:induction false} OneMoreChunk(s: set<nat>, lo: int, c: nat, dirty: bool)
    requires lo <= c
    ensures Updated(Updated(s, Chunks(lo, c), dirty), {c}, dirty) == Updated(s, Chunks(lo, c + 1), dirty)
  {
    forall i: nat
      ensures i in Chunks(lo, c + 1) <==> i in Chunks(lo, c) || i == c
    {
      assert Between(lo, i, c + 1) <==> Between(lo, i, c) || i == c;
    }
  }

  lemma {:induction false} NoChunks(s: set<nat>, lo: int, hi: int, dirty: bool)
    requires hi <= lo
    ensures Updated(s, Chunks(lo, hi), dirty) == s
  {
    assert forall c: nat :: !Between(lo, c, hi);
  }

  /** The bitmap has a bit for every chunk of the device. */
  lemma {:induction false} ChunkFits(sector: nat, nb: nat, total: nat, words: nat, c: nat)
    requires 0 < total && sector + nb <= total <= CHUNK * 64 * words
    requires c <= LastChunk(sector, nb)
    ensures c / 64 < words
  {
  }

  /** These words hold exactly the chunks of s, and the count is right. */
  ghost predicate Tracks(words: seq<nat>, count: int, s: set<nat>) {
    AreWords(words) && DirtySet(words) == s && count == |s|
  }

  /** A bit that already has the wanted value is left alone; otherwise the count moves by one. */
  lemma {:induction false} ChunkUpdate(words: seq<nat>, count: int, s: set<nat>, c: nat, mark: bool)
    requires Tracks(words, count, s) && c / 64 < |words|
    ensures Bit(words[c / 64], c % 64) <==> c in s
    ensures mark == (c in s) ==> Updated(s, {c}, mark) == s
    ensures mark != (c in s) ==>
              Tracks(SetBit(words, c, mark), if mark then count + 1 else count - 1, Updated(s, {c}, mark))
  {
    SetBitSets(words, c, mark);
    assert TestBit(words, c) == (c in s);
  }

  class DirtyTracking {
    const totalSectors: nat
    var bitmap: array?<nat>
    var dirtyCount: int
    /** The dirty chunks. */
    ghost var dirty: set<nat>

    ghost predicate Valid()
      reads this, bitmap
    {
      if bitmap == null then dirtyCount == 0 && dirty == {} else
        Tracks(bitmap[..], dirtyCount, dirty) && totalSectors <= CHUNK * 64 * bitmap.Length
    }

    constructor (totalSectors: nat)
      ensures Valid() && bitmap == null && this.totalSectors == totalSectors
    {
      this.totalSectors, bitmap, dirtyCount, dirty := totalSectors, null, 0, {};
    }

    /** set_dirty_bitmap: the touched chunks, and no others, become dirty or clean, and the count
        follows. The range must lie on a device that is not empty. */
    method SetDirtyBitmap(sector: nat, nb: nat, mark: bool)
      requires Valid() && bitmap != null && sector + nb <= totalSectors && 0 < totalSectors
      modifies this`dirtyCount, this`dirty, bitmap
      ensures Valid()
      ensures dirty == Updated(old(dirty), Touched(sector, nb), mark)
    {
      var start, end := FirstChunk(sector), LastChunk(sector, nb);
      if end >= 0 { ChunkFits(sector, nb, totalSectors, bitmap.Length, end); }
      UpdateChunks(start, end + 1, mark);
    }

    /** The loop over chunks [lo, hi). */
    method UpdateChunks(lo: nat, hi: int, mark: bool)
      requires Valid() && bitmap != null && hi <= 64 * bitmap.Length
      modifies this`dirtyCount, this`dirty, bitmap
      ensures Valid()
      ensures dirty == Updated(old(dirty), Chunks(lo, hi), mark)
    {
      hide Updated, Chunks, Valid, Tracks;
      NoChunks(dirty, lo, lo, mark);
      if hi <= lo {
        NoChunks(dirty, lo, hi, mark);
        return;
      }
      var start: nat := lo;
      while start < hi
        invariant lo <= start <= hi && Valid()
        invariant dirty == Updated(old(dirty), Chunks(lo, start), mark)
      {
        UpdateNext(lo, start, mark, old(dirty));
        start := start + 1;
      }
    }

    method UpdateNext(lo: nat, c: nat, mark: bool, ghost before: set<nat>)
      requires Valid() && bitmap != null && c < 64 * bitmap.Length && lo <= c
      requires dirty == Updated(before, Chunks(lo, c), mark)
      modifies this`dirtyCount, this`dirty, bitmap
      ensures Valid() && dirty == Updated(before, Chunks(lo, c + 1), mark)
    {
      UpdateChunk(c, mark);
      OneMoreChunk(before, lo, c, mark);
    }

    /** One turn of the loop: test the bit, count, update the word. */
    method UpdateChunk(c: nat, mark: bool)
      requires Valid() && bitmap != null && c / 64 < bitmap.Length
      modifies this`dirtyCount, this`dirty, bitmap
      ensures Valid()
      ensures dirty == Updated(old(dirty), {c}, mark)
    {
      var idx, bit := c / 64, c % 64;
      var val := bitmap[idx];
      ghost var words := bitmap[..];
      ChunkUpdate(words, dirtyCount, dirty, c, mark);
      MaskTests(val, bit);
      if mark {
        if And(val, Pow2(bit)) == 0 {
          dirtyCount := dirtyCount + 1;
          bitmap[idx] := WithBit(val, bit);
          assert bitmap[..] == SetBit(words, c, true);
        }
      } else {
        if And(val, Pow2(bit)) != 0 {
          dirtyCount := dirtyCount - 1;
          bitmap[idx] := WithoutBit(val, bit);
          assert bitmap[..] == SetBit(words, c, false);
        }
      }
      dirty := Updated(dirty, {c}, mark);
    }

    /** bdrv_get_dirty; past the end, or untracked, nothing is dirty. */
    method GetDirty(sector: nat) returns (r: bool)
      requires Valid()
      ensures r <==> sector < totalSectors && sector / CHUNK in dirty
    {
      if bitmap != null && sector < totalSectors {
        var chunk := sector / CHUNK;
        MaskTests(bitmap[chunk / 64], chunk % 64);
        return And(bitmap[chunk / 64], Pow2(chunk % 64)) != 0;
      }
      return false;
    }

    /** bdrv_set_dirty_tracking zeroes the count whatever it does to the bitmap: it leaves the
        count right exactly when it does not keep a bitmap that has bits set. */
    method SetDirtyTracking(enable: bool)
      requires Valid()
      modifies this
      ensures Valid() <==> (enable && old(bitmap) != null ==> old(dirty) == {})
      ensures dirtyCount == 0
      ensures if !enable then bitmap == null && dirty == {}
              else if old(bitmap) == null then bitmap != null && fresh(bitmap) && dirty == {}
              else bitmap == old(bitmap) && dirty == old(dirty)
    {
      dirtyCount := 0;
      if enable {
        if bitmap == null {
          var words := (totalSectors + CHUNK * 64 - 1) / (CHUNK * 64);
          bitmap := new nat[words](_ => 0);
          NoneDirty(bitmap[..]);
        } else {
          assert dirty == {} <==> |dirty| == 0;
        }
      } else {
        bitmap, dirty := null, {};
      }
    }
  }

  /** Tracking switched on a second time, with a chunk dirty: the chunk stays dirty and the count says none. */
  method SwitchOnTwice() returns (t: DirtyTracking)
    ensures t.bitmap != null && DirtySet(t.bitmap[..]) == {0} && t.dirtyCount == 0 && !t.Valid()
  {
    t := new DirtyTracking(1);
    t.SetDirtyTracking(true);
    t.SetDirtyBitmap(0, 1, true);
    assert t.dirty == {0} by {
      TouchedIffMeets(0, 1);
      assert Meets(0, 1, 0);
    }
    t.SetDirtyTracking(true);
  }

  lemma {:induction false} NoneDirty(words: seq<nat>)
    requires forall i :: 0 <= i < |words| ==> words[i] == 0
    ensures DirtySet(words) == {}
  {
    forall i: nat | i < 64 * |words| ensures !TestBit(words, i) { BitOfZero(i % 64); }
  }

  /** val & (1UL << bit) tests the bit. */
  lemma {:induction false} MaskTests(val: nat, bit: nat)
    ensures And(val, Pow2(bit)) != 0 <==> Bit(val, bit)
  {
    if And(val, Pow2(bit)) != 0 {
      var j := SomeBit(And(val, Pow2(bit)));
      BitAnd(val, Pow2(bit), j);
      BitOfPow2(bit, j);
    } else {
      BitAnd(val, Pow2(bit), bit);
      BitOfPow2(bit, bit);
      BitOfZero(bit);
    }
  }
}
