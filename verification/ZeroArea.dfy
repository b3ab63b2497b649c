/** Searching a bitmap for an aligned run of clear bits (bitmap_find_next_zero_area in bitmap.c), on 64-bit
    words whose sums wrap around. */
module ZeroArea {
  import opened Arith
  import opened NatBits
  import opened Words
  import opened BitSearch

  // ----- Rounding with a mask -----

  /** A sum of 64-bit words. */
  function Sum64(x: nat, y: nat): nat { (x + y) % Pow2(64) }

  /** ALIGN_MASK: the mask is added, and its bits are cleared. */
  function AlignMask(x: nat, mask: nat): nat
    requires mask < Pow2(64)
  {
    And(Sum64(x, mask), Pow2(64) - 1 - mask)
  }

  lemma {:induction false} SumIs(x: nat, y: nat)
    requires x < Pow2(64) && y < Pow2(64)
    ensures Sum64(x, y) == if x + y < Pow2(64) then x + y else x + y - Pow2(64)
  {
    hide Pow2;
    if x + y < Pow2(64) {
      SmallMod(x + y, Pow2(64));
    } else {
      DivUnique(x + y, Pow2(64), 1, x + y - Pow2(64));
    }
  }

  /** An alignment mask is one less than a power of two. */
  ghost predicate IsMask(mask: nat) { exists k: nat :: k <= 64 && mask == Pow2(k) - 1 }

  lemma {:induction false} MaskFits(mask: nat)
    requires IsMask(mask)
    ensures mask < Pow2(64)
  {
    var k: nat :| k <= 64 && mask == Pow2(k) - 1;
    Pow2Mono(k, 64);
  }

  lemma {:induction false} AlignMaskOf(x: nat, k: nat)
    requires k <= 64 && x + Pow2(k) - 1 < Pow2(64)
    ensures Pow2(k) - 1 < Pow2(64) && AlignMask(x, Pow2(k) - 1) == AlignUp(x, Pow2(k))
  {
    hide Pow2, And, Sum64, AlignUp, Low;
    var m := Pow2(k);
    SumIs(x, m - 1);
    AndHighMask(x + m - 1, k, 64);
    LowIsMod(x + m - 1, k);
    AlignUpByMod(x, m);
  }

  lemma {:induction false} AlignMaskBack(x: nat, k: nat)
    requires k <= 64 && x < Pow2(64) <= x + Pow2(k) - 1
    ensures Pow2(k) - 1 < Pow2(64) && AlignMask(x, Pow2(k) - 1) == 0
  {
    hide Pow2, And, Sum64, Low;
    Pow2Mono(k, 64);
    var y := x + (Pow2(k) - 1) - Pow2(64);
    SumIs(x, Pow2(k) - 1);
    AndHighMask(y, k, 64);
    LowIsMod(y, k);
    SmallMod(y, Pow2(k));
  }

  /** A mask rounds up to the next multiple if and only if the sum does not wrap around; if it does, the result
      is 0. */
  lemma {:induction false} AlignMaskIsAlignUp(x: nat, mask: nat)
    requires IsMask(mask) && x < Pow2(64)
    ensures mask < Pow2(64) && (AlignMask(x, mask) == AlignUp(x, mask + 1) <==> x + mask < Pow2(64))
    ensures x + mask >= Pow2(64) ==> AlignMask(x, mask) == 0
  {
    hide Pow2, AlignMask, AlignUp;
    var k: nat :| k <= 64 && mask == Pow2(k) - 1;
    AlignUpIsMultiple(x, mask);
    if x + mask < Pow2(64) {
      AlignMaskOf(x, k);
    } else {
      AlignMaskBack(x, k);
      Pow2Mono(k, 64);
    }
  }

  lemma {:induction false} AlignUpAtMost(x: nat, mask: nat, i: nat)
    requires x <= i && i % (mask + 1) == 0
    ensures AlignUp(x, mask + 1) <= i
  {
    DivMod(i, mask + 1);
    AlignUpLeast(x, mask + 1, i / (mask + 1));
  }

  lemma {:induction false} AlignUpIsMultiple(x: nat, mask: nat)
    ensures x <= AlignUp(x, mask + 1) <= x + mask && AlignUp(x, mask + 1) % (mask + 1) == 0
  {
    AlignDownBounds(x + mask, mask + 1);
    DivUnique(AlignUp(x, mask + 1), mask + 1, (x + mask) / (mask + 1), 0);
  }

  /** A multiple at or below n is at or below the greatest one. */
  lemma {:induction false} MultipleBelow(n: nat, mask: nat, i: nat)
    requires i <= n && i % (mask + 1) == 0
    ensures i <= AlignDown(n, mask + 1)
  {
    DivMod(i, mask + 1);
    AlignDownGreatest(n, mask + 1, i / (mask + 1));
  }

  // ----- One turn of the search, and the search -----

  /** The arguments of a search that stay the same. */
  datatype Query = Query(addr: seq<nat>, size: nat, nr: nat, mask: nat)

  /** What the types of the arguments, and the source's comment on the mask, ask for. */
  ghost predicate Valid(q: Query) {
    AreWords(q.addr) && q.size <= 64 * |q.addr| && q.size < Pow2(64) && q.nr < Pow2(64) && IsMask(q.mask)
  }

  /** The next bit equal to b, or size. */
  function Next(addr: seq<nat>, b: bool, size: nat, s: nat): (r: nat)
    requires size <= 64 * |addr|
    ensures if s >= size then r == size else IsNext(addr, b, s, size, r)
    decreases if s < size then size - s else 0
  {
    if s >= size then size else if TestBit(addr, s) == b then s else Next(addr, b, size, s + 1)
  }

  lemma {:induction false} NextUnique(addr: seq<nat>, b: bool, size: nat, s: nat, r: nat)
    requires size <= 64 * |addr| && if s >= size then r == size else IsNext(addr, b, s, size, r)
    ensures r == Next(addr, b, size, s)
    decreases if s < size then size - s else 0
  {
    if s < size {
      assert s < r ==> TestBit(addr, s) == !b;
      if TestBit(addr, s) != b {
        NextUnique(addr, b, size, s + 1, r);
      }
    }
  }

  /** A turn answers, or goes back with another start. */
  datatype Turn = Answer(r: nat) | Again(s: nat)

  function TurnFrom(q: Query, s: nat): Turn
    requires q.size <= 64 * |q.addr| && q.mask < Pow2(64)
  {
    var index := AlignMask(Next(q.addr, false, q.size, s), q.mask);
    var end := Sum64(index, q.nr);
    if end > q.size then Answer(end) else
      var i := Next(q.addr, true, end, index);
      if i >= end then Answer(index) else Again(i + 1)
  }

  /** After at most k turns. */
  function SearchAfter(q: Query, s: nat, k: nat): Turn
    requires q.size <= 64 * |q.addr| && q.mask < Pow2(64)
    decreases k
  {
    if k == 0 then Again(s) else
      match TurnFrom(q, s)
      case Answer(r) => Answer(r)
      case Again(s') => SearchAfter(q, s', k - 1)
  }

  // ----- What the search is for -----

  /** An aligned run of nr clear bits at i, at or after start and inside size. */
  ghost predicate FreeArea(addr: seq<nat>, size: nat, start: nat, nr: nat, mask: nat, i: nat)
    requires size <= 64 * |addr|
  {
    start <= i && i % (mask + 1) == 0 && i + nr <= size && NoneIn(addr, true, i, i + nr)
  }

  ghost predicate Free(q: Query, start: nat, i: nat)
    requires q.size <= 64 * |q.addr|
  {
    FreeArea(q.addr, q.size, start, q.nr, q.mask, i)
  }

  /** The answer is the least free area, or above size when there is none; of no bits at all, it is the next
      clear bit rounded up. */
  ghost predicate Right(q: Query, start: nat, r: nat)
    requires q.size <= 64 * |q.addr|
  {
    if q.nr == 0 then r == AlignUp(Next(q.addr, false, q.size, start), q.mask + 1)
    else (r <= q.size ==> Free(q, start, r)) && forall i: nat :: Free(q, start, i) ==> r <= i
  }

  ghost predicate EndsRight(q: Query, start: nat, k: nat)
    requires q.size <= 64 * |q.addr| && q.mask < Pow2(64)
  {
    SearchAfter(q, start, k).Answer? && Right(q, start, SearchAfter(q, start, k).r)
  }

  /** The search ends, with the right answer. */
  ghost predicate SearchRight(q: Query, start: nat)
    requires q.size <= 64 * |q.addr| && q.mask < Pow2(64)
  {
    exists k: nat :: EndsRight(q, start, k)
  }

  /** No sum that matters wraps around: rounding up the size, unless no area of that length fits anyway, and the
      end of an area at the last aligned place. */
  predicate SumsFit(size: nat, nr: nat, mask: nat) {
    (nr <= size ==> size + mask < Pow2(64)) && AlignDown(size, mask + 1) + nr < Pow2(64)
  }

  // ----- If the sums fit, the search is right -----

  /** No area at or after start begins before s. */
  ghost predicate NoneBefore(q: Query, start: nat, s: nat)
    requires q.size <= 64 * |q.addr|
  {
    start <= s && (q.nr == 0 ==> s == start) && forall i: nat :: Free(q, start, i) ==> s <= i
  }

  /** Nothing free lies between a turn's start and its candidate. */
  lemma {:induction false} NoneBeforeIndex(q: Query, start: nat, s: nat, i: nat)
    requires q.size <= 64 * |q.addr| && NoneBefore(q, start, s) && q.nr > 0 && Free(q, start, i)
    ensures AlignUp(Next(q.addr, false, q.size, s), q.mask + 1) <= i
  {
    hide AlignUp;
    var zero := Next(q.addr, false, q.size, s);
    assert !TestBit(q.addr, i);
    AlignUpAtMost(zero, q.mask, i);
  }

  /** A turn whose candidate is above size: no area is left, and the answer says so. */
  lemma {:induction false} TurnAbove(q: Query, start: nat, s: nat)
    requires Valid(q) && q.mask < Pow2(64) && NoneBefore(q, start, s) && q.nr > 0
    requires var index := AlignMask(Next(q.addr, false, q.size, s), q.mask);
             index == AlignUp(Next(q.addr, false, q.size, s), q.mask + 1) > q.size
    ensures TurnFrom(q, s).Answer? && TurnFrom(q, s).r > q.size && Right(q, start, TurnFrom(q, s).r)
  {
    hide Pow2, AlignMask, AlignUp, Sum64, IsMask;
    forall i: nat
      ensures !Free(q, start, i)
    {
      if Free(q, start, i) {
        NoneBeforeIndex(q, start, s, i);
      }
    }
  }

  /** A turn whose candidate is within size and whose end does not wrap. */
  lemma {:induction false} TurnWithin(q: Query, start: nat, s: nat, index: nat)
    requires Valid(q) && q.mask < Pow2(64) && NoneBefore(q, start, s) && q.nr > 0
    requires index == AlignMask(Next(q.addr, false, q.size, s), q.mask)
    requires index == AlignUp(Next(q.addr, false, q.size, s), q.mask + 1) <= q.size && index + q.nr < Pow2(64)
    ensures match TurnFrom(q, s)
            case Answer(r) => Right(q, start, r)
            case Again(s') => s < s' <= q.size && NoneBefore(q, start, s')
  {
    hide Pow2, AlignMask, AlignUp, Sum64, IsMask;
    AlignUpIsMultiple(Next(q.addr, false, q.size, s), q.mask);
    SumIs(index, q.nr);
    forall i: nat | Free(q, start, i)
      ensures index <= i
    {
      NoneBeforeIndex(q, start, s, i);
    }
    var end := index + q.nr;
    if end <= q.size {
      var i := Next(q.addr, true, end, index);
      if i < end {
        forall f: nat | Free(q, start, f)
          ensures i + 1 <= f
        {
          assert TestBit(q.addr, i);
        }
      }
    }
  }

  /** With a count above size no area fits, and the turn says so. */
  lemma {:induction false} TurnTooMany(q: Query, start: nat, s: nat)
    requires Valid(q) && q.mask < Pow2(64) && q.nr > q.size
    requires AlignMask(Next(q.addr, false, q.size, s), q.mask) == 0
    ensures TurnFrom(q, s) == Answer(q.nr) && Right(q, start, q.nr)
  {
    hide Pow2, AlignMask, IsMask;
    SumIs(0, q.nr);
  }

  lemma {:induction false} TurnOfNone(q: Query, start: nat)
    requires Valid(q) && q.mask < Pow2(64) && q.nr == 0 && q.size + q.mask < Pow2(64)
    ensures TurnFrom(q, start).Answer? && Right(q, start, TurnFrom(q, start).r)
  {
    hide Pow2, AlignMask, AlignUp, Sum64, IsMask;
    var zero := Next(q.addr, false, q.size, start);
    AlignMaskIsAlignUp(zero, q.mask);
    AlignUpIsMultiple(zero, q.mask);
    SumIs(AlignUp(zero, q.mask + 1), 0);
  }

  lemma {:induction false} TurnGood(q: Query, start: nat, s: nat)
    requires Valid(q) && SumsFit(q.size, q.nr, q.mask) && NoneBefore(q, start, s)
    ensures q.mask < Pow2(64)
    ensures match TurnFrom(q, s)
            case Answer(r) => Right(q, start, r)
            case Again(s') => s < s' <= q.size && NoneBefore(q, start, s')
  {
    hide Pow2, AlignMask, AlignUp, AlignDown, Sum64, IsMask, TurnFrom, Right, NoneBefore;
    MaskFits(q.mask);
    var zero := Next(q.addr, false, q.size, s);
    var up := AlignUp(zero, q.mask + 1);
    AlignMaskIsAlignUp(zero, q.mask);
    AlignUpIsMultiple(zero, q.mask);
    if q.nr == 0 {
      SameStart(q, start, s);
      TurnOfNone(q, start);
    } else if zero + q.mask >= Pow2(64) {
      TurnTooMany(q, start, s);
    } else if up > q.size {
      TurnAbove(q, start, s);
    } else {
      MultipleBelow(q.size, q.mask, up);
      TurnWithin(q, start, s, up);
    }
  }

  lemma {:induction false} SameStart(q: Query, start: nat, s: nat)
    requires q.size <= 64 * |q.addr| && NoneBefore(q, start, s) && q.nr == 0
    ensures s == start
  {
  }

  /** The search from any start ends with the right answer. */
  lemma {:induction false} SearchEnds(q: Query, start: nat, s: nat) returns (k: nat)
    requires Valid(q) && SumsFit(q.size, q.nr, q.mask) && NoneBefore(q, start, s)
    ensures q.mask < Pow2(64) && SearchAfter(q, s, k).Answer? && Right(q, start, SearchAfter(q, s, k).r)
    decreases if s <= q.size then q.size + 1 - s else 0
  {
    hide TurnFrom, Right, NoneBefore, SumsFit, AreWords, IsMask;
    TurnGood(q, start, s);
    match TurnFrom(q, s)
    case Answer(r) => k := 1;
    case Again(s') =>
      k := SearchEnds(q, start, s');
      k := k + 1;
  }

  // ----- If they do not, some search is not -----

  /** A bitmap whose words are all the same. */
  function Bits(w: nat, size: nat): seq<nat> { seq(size / 64 + 1, _ => w) }

  lemma {:induction false} BitsAre(b: bool, size: nat)
    ensures var addr := Bits(if b then Pow2(64) - 1 else 0, size);
            AreWords(addr) && size <= 64 * |addr| && NoneIn(addr, !b, 0, size)
  {
    hide Pow2;
    var w := if b then Pow2(64) - 1 else 0;
    var addr := Bits(w, size);
    forall i | 0 <= i < size
      ensures TestBit(addr, i) == b
    {
      if b {
        OnesHasAll(w);
      } else {
        BitOfZero(i % 64);
      }
    }
  }

  /** A turn that gives a wrong answer, at once. */
  lemma {:induction false} WrongAtOnce(q: Query, start: nat, r: nat)
    requires q.size <= 64 * |q.addr| && q.mask < Pow2(64) && TurnFrom(q, start) == Answer(r) && !Right(q, start, r)
    ensures !SearchRight(q, start)
  {
    hide Right, TurnFrom;
    forall k: nat
      ensures !EndsRight(q, start, k)
    {
      assert k == 0 || SearchAfter(q, start, k) == Answer(r);
    }
  }

  /** On a full bitmap whose rounded size wraps around, every turn goes back to bit 1. */
  lemma {:induction false} FullTurn(q: Query, s: nat)
    requires Valid(q) && NoneIn(q.addr, false, 0, q.size) && 1 <= q.nr <= q.size && q.size + q.mask >= Pow2(64)
    ensures q.mask < Pow2(64) && TurnFrom(q, s) == Again(1)
  {
    hide Pow2, AlignMask, AlignUp, Sum64, IsMask;
    NextUnique(q.addr, false, q.size, s, q.size);
    AlignMaskIsAlignUp(q.size, q.mask);
    SumIs(0, q.nr);
    assert TestBit(q.addr, 0);
    NextUnique(q.addr, true, q.nr, 0, 0);
  }

  lemma {:induction false} FullNeverEnds(q: Query, s: nat, k: nat)
    requires Valid(q) && NoneIn(q.addr, false, 0, q.size) && 1 <= q.nr <= q.size && q.size + q.mask >= Pow2(64)
    ensures q.mask < Pow2(64) && SearchAfter(q, s, k).Again?
    decreases k
  {
    hide TurnFrom, AreWords, IsMask;
    FullTurn(q, s);
    if k > 0 {
      FullNeverEnds(q, 1, k - 1);
    }
  }

  /** Of no bits at all, from the end of a bitmap whose rounded size wraps around: the answer is 0. */
  lemma {:induction false} NoneWraps(q: Query)
    requires Valid(q) && q.nr == 0 && q.size + q.mask >= Pow2(64)
    ensures q.mask < Pow2(64) && !SearchRight(q, q.size)
  {
    hide Pow2, AlignMask, AlignUp, Sum64, IsMask;
    MaskFits(q.mask);
    AlignMaskIsAlignUp(q.size, q.mask);
    AlignUpIsMultiple(q.size, q.mask);
    SumIs(0, 0);
    WrongAtOnce(q, q.size, 0);
  }

  /** On an empty bitmap, from the last aligned place, where the end of the area wraps around: that place is the
      answer, and the area does not fit. */
  lemma {:induction false} EndWraps(q: Query)
    requires Valid(q) && NoneIn(q.addr, true, 0, q.size) && q.nr > 0 && AlignDown(q.size, q.mask + 1) + q.nr >= Pow2(64)
    ensures q.mask < Pow2(64) && !SearchRight(q, AlignDown(q.size, q.mask + 1))
  {
    hide Pow2, AlignMask, AlignUp, AlignDown, Sum64, IsMask;
    var a := AlignDown(q.size, q.mask + 1);
    LastPlace(q.size, q.mask);
    NextUnique(q.addr, false, q.size, a, a);
    AlignMaskIsAlignUp(a, q.mask);
    SumIs(a, q.nr);
    WrongAtOnce(q, a, a);
  }

  /** The last aligned place is its own rounding, and rounding it does not wrap around. */
  lemma {:induction false} LastPlace(size: nat, mask: nat)
    requires IsMask(mask) && size < Pow2(64)
    ensures var a := AlignDown(size, mask + 1);
            a <= size && a + mask < Pow2(64) && AlignUp(a, mask + 1) == a
  {
    hide Pow2;
    var k: nat :| k <= 64 && mask == Pow2(k) - 1;
    var m, p := Pow2(k), Pow2(64 - k);
    Pow2Add(64 - k, k);
    assert 64 - k + k == 64;
    AlignDownBounds(size, m);
    var j := size / m;
    assert AlignDown(size, m) == j * m && Pow2(64) == p * m;
    if j >= p {
      MulMono(p, j, m);
    }
    MulLess(j, p, m);
    AlignUpLeast(j * m, m, j);
  }

  /** For every bitmap and every start the search ends with the right answer. */
  ghost predicate AlwaysRight(size: nat, nr: nat, mask: nat)
    requires mask < Pow2(64)
  {
    forall addr, start: nat :: AreWords(addr) && size <= 64 * |addr| && start < Pow2(64) ==>
      SearchRight(Query(addr, size, nr, mask), start)
  }

  /** The search is right on every bitmap and from every start if and only if the sums fit. */
  lemma {:induction false} SearchExact(size: nat, nr: nat, mask: nat)
    requires size < Pow2(64) && nr < Pow2(64) && IsMask(mask)
    ensures mask < Pow2(64) && (AlwaysRight(size, nr, mask) <==> SumsFit(size, nr, mask))
  {
    hide Pow2, AreWords, IsMask, SearchAfter, Right, AlignDown;
    MaskFits(mask);
    if SumsFit(size, nr, mask) {
      forall addr, start: nat | AreWords(addr) && size <= 64 * |addr| && start < Pow2(64)
        ensures SearchRight(Query(addr, size, nr, mask), start)
      {
        var k := SearchEnds(Query(addr, size, nr, mask), start, start);
        assert EndsRight(Query(addr, size, nr, mask), start, k);
      }
    } else {
      SomeWrong(size, nr, mask);
    }
  }

  lemma {:induction false} SomeWrong(size: nat, nr: nat, mask: nat)
    requires size < Pow2(64) && nr < Pow2(64) && IsMask(mask) && mask < Pow2(64) && !SumsFit(size, nr, mask)
    ensures !AlwaysRight(size, nr, mask)
  {
    hide Pow2, IsMask, SearchAfter, Right, AlignDown, AreWords;
    BitsAre(true, size);
    BitsAre(false, size);
    var ones, zeros := Bits(Pow2(64) - 1, size), Bits(0, size);
    if nr == 0 {
      LastBelow(size, mask);
      NoneWraps(Query(zeros, size, nr, mask));
    } else if nr <= size && size + mask >= Pow2(64) {
      var q := Query(ones, size, nr, mask);
      forall k: nat
        ensures !EndsRight(q, 0, k)
      {
        FullNeverEnds(q, 0, k);
      }
      assert !SearchRight(q, 0);
    } else {
      LastBelow(size, mask);
      EndWraps(Query(zeros, size, nr, mask));
    }
  }

  lemma {:induction false} LastBelow(size: nat, mask: nat)
    ensures AlignDown(size, mask + 1) <= size
  {
    AlignDownBounds(size, mask + 1);
  }

  // ----- Two calls that go wrong -----

  /** One clear word, to be aligned to the whole address space, from bit 5: the answer is 0, before the start. */
  lemma {:induction false} SearchAnswersBeforeStart()
    ensures var q := Query([0], 64, 1, Pow2(64) - 1);
            Valid(q) && SearchAfter(q, 5, 1) == Answer(0) && !Right(q, 5, 0)
  {
    hide Pow2, AlignMask, AlignUp, Sum64, TurnFrom, Bits;
    var q := Query([0], 64, 1, Pow2(64) - 1);
    OneWord(false);
    FirstWraps(q, 5);
    assert SearchAfter(q, 5, 1) == Answer(0);
  }

  /** One full word, aligned so: the search never ends. */
  lemma {:induction false} SearchNeverEnds(k: nat)
    ensures var q := Query([Pow2(64) - 1], 64, 1, Pow2(64) - 1);
            Valid(q) && SearchAfter(q, 0, k).Again?
  {
    hide Pow2, SearchAfter, Bits, AreWords;
    var q := Query([Pow2(64) - 1], 64, 1, Pow2(64) - 1);
    OneWord(true);
    FullNeverEnds(q, 0, k);
  }

  lemma {:induction false} OneWord(b: bool)
    ensures 64 < Pow2(64) && IsMask(Pow2(64) - 1)
    ensures var addr := [if b then Pow2(64) - 1 else 0]; AreWords(addr) && NoneIn(addr, !b, 0, 64)
  {
    Pow2Mono(7, 64);
    assert Pow2(7) == 128;
    hide Pow2;
    var w := if b then Pow2(64) - 1 else 0;
    var bits := Bits(w, 64);
    BitsAre(b, 64);
    forall i | 0 <= i < 64
      ensures TestBit([w], i) == b
    {
      assert TestBit(bits, i) == b;
    }
  }

  lemma {:induction false} FirstWraps(q: Query, s: nat)
    requires Valid(q) && NoneIn(q.addr, true, 0, q.size) && 0 < s < q.size && q.nr == 1 && s + q.mask >= Pow2(64)
    ensures q.mask < Pow2(64) && TurnFrom(q, s) == Answer(0)
  {
    hide Pow2, AlignMask, AlignUp, Sum64, IsMask;
    NextUnique(q.addr, false, q.size, s, s);
    AlignMaskIsAlignUp(s, q.mask);
    SumIs(0, 1);
    NextUnique(q.addr, true, 1, 0, 1);
  }

  // ----- The method -----

  /** One turn of the loop. */
  method TakeTurn(addr: seq<nat>, size: nat, s: nat, nr: nat, mask: nat) returns (t: Turn)
    requires AreWords(addr) && size <= 64 * |addr| && mask < Pow2(64)
    ensures t == TurnFrom(Query(addr, size, nr, mask), s)
  {
    hide Pow2, And, IsNext;
    var zero := FindNextZeroBit(addr, size, s);
    NextUnique(addr, false, size, s, zero);
    var index := AlignMask(zero, mask);
    var end := Sum64(index, nr);
    if end > size {
      return Answer(end);
    }
    var i := FindNextBit(addr, end, index);
    NextUnique(addr, true, end, index, i);
    t := if i >= end then Answer(index) else Again(i + 1);
  }

  /** bitmap_find_next_zero_area, on a search that ends; where the sums fit, every search ends with the right
      answer. */
  method FindNextZeroArea(addr: seq<nat>, size: nat, start: nat, nr: nat, mask: nat, ghost turns: nat) returns (r: nat)
    requires Valid(Query(addr, size, nr, mask)) && start < Pow2(64) && mask < Pow2(64)
    requires SearchAfter(Query(addr, size, nr, mask), start, turns).Answer?
    ensures SearchAfter(Query(addr, size, nr, mask), start, turns) == Answer(r)
    ensures SumsFit(size, nr, mask) ==> Right(Query(addr, size, nr, mask), start, r)
  {
    hide Pow2, TurnFrom, IsMask, SumsFit, Right;
    ghost var q, left := Query(addr, size, nr, mask), turns;
    var t := Again(start);
    while t.Again?
      invariant t.Again? ==> SearchAfter(q, t.s, left) == SearchAfter(q, start, turns)
      invariant t.Answer? ==> SearchAfter(q, start, turns) == t
      decreases t.Again?, left
    {
      t := TakeTurn(addr, size, t.s, nr, mask);
      left := left - 1;
    }
    r := t.r;
    if SumsFit(size, nr, mask) {
      ghost var k := SearchEnds(q, start, start);
      SameAnswer(q, start, turns, k);
    }
  }

  lemma {:induction false} SameAnswer(q: Query, s: nat, j: nat, k: nat)
    requires q.size <= 64 * |q.addr| && q.mask < Pow2(64)
    requires SearchAfter(q, s, j).Answer? && SearchAfter(q, s, k).Answer?
    ensures SearchAfter(q, s, j) == SearchAfter(q, s, k)
    decreases j
  {
    hide TurnFrom;
    if TurnFrom(q, s).Again? {
      SameAnswer(q, TurnFrom(q, s).s, j - 1, k - 1);
    }
  }
}
