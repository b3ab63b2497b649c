/** Bytes and columns of the AES state, and arithmetic in GF(2^8) (FIPS 197 sections 4 and 5).

Addition in the field is the exclusive or. It is always written Xor, so that sums are rearranged by
the few lemmas below and never bit by bit.
*/
module AesField {

  type U8 = bv8

  function Xor(a: U8, b: U8): U8 { a ^ b }

  /** Multiplication by {02}. */
  function Mul02(x: U8): U8 { Xor(x << 1, Reduction(x)) }

  /** The reduction by x^8 + x^4 + x^3 + x + 1 when a bit is shifted out. */
  function Reduction(x: U8): U8 { if x & 0x80 == 0x80 then 0x1b else 0x00 }

  function Mul04(x: U8): U8 { Mul02(Mul02(x)) }
  function Mul08(x: U8): U8 { Mul02(Mul04(x)) }

  function Mul03(x: U8): U8 { Xor(Mul02(x), x) }
  function Mul09(x: U8): U8 { Xor(Mul08(x), x) }
  function Mul0b(x: U8): U8 { Xor(Xor(Mul08(x), Mul02(x)), x) }
  function Mul0d(x: U8): U8 { Xor(Xor(Mul08(x), Mul04(x)), x) }
  function Mul0e(x: U8): U8 { Xor(Xor(Mul08(x), Mul04(x)), Mul02(x)) }

  function Sum4(a: U8, b: U8, c: U8, d: U8): U8 { Xor(Xor(Xor(a, b), c), d) }

  datatype Column = Column(b0: U8, b1: U8, b2: U8, b3: U8)

  function XorC(a: Column, b: Column): Column {
    Column(Xor(a.b0, b.b0), Xor(a.b1, b.b1), Xor(a.b2, b.b2), Xor(a.b3, b.b3))
  }

  /** FIPS 197 section 5.1.3. */
  function MixColumn(a: Column): Column {
    Column(Sum4(Mul02(a.b0), Mul03(a.b1), a.b2, a.b3),
           Sum4(a.b0, Mul02(a.b1), Mul03(a.b2), a.b3),
           Sum4(a.b0, a.b1, Mul02(a.b2), Mul03(a.b3)),
           Sum4(Mul03(a.b0), a.b1, a.b2, Mul02(a.b3)))
  }

  /** FIPS 197 section 5.3.3. */
  function InvMixColumn(a: Column): Column {
    Column(Sum4(Mul0e(a.b0), Mul0b(a.b1), Mul0d(a.b2), Mul09(a.b3)),
           Sum4(Mul09(a.b0), Mul0e(a.b1), Mul0b(a.b2), Mul0d(a.b3)),
           Sum4(Mul0d(a.b0), Mul09(a.b1), Mul0e(a.b2), Mul0b(a.b3)),
           Sum4(Mul0b(a.b0), Mul0d(a.b1), Mul09(a.b2), Mul0e(a.b3)))
  }

  // ----- Rearranging sums -----

  lemma {:induction false} XorComm(a: U8, b: U8)
    ensures Xor(a, b) == Xor(b, a)
  {
  }

  lemma {:induction false} XorAssoc(a: U8, b: U8, c: U8)
    ensures Xor(Xor(a, b), c) == Xor(a, Xor(b, c))
  {
  }

  lemma {:induction false} XorSelf(a: U8)
    ensures Xor(a, a) == 0 && Xor(a, 0) == a && Xor(0, a) == a
  {
  }

  lemma {:induction false} Interchange(a: U8, b: U8, c: U8, d: U8)
    ensures Xor(Xor(a, b), Xor(c, d)) == Xor(Xor(a, c), Xor(b, d))
  {
    XorAssoc(a, b, Xor(c, d));
    XorAssoc(b, c, d);
    XorComm(b, c);
    XorAssoc(c, b, d);
    XorAssoc(a, c, Xor(b, d));
  }

  lemma {:induction false} Swap3(a: U8, b: U8, c: U8)
    ensures Xor(Xor(a, b), c) == Xor(Xor(a, c), b)
  {
    XorAssoc(a, b, c);
    XorComm(b, c);
    XorAssoc(a, c, b);
  }

  lemma {:induction false} XorCancels(x: U8, k: U8)
    ensures Xor(Xor(x, k), k) == x && Xor(Xor(k, x), k) == x && Xor(k, Xor(k, x)) == x
  {
    XorAssoc(x, k, k);
    XorSelf(k);
    XorSelf(x);
    XorComm(k, x);
    XorAssoc(k, k, x);
  }

  /** A summand that occurs twice disappears. */
  lemma {:induction false} Drop(a: U8, b: U8, c: U8)
    ensures Xor(Xor(c, a), Xor(c, b)) == Xor(a, b) && Xor(Xor(a, c), Xor(b, c)) == Xor(a, b)
    ensures Xor(Xor(a, c), Xor(c, b)) == Xor(a, b)
  {
    Interchange(c, a, c, b);
    Interchange(a, c, b, c);
    XorSelf(c);
    XorSelf(Xor(a, b));
    XorComm(c, b);
  }

  lemma {:induction false} Sum4Add(a0: U8, a1: U8, a2: U8, a3: U8, b0: U8, b1: U8, b2: U8, b3: U8)
    ensures Sum4(Xor(a0, b0), Xor(a1, b1), Xor(a2, b2), Xor(a3, b3))
         == Xor(Sum4(a0, a1, a2, a3), Sum4(b0, b1, b2, b3))
  {
    Interchange(a0, b0, a1, b1);
    Interchange(Xor(a0, a1), Xor(b0, b1), a2, b2);
    Interchange(Xor(Xor(a0, a1), a2), Xor(Xor(b0, b1), b2), a3, b3);
  }

  /** The sum of the rows is the sum of the columns. */
  lemma {:induction false} Transpose(r0: Column, r1: Column, r2: Column, r3: Column)
    ensures Sum4(Sum4(r0.b0, r0.b1, r0.b2, r0.b3), Sum4(r1.b0, r1.b1, r1.b2, r1.b3),
                 Sum4(r2.b0, r2.b1, r2.b2, r2.b3), Sum4(r3.b0, r3.b1, r3.b2, r3.b3))
         == Sum4(Sum4(r0.b0, r1.b0, r2.b0, r3.b0), Sum4(r0.b1, r1.b1, r2.b1, r3.b1),
                 Sum4(r0.b2, r1.b2, r2.b2, r3.b2), Sum4(r0.b3, r1.b3, r2.b3, r3.b3))
  {
    var s0, s1, s2, s3 := Xor(r0.b0, r0.b1), Xor(r1.b0, r1.b1), Xor(r2.b0, r2.b1), Xor(r3.b0, r3.b1);
    Sum4Add(r0.b0, r1.b0, r2.b0, r3.b0, r0.b1, r1.b1, r2.b1, r3.b1);
    Sum4Add(s0, s1, s2, s3, r0.b2, r1.b2, r2.b2, r3.b2);
    Sum4Add(Xor(s0, r0.b2), Xor(s1, r1.b2), Xor(s2, r2.b2), Xor(s3, r3.b2), r0.b3, r1.b3, r2.b3, r3.b3);
  }

  // ----- Multiplication is additive -----

  lemma {:induction false} Mul02Add(x: U8, y: U8)
    ensures Mul02(Xor(x, y)) == Xor(Mul02(x), Mul02(y))
  {
    ShiftAdd(x, y);
    ReductionAdd(x, y);
    Interchange(x << 1, y << 1, Reduction(x), Reduction(y));
  }

  lemma {:induction false} ShiftAdd(x: U8, y: U8)
    ensures Xor(x, y) << 1 == Xor(x << 1, y << 1)
  {
  }

  lemma {:induction false} ReductionAdd(x: U8, y: U8)
    ensures Reduction(Xor(x, y)) == Xor(Reduction(x), Reduction(y))
  {
  }

  lemma {:induction false} Mul04Add(x: U8, y: U8)
    ensures Mul04(Xor(x, y)) == Xor(Mul04(x), Mul04(y))
  {
    Mul02Add(x, y);
    Mul02Add(Mul02(x), Mul02(y));
  }

  lemma {:induction false} Mul08Add(x: U8, y: U8)
    ensures Mul08(Xor(x, y)) == Xor(Mul08(x), Mul08(y))
  {
    Mul04Add(x, y);
    Mul02Add(Mul04(x), Mul04(y));
  }

  lemma {:induction false} MulAdd(x: U8, y: U8)
    ensures Mul09(Xor(x, y)) == Xor(Mul09(x), Mul09(y)) && Mul0b(Xor(x, y)) == Xor(Mul0b(x), Mul0b(y))
    ensures Mul0d(Xor(x, y)) == Xor(Mul0d(x), Mul0d(y)) && Mul0e(Xor(x, y)) == Xor(Mul0e(x), Mul0e(y))
  {
    Mul02Add(x, y);
    Mul04Add(x, y);
    Mul08Add(x, y);
    Interchange(Mul08(x), Mul08(y), x, y);
    Interchange(Mul08(x), Mul08(y), Mul02(x), Mul02(y));
    Interchange(Mul08(x), Mul08(y), Mul04(x), Mul04(y));
    Interchange(Xor(Mul08(x), Mul02(x)), Xor(Mul08(y), Mul02(y)), x, y);
    Interchange(Xor(Mul08(x), Mul04(x)), Xor(Mul08(y), Mul04(y)), x, y);
    Interchange(Xor(Mul08(x), Mul04(x)), Xor(Mul08(y), Mul04(y)), Mul02(x), Mul02(y));
  }

  lemma {:induction false} Mul09Sum4(a: U8, b: U8, c: U8, d: U8)
    ensures Mul09(Sum4(a, b, c, d)) == Sum4(Mul09(a), Mul09(b), Mul09(c), Mul09(d))
  {
    MulAdd(a, b);
    MulAdd(Xor(a, b), c);
    MulAdd(Xor(Xor(a, b), c), d);
  }

  lemma {:induction false} Mul0bSum4(a: U8, b: U8, c: U8, d: U8)
    ensures Mul0b(Sum4(a, b, c, d)) == Sum4(Mul0b(a), Mul0b(b), Mul0b(c), Mul0b(d))
  {
    MulAdd(a, b);
    MulAdd(Xor(a, b), c);
    MulAdd(Xor(Xor(a, b), c), d);
  }

  lemma {:induction false} Mul0dSum4(a: U8, b: U8, c: U8, d: U8)
    ensures Mul0d(Sum4(a, b, c, d)) == Sum4(Mul0d(a), Mul0d(b), Mul0d(c), Mul0d(d))
  {
    MulAdd(a, b);
    MulAdd(Xor(a, b), c);
    MulAdd(Xor(Xor(a, b), c), d);
  }

  lemma {:induction false} Mul0eSum4(a: U8, b: U8, c: U8, d: U8)
    ensures Mul0e(Sum4(a, b, c, d)) == Sum4(Mul0e(a), Mul0e(b), Mul0e(c), Mul0e(d))
  {
    MulAdd(a, b);
    MulAdd(Xor(a, b), c);
    MulAdd(Xor(Xor(a, b), c), d);
  }

  lemma {:induction false} InvMixAdd(a: Column, b: Column)
    ensures InvMixColumn(XorC(a, b)) == XorC(InvMixColumn(a), InvMixColumn(b))
  {
    MulAdd(a.b0, b.b0);
    MulAdd(a.b1, b.b1);
    MulAdd(a.b2, b.b2);
    MulAdd(a.b3, b.b3);
    Sum4Add(Mul0e(a.b0), Mul0b(a.b1), Mul0d(a.b2), Mul09(a.b3), Mul0e(b.b0), Mul0b(b.b1), Mul0d(b.b2), Mul09(b.b3));
    Sum4Add(Mul09(a.b0), Mul0e(a.b1), Mul0b(a.b2), Mul0d(a.b3), Mul09(b.b0), Mul0e(b.b1), Mul0b(b.b2), Mul0d(b.b3));
    Sum4Add(Mul0d(a.b0), Mul09(a.b1), Mul0e(a.b2), Mul0b(a.b3), Mul0d(b.b0), Mul09(b.b1), Mul0e(b.b2), Mul0b(b.b3));
    Sum4Add(Mul0b(a.b0), Mul0d(a.b1), Mul09(a.b2), Mul0e(a.b3), Mul0b(b.b0), Mul0d(b.b1), Mul09(b.b2), Mul0e(b.b3));
  }

  // ----- InvMixColumn undoes MixColumn -----

  /** The multiples of a multiple, as sums of x times powers of {02}. */
  lemma {:induction false} Multiples(x: U8)
    ensures var x2, x4, x8 := Mul02(x), Mul04(x), Mul08(x);
            var x16 := Mul02(x8);
            && Mul0e(x2) == Xor(Xor(x16, x8), x4) && Mul0b(x2) == Xor(Xor(x16, x4), x2)
            && Mul0d(x2) == Xor(Xor(x16, x8), x2) && Mul09(x2) == Xor(x16, x2)
  {
  }

  lemma {:induction false} TripleMultiples(x: U8)
    ensures Mul0e(Mul03(x)) == Xor(Mul0e(Mul02(x)), Mul0e(x)) && Mul0b(Mul03(x)) == Xor(Mul0b(Mul02(x)), Mul0b(x))
    ensures Mul0d(Mul03(x)) == Xor(Mul0d(Mul02(x)), Mul0d(x)) && Mul09(Mul03(x)) == Xor(Mul09(Mul02(x)), Mul09(x))
  {
    MulAdd(Mul02(x), x);
  }

  /** Sums of the multiples of x that the cancellations below share, in terms of x times {02}, {04},
      {08} and {10}. */
  lemma {:induction false} Partial(x: U8, x2: U8, x4: U8, x8: U8, x16: U8)
    ensures Xor(Xor(Xor(x8, x4), x), Xor(x8, x)) == x4
    ensures Xor(Xor(Xor(x8, x4), x2), Xor(Xor(x8, x2), x)) == Xor(x4, x)
    ensures Xor(Xor(Xor(x8, x2), x), Xor(x8, x)) == x2
    ensures Xor(Xor(Xor(x16, x8), x2), Xor(x16, x2)) == x8
  {
    Drop(Xor(x8, x4), x8, x);
    XorCancels(x4, x8);
    Swap3(x8, x4, x2);
    XorComm(Xor(x8, x2), x4);
    Drop(x4, x, Xor(x8, x2));
    Drop(Xor(x8, x2), x8, x);
    XorCancels(x2, x8);
    Drop(Xor(x16, x8), x16, x2);
    XorCancels(x8, x16);
  }

  /** {0e}{02} + {0b} + {0d} + {09}{03} = {01}. */
  lemma {:induction false} Cancel0(x: U8, x2: U8, x4: U8, x8: U8, x16: U8)
    ensures Sum4(Xor(Xor(x16, x8), x4), Xor(Xor(x8, x2), x), Xor(Xor(x8, x4), x), Xor(Xor(x16, x2), Xor(x8, x))) == x
  {
    var e2, b, d, n2, n := Xor(Xor(x16, x8), x4), Xor(Xor(x8, x2), x), Xor(Xor(x8, x4), x), Xor(x16, x2), Xor(x8, x);
    var e := Xor(Xor(x8, x4), x2);
    Partial(x, x2, x4, x8, x16);
    Interchange(Xor(e2, b), d, n2, n);
    Swap3(e2, b, n2);
    XorAssoc(x16, x8, x4);
    Drop(Xor(x8, x4), x2, x16);
    assert Xor(Xor(e2, b), n2) == Xor(e, b);
    XorCancels(x, x4);
  }

  /** {0e}{03} + {0b}{02} + {0d} + {09} = 0. */
  lemma {:induction false} Cancel1(x: U8, x2: U8, x4: U8, x8: U8, x16: U8)
    ensures Sum4(Xor(Xor(Xor(x16, x8), x4), Xor(Xor(x8, x4), x2)), Xor(Xor(x16, x4), x2), Xor(Xor(x8, x4), x),
                 Xor(x8, x)) == 0
  {
    var e2, e, b2, d, n := Xor(Xor(x16, x8), x4), Xor(Xor(x8, x4), x2), Xor(Xor(x16, x4), x2), Xor(Xor(x8, x4), x), Xor(x8, x);
    Partial(x, x2, x4, x8, x16);
    XorAssoc(Xor(Xor(e2, e), b2), d, n);
    Swap3(e2, e, b2);
    Swap3(x16, x8, x4);
    Drop(x8, x2, Xor(x16, x4));
    Swap3(x8, x4, x2);
    XorCancels(x4, Xor(x8, x2));
    XorSelf(x4);
  }

  /** {0e} + {0b}{03} + {0d}{02} + {09} = 0. */
  lemma {:induction false} Cancel2(x: U8, x2: U8, x4: U8, x8: U8, x16: U8)
    ensures Sum4(Xor(Xor(x8, x4), x2), Xor(Xor(Xor(x16, x4), x2), Xor(Xor(x8, x2), x)), Xor(Xor(x16, x8), x2),
                 Xor(x8, x)) == 0
  {
    var e, b2, b, d2, n := Xor(Xor(x8, x4), x2), Xor(Xor(x16, x4), x2), Xor(Xor(x8, x2), x), Xor(Xor(x16, x8), x2), Xor(x8, x);
    Partial(x, x2, x4, x8, x16);
    XorAssoc(e, b2, b);
    Swap3(Xor(e, b2), b, d2);
    XorAssoc(e, b2, d2);
    Drop(Xor(x16, x4), Xor(x16, x8), x2);
    Drop(x4, x8, x16);
    XorComm(x4, x8);
    XorCancels(x2, Xor(x8, x4));
    assert Xor(Xor(Xor(e, b2), b), d2) == Xor(x2, b);
    XorAssoc(x2, b, n);
    XorSelf(x2);
  }

  /** {0e} + {0b} + {0d}{03} + {09}{02} = 0. */
  lemma {:induction false} Cancel3(x: U8, x2: U8, x4: U8, x8: U8, x16: U8)
    ensures Sum4(Xor(Xor(x8, x4), x2), Xor(Xor(x8, x2), x), Xor(Xor(Xor(x16, x8), x2), Xor(Xor(x8, x4), x)),
                 Xor(x16, x2)) == 0
  {
    var e, b, d2, d, n2 := Xor(Xor(x8, x4), x2), Xor(Xor(x8, x2), x), Xor(Xor(x16, x8), x2), Xor(Xor(x8, x4), x), Xor(x16, x2);
    Partial(x, x2, x4, x8, x16);
    XorComm(d2, d);
    XorAssoc(Xor(e, b), d, d2);
    XorAssoc(Xor(Xor(e, b), d), d2, n2);
    Drop(x4, Xor(x8, x4), x);
    XorComm(x8, x4);
    XorCancels(x8, x4);
    XorSelf(x8);
  }

  /** What one byte contributes to its own place, and to the places one, two and three below it, when
      MixColumn is followed by InvMixColumn. */
  lemma {:induction false} Coefficients(x: U8)
    ensures Sum4(Mul0e(Mul02(x)), Mul0b(x), Mul0d(x), Mul09(Mul03(x))) == x
    ensures Sum4(Mul0e(Mul03(x)), Mul0b(Mul02(x)), Mul0d(x), Mul09(x)) == 0
    ensures Sum4(Mul0e(x), Mul0b(Mul03(x)), Mul0d(Mul02(x)), Mul09(x)) == 0
    ensures Sum4(Mul0e(x), Mul0b(x), Mul0d(Mul03(x)), Mul09(Mul02(x))) == 0
  {
    Multiples(x);
    TripleMultiples(x);
    Cancel0(x, Mul02(x), Mul04(x), Mul08(x), Mul02(Mul08(x)));
    Cancel1(x, Mul02(x), Mul04(x), Mul08(x), Mul02(Mul08(x)));
    Cancel2(x, Mul02(x), Mul04(x), Mul08(x), Mul02(Mul08(x)));
    Cancel3(x, Mul02(x), Mul04(x), Mul08(x), Mul02(Mul08(x)));
  }

  /** The first byte; the others are the same with the column rotated. */
  lemma {:induction false} FirstByteBack(a: Column)
    ensures InvMixColumn(MixColumn(a)).b0 == a.b0
  {
    Mul0eSum4(Mul02(a.b0), Mul03(a.b1), a.b2, a.b3);
    Mul0bSum4(a.b0, Mul02(a.b1), Mul03(a.b2), a.b3);
    Mul0dSum4(a.b0, a.b1, Mul02(a.b2), Mul03(a.b3));
    Mul09Sum4(Mul03(a.b0), a.b1, a.b2, Mul02(a.b3));
    Transpose(Column(Mul0e(Mul02(a.b0)), Mul0e(Mul03(a.b1)), Mul0e(a.b2), Mul0e(a.b3)),
              Column(Mul0b(a.b0), Mul0b(Mul02(a.b1)), Mul0b(Mul03(a.b2)), Mul0b(a.b3)),
              Column(Mul0d(a.b0), Mul0d(a.b1), Mul0d(Mul02(a.b2)), Mul0d(Mul03(a.b3))),
              Column(Mul09(Mul03(a.b0)), Mul09(a.b1), Mul09(a.b2), Mul09(Mul02(a.b3))));
    Coefficients(a.b0);
    Coefficients(a.b1);
    Coefficients(a.b2);
    Coefficients(a.b3);
    XorSelf(a.b0);
  }

  function Rotate(a: Column): Column { Column(a.b1, a.b2, a.b3, a.b0) }

  lemma {:induction false} Sum4Rotate(a: U8, b: U8, c: U8, d: U8)
    ensures Sum4(a, b, c, d) == Sum4(b, c, d, a)
  {
    XorComm(a, b);
    Swap3(b, a, c);
    Swap3(Xor(b, c), a, d);
  }

  lemma {:induction false} MixRotate(a: Column)
    ensures MixColumn(Rotate(a)) == Rotate(MixColumn(a))
  {
    Sum4Rotate(a.b0, Mul02(a.b1), Mul03(a.b2), a.b3);
    Sum4Rotate(a.b0, a.b1, Mul02(a.b2), Mul03(a.b3));
    Sum4Rotate(Mul03(a.b0), a.b1, a.b2, Mul02(a.b3));
    Sum4Rotate(Mul02(a.b0), Mul03(a.b1), a.b2, a.b3);
  }

  lemma {:induction false} InvMixRotate(a: Column)
    ensures InvMixColumn(Rotate(a)) == Rotate(InvMixColumn(a))
  {
    Sum4Rotate(Mul09(a.b0), Mul0e(a.b1), Mul0b(a.b2), Mul0d(a.b3));
    Sum4Rotate(Mul0d(a.b0), Mul09(a.b1), Mul0e(a.b2), Mul0b(a.b3));
    Sum4Rotate(Mul0b(a.b0), Mul0d(a.b1), Mul09(a.b2), Mul0e(a.b3));
    Sum4Rotate(Mul0e(a.b0), Mul0b(a.b1), Mul0d(a.b2), Mul09(a.b3));
  }

  lemma {:induction false} InvMixUndoesMix(a: Column)
    ensures InvMixColumn(MixColumn(a)) == a
  {
    var r1 := Rotate(a);
    var r2 := Rotate(r1);
    var r3 := Rotate(r2);
    FirstByteBack(a);
    FirstByteBack(r1);
    FirstByteBack(r2);
    FirstByteBack(r3);
    MixRotate(a);
    MixRotate(r1);
    MixRotate(r2);
    InvMixRotate(MixColumn(a));
    InvMixRotate(MixColumn(r1));
    InvMixRotate(MixColumn(r2));
  }
}
