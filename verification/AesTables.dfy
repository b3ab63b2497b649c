/** The lookup tables of AES by their documented formulas, and the table-driven rounds against the
    rounds of FIPS 197. */
module AesTables {
  import opened AesField
  import opened AesWord
  import opened AesCipher
  import opened RoundCipher

  function Times(y: U8, m0: U8 -> U8, m1: U8 -> U8, m2: U8 -> U8, m3: U8 -> U8): Column {
    Column(m0(y), m1(y), m2(y), m3(y))
  }

  function Mul01(x: U8): U8 { x }

  function Te0(box: Box, x: U8): U32 { GetU32(Times(box.s(x), Mul02, Mul01, Mul01, Mul03)) }
  function Te1(box: Box, x: U8): U32 { GetU32(Times(box.s(x), Mul03, Mul02, Mul01, Mul01)) }
  function Te2(box: Box, x: U8): U32 { GetU32(Times(box.s(x), Mul01, Mul03, Mul02, Mul01)) }
  function Te3(box: Box, x: U8): U32 { GetU32(Times(box.s(x), Mul01, Mul01, Mul03, Mul02)) }
  function Te4(box: Box, x: U8): U32 { GetU32(Times(box.s(x), Mul01, Mul01, Mul01, Mul01)) }

  function Td0(box: Box, x: U8): U32 { GetU32(Times(box.si(x), Mul0e, Mul09, Mul0d, Mul0b)) }
  function Td1(box: Box, x: U8): U32 { GetU32(Times(box.si(x), Mul0b, Mul0e, Mul09, Mul0d)) }
  function Td2(box: Box, x: U8): U32 { GetU32(Times(box.si(x), Mul0d, Mul0b, Mul0e, Mul09)) }
  function Td3(box: Box, x: U8): U32 { GetU32(Times(box.si(x), Mul09, Mul0d, Mul0b, Mul0e)) }
  function Td4(box: Box, x: U8): U32 { GetU32(Times(box.si(x), Mul01, Mul01, Mul01, Mul01)) }

  // ----- Sums of words -----

  function Sum4W(a: U32, b: U32, c: U32, d: U32): U32 { XorW(XorW(XorW(a, b), c), d) }

  function Sum4C(a: Column, b: Column, c: Column, d: Column): Column { XorC(XorC(XorC(a, b), c), d) }

  lemma {:induction false} PutSum4(a: U32, b: U32, c: U32, d: U32)
    ensures PutU32(Sum4W(a, b, c, d)) == Sum4C(PutU32(a), PutU32(b), PutU32(c), PutU32(d))
  {
    PutXor(a, b);
    PutXor(XorW(a, b), c);
    PutXor(XorW(XorW(a, b), c), d);
  }

  /** The sum of four columns read from tables. */
  lemma {:induction false} PutColumns(a: Column, b: Column, c: Column, d: Column)
    ensures PutU32(Sum4W(GetU32(a), GetU32(b), GetU32(c), GetU32(d))) == Sum4C(a, b, c, d)
  {
    PutSum4(GetU32(a), GetU32(b), GetU32(c), GetU32(d));
    PutGet(a);
    PutGet(b);
    PutGet(c);
    PutGet(d);
  }

  /** Four masked words put four bytes together. */
  lemma {:induction false} PutMasked(a: U32, b: U32, c: U32, d: U32)
    ensures PutU32(Sum4W(Mask0(a), Mask1(b), Mask2(c), Mask3(d))) == Column(Byte0(a), Byte1(b), Byte2(c), Byte3(d))
  {
    PutSum4(Mask0(a), Mask1(b), Mask2(c), Mask3(d));
    PutMasks(a);
    PutMasks(b);
    PutMasks(c);
    PutMasks(d);
    XorSelf(0);
    XorSelf(Byte0(a));
    XorSelf(Byte1(b));
    XorSelf(Byte2(c));
    XorSelf(Byte3(d));
  }

  // ----- One statement of each kind of round -----

  function RoundWord(box: Box, a: U32, b: U32, c: U32, d: U32): U32 {
    Sum4W(Te0(box, Byte0(a)), Te1(box, Byte1(b)), Te2(box, Byte2(c)), Te3(box, Byte3(d)))
  }

  function FinalWord(box: Box, a: U32, b: U32, c: U32, d: U32): U32 {
    Sum4W(Mask0(Te4(box, Byte0(a))), Mask1(Te4(box, Byte1(b))), Mask2(Te4(box, Byte2(c))), Mask3(Te4(box, Byte3(d))))
  }

  function InvRoundWord(box: Box, a: U32, b: U32, c: U32, d: U32): U32 {
    Sum4W(Td0(box, Byte0(a)), Td1(box, Byte1(b)), Td2(box, Byte2(c)), Td3(box, Byte3(d)))
  }

  function InvFinalWord(box: Box, a: U32, b: U32, c: U32, d: U32): U32 {
    Sum4W(Mask0(Td4(box, Byte0(a))), Mask1(Td4(box, Byte1(b))), Mask2(Td4(box, Byte2(c))), Mask3(Td4(box, Byte3(d))))
  }

  function Diagonal(a: U32, b: U32, c: U32, d: U32): Column { Column(Byte0(a), Byte1(b), Byte2(c), Byte3(d)) }

  lemma {:induction false} RoundWordMixes(box: Box, a: U32, b: U32, c: U32, d: U32)
    ensures PutU32(RoundWord(box, a, b, c, d)) == MixColumn(SubColumn(box.s, Diagonal(a, b, c, d)))
  {
    PutColumns(Times(box.s(Byte0(a)), Mul02, Mul01, Mul01, Mul03), Times(box.s(Byte1(b)), Mul03, Mul02, Mul01, Mul01),
               Times(box.s(Byte2(c)), Mul01, Mul03, Mul02, Mul01), Times(box.s(Byte3(d)), Mul01, Mul01, Mul03, Mul02));
  }

  lemma {:induction false} InvRoundWordMixes(box: Box, a: U32, b: U32, c: U32, d: U32)
    ensures PutU32(InvRoundWord(box, a, b, c, d)) == InvMixColumn(SubColumn(box.si, Diagonal(a, b, c, d)))
  {
    PutColumns(Times(box.si(Byte0(a)), Mul0e, Mul09, Mul0d, Mul0b), Times(box.si(Byte1(b)), Mul0b, Mul0e, Mul09, Mul0d),
               Times(box.si(Byte2(c)), Mul0d, Mul0b, Mul0e, Mul09), Times(box.si(Byte3(d)), Mul09, Mul0d, Mul0b, Mul0e));
  }

  lemma {:induction false} FinalWordSubs(box: Box, a: U32, b: U32, c: U32, d: U32)
    ensures PutU32(FinalWord(box, a, b, c, d)) == SubColumn(box.s, Diagonal(a, b, c, d))
  {
    PutMasked(Te4(box, Byte0(a)), Te4(box, Byte1(b)), Te4(box, Byte2(c)), Te4(box, Byte3(d)));
    PutGet(Times(box.s(Byte0(a)), Mul01, Mul01, Mul01, Mul01));
    PutGet(Times(box.s(Byte1(b)), Mul01, Mul01, Mul01, Mul01));
    PutGet(Times(box.s(Byte2(c)), Mul01, Mul01, Mul01, Mul01));
    PutGet(Times(box.s(Byte3(d)), Mul01, Mul01, Mul01, Mul01));
  }

  lemma {:induction false} InvFinalWordSubs(box: Box, a: U32, b: U32, c: U32, d: U32)
    ensures PutU32(InvFinalWord(box, a, b, c, d)) == SubColumn(box.si, Diagonal(a, b, c, d))
  {
    PutMasked(Td4(box, Byte0(a)), Td4(box, Byte1(b)), Td4(box, Byte2(c)), Td4(box, Byte3(d)));
    PutGet(Times(box.si(Byte0(a)), Mul01, Mul01, Mul01, Mul01));
    PutGet(Times(box.si(Byte1(b)), Mul01, Mul01, Mul01, Mul01));
    PutGet(Times(box.si(Byte2(c)), Mul01, Mul01, Mul01, Mul01));
    PutGet(Times(box.si(Byte3(d)), Mul01, Mul01, Mul01, Mul01));
  }

  // ----- Whole rounds -----

  datatype Words = Words(w0: U32, w1: U32, w2: U32, w3: U32)

  function State(s: Words): Block { Block(PutU32(s.w0), PutU32(s.w1), PutU32(s.w2), PutU32(s.w3)) }

  function XorWords(s: Words, k: Words): Words {
    Words(XorW(s.w0, k.w0), XorW(s.w1, k.w1), XorW(s.w2, k.w2), XorW(s.w3, k.w3))
  }

  lemma {:induction false} StateXor(s: Words, k: Words)
    ensures State(XorWords(s, k)) == AddRoundKey(State(s), State(k))
  {
    PutXor(s.w0, k.w0);
    PutXor(s.w1, k.w1);
    PutXor(s.w2, k.w2);
    PutXor(s.w3, k.w3);
  }

  /** The four statements of a full round of AES_encrypt. */
  function TableRound(box: Box, s: Words): Words {
    Words(RoundWord(box, s.w0, s.w1, s.w2, s.w3), RoundWord(box, s.w1, s.w2, s.w3, s.w0),
          RoundWord(box, s.w2, s.w3, s.w0, s.w1), RoundWord(box, s.w3, s.w0, s.w1, s.w2))
  }

  function TableFinal(box: Box, s: Words): Words {
    Words(FinalWord(box, s.w0, s.w1, s.w2, s.w3), FinalWord(box, s.w1, s.w2, s.w3, s.w0),
          FinalWord(box, s.w2, s.w3, s.w0, s.w1), FinalWord(box, s.w3, s.w0, s.w1, s.w2))
  }

  /** The four statements of a full round of AES_decrypt. */
  function InvTableRound(box: Box, s: Words): Words {
    Words(InvRoundWord(box, s.w0, s.w3, s.w2, s.w1), InvRoundWord(box, s.w1, s.w0, s.w3, s.w2),
          InvRoundWord(box, s.w2, s.w1, s.w0, s.w3), InvRoundWord(box, s.w3, s.w2, s.w1, s.w0))
  }

  function InvTableFinal(box: Box, s: Words): Words {
    Words(InvFinalWord(box, s.w0, s.w3, s.w2, s.w1), InvFinalWord(box, s.w1, s.w0, s.w3, s.w2),
          InvFinalWord(box, s.w2, s.w1, s.w0, s.w3), InvFinalWord(box, s.w3, s.w2, s.w1, s.w0))
  }

  /** The table-driven round is SubBytes, ShiftRows, MixColumns and AddRoundKey. */
  lemma {:induction false} TableRoundIsRound(box: Box, s: Words, k: Words)
    ensures State(XorWords(TableRound(box, s), k)) == Round(Aes(box), State(s), State(k))
  {
    StateXor(TableRound(box, s), k);
    RoundWordMixes(box, s.w0, s.w1, s.w2, s.w3);
    RoundWordMixes(box, s.w1, s.w2, s.w3, s.w0);
    RoundWordMixes(box, s.w2, s.w3, s.w0, s.w1);
    RoundWordMixes(box, s.w3, s.w0, s.w1, s.w2);
  }

  lemma {:induction false} TableFinalIsFinal(box: Box, s: Words, k: Words)
    ensures State(XorWords(TableFinal(box, s), k)) == FinalRound(Aes(box), State(s), State(k))
  {
    StateXor(TableFinal(box, s), k);
    FinalWordSubs(box, s.w0, s.w1, s.w2, s.w3);
    FinalWordSubs(box, s.w1, s.w2, s.w3, s.w0);
    FinalWordSubs(box, s.w2, s.w3, s.w0, s.w1);
    FinalWordSubs(box, s.w3, s.w0, s.w1, s.w2);
  }

  lemma {:induction false} InvTableRoundIsRound(box: Box, s: Words, k: Words)
    ensures State(XorWords(InvTableRound(box, s), k)) == Round(Inverse(Aes(box)), State(s), State(k))
  {
    StateXor(InvTableRound(box, s), k);
    InvRoundWordMixes(box, s.w0, s.w3, s.w2, s.w1);
    InvRoundWordMixes(box, s.w1, s.w0, s.w3, s.w2);
    InvRoundWordMixes(box, s.w2, s.w1, s.w0, s.w3);
    InvRoundWordMixes(box, s.w3, s.w2, s.w1, s.w0);
  }

  lemma {:induction false} InvTableFinalIsFinal(box: Box, s: Words, k: Words)
    ensures State(XorWords(InvTableFinal(box, s), k)) == FinalRound(Inverse(Aes(box)), State(s), State(k))
  {
    StateXor(InvTableFinal(box, s), k);
    InvFinalWordSubs(box, s.w0, s.w3, s.w2, s.w1);
    InvFinalWordSubs(box, s.w1, s.w0, s.w3, s.w2);
    InvFinalWordSubs(box, s.w2, s.w1, s.w0, s.w3);
    InvFinalWordSubs(box, s.w3, s.w2, s.w1, s.w0);
  }
}
