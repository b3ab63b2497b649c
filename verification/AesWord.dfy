/** The 32-bit words of the AES tables, key schedule and state, and what the operations the code
    performs on them do to their four bytes, most significant first. */
module AesWord {
  import opened AesField

  type U32 = bv32

  function XorW(a: U32, b: U32): U32 { a ^ b }

  function Widen(b: U8): U32 { b as bv32 }

  /** GETU32. */
  function GetU32(c: Column): U32 {
    (Widen(c.b0) << 24) ^ (Widen(c.b1) << 16) ^ (Widen(c.b2) << 8) ^ Widen(c.b3)
  }

  function Byte0(w: U32): U8 { (w >> 24) as bv8 }
  function Byte1(w: U32): U8 { ((w >> 16) & 0xff) as bv8 }
  function Byte2(w: U32): U8 { ((w >> 8) & 0xff) as bv8 }
  function Byte3(w: U32): U8 { (w & 0xff) as bv8 }

  /** PUTU32. */
  function PutU32(w: U32): Column { Column(Byte0(w), Byte1(w), Byte2(w), Byte3(w)) }

  function Mask0(w: U32): U32 { w & 0xff000000 }
  function Mask1(w: U32): U32 { w & 0x00ff0000 }
  function Mask2(w: U32): U32 { w & 0x0000ff00 }
  function Mask3(w: U32): U32 { w & 0x000000ff }

  /** Words and columns correspond one to one. */
  lemma {:induction false} PutGet(c: Column)
    ensures PutU32(GetU32(c)) == c
  {
  }

  lemma {:induction false} GetPut(w: U32)
    ensures GetU32(PutU32(w)) == w
  {
  }

  lemma {:induction false} XorByte0(a: U32, b: U32)
    ensures Byte0(XorW(a, b)) == Xor(Byte0(a), Byte0(b))
  {
  }

  lemma {:induction false} XorByte1(a: U32, b: U32)
    ensures Byte1(XorW(a, b)) == Xor(Byte1(a), Byte1(b))
  {
  }

  lemma {:induction false} XorByte2(a: U32, b: U32)
    ensures Byte2(XorW(a, b)) == Xor(Byte2(a), Byte2(b))
  {
  }

  lemma {:induction false} XorByte3(a: U32, b: U32)
    ensures Byte3(XorW(a, b)) == Xor(Byte3(a), Byte3(b))
  {
  }

  lemma {:induction false} PutXor(a: U32, b: U32)
    ensures PutU32(XorW(a, b)) == XorC(PutU32(a), PutU32(b))
  {
    XorByte0(a, b);
    XorByte1(a, b);
    XorByte2(a, b);
    XorByte3(a, b);
  }

  /** A mask keeps one byte. */
  lemma {:induction false} PutMasks(w: U32)
    ensures PutU32(Mask0(w)) == Column(Byte0(w), 0, 0, 0)
    ensures PutU32(Mask1(w)) == Column(0, Byte1(w), 0, 0)
    ensures PutU32(Mask2(w)) == Column(0, 0, Byte2(w), 0)
    ensures PutU32(Mask3(w)) == Column(0, 0, 0, Byte3(w))
  {
  }
}
