/** The transformations of the AES state (FIPS 197 sections 5.1 and 5.3) and the proof that they obey
    the laws of RoundCipher, whatever the S-box, as long as Si undoes S. */
module AesCipher {
  import opened AesField
  import opened RoundCipher

  datatype Box = Box(s: U8 -> U8, si: U8 -> U8)

  /** Si undoes S. */
  ghost predicate Inverts(box: Box) { forall x: U8 :: box.si(box.s(x)) == x }

  /** The state: four columns of four bytes. */
  datatype Block = Block(c0: Column, c1: Column, c2: Column, c3: Column)

  function SubColumn(f: U8 -> U8, c: Column): Column { Column(f(c.b0), f(c.b1), f(c.b2), f(c.b3)) }

  function SubBytes(f: U8 -> U8, s: Block): Block {
    Block(SubColumn(f, s.c0), SubColumn(f, s.c1), SubColumn(f, s.c2), SubColumn(f, s.c3))
  }

  /** Row r is shifted r places to the left. */
  function ShiftRows(s: Block): Block {
    Block(Column(s.c0.b0, s.c1.b1, s.c2.b2, s.c3.b3), Column(s.c1.b0, s.c2.b1, s.c3.b2, s.c0.b3),
          Column(s.c2.b0, s.c3.b1, s.c0.b2, s.c1.b3), Column(s.c3.b0, s.c0.b1, s.c1.b2, s.c2.b3))
  }

  function InvShiftRows(s: Block): Block {
    Block(Column(s.c0.b0, s.c3.b1, s.c2.b2, s.c1.b3), Column(s.c1.b0, s.c0.b1, s.c3.b2, s.c2.b3),
          Column(s.c2.b0, s.c1.b1, s.c0.b2, s.c3.b3), Column(s.c3.b0, s.c2.b1, s.c1.b2, s.c0.b3))
  }

  function MixColumns(s: Block): Block {
    Block(MixColumn(s.c0), MixColumn(s.c1), MixColumn(s.c2), MixColumn(s.c3))
  }

  function InvMixColumns(s: Block): Block {
    Block(InvMixColumn(s.c0), InvMixColumn(s.c1), InvMixColumn(s.c2), InvMixColumn(s.c3))
  }

  function AddRoundKey(s: Block, k: Block): Block {
    Block(XorC(s.c0, k.c0), XorC(s.c1, k.c1), XorC(s.c2, k.c2), XorC(s.c3, k.c3))
  }

  function SubShift(box: Box, s: Block): Block { ShiftRows(SubBytes(box.s, s)) }

  function InvSubShift(box: Box, s: Block): Block { InvShiftRows(SubBytes(box.si, s)) }

  function Aes(box: Box): Steps<Block> {
    Steps(s => SubShift(box, s), s => InvSubShift(box, s), MixColumns, InvMixColumns, AddRoundKey)
  }

  lemma {:induction false} XorCCancels(a: Column, k: Column)
    ensures XorC(XorC(a, k), k) == a
  {
    XorCancels(a.b0, k.b0);
    XorCancels(a.b1, k.b1);
    XorCancels(a.b2, k.b2);
    XorCancels(a.b3, k.b3);
  }

  lemma {:induction false} KeyCancels(s: Block, k: Block)
    ensures AddRoundKey(AddRoundKey(s, k), k) == s
  {
    XorCCancels(s.c0, k.c0);
    XorCCancels(s.c1, k.c1);
    XorCCancels(s.c2, k.c2);
    XorCCancels(s.c3, k.c3);
  }

  lemma {:induction false} SubShiftUndone(box: Box, s: Block)
    requires Inverts(box)
    ensures InvSubShift(box, SubShift(box, s)) == s
  {
  }

  lemma {:induction false} MixUndone(s: Block, k: Block)
    ensures AddRoundKey(InvMixColumns(AddRoundKey(MixColumns(s), k)), InvMixColumns(k)) == s
  {
    var m := MixColumns(s);
    InvMixAdd(m.c0, k.c0);
    InvMixAdd(m.c1, k.c1);
    InvMixAdd(m.c2, k.c2);
    InvMixAdd(m.c3, k.c3);
    InvMixUndoesMix(s.c0);
    InvMixUndoesMix(s.c1);
    InvMixUndoesMix(s.c2);
    InvMixUndoesMix(s.c3);
    KeyCancels(s, InvMixColumns(k));
  }

  lemma {:induction false} AesLaws(box: Box)
    requires Inverts(box)
    ensures Laws(Aes(box))
  {
    forall s: Block
      ensures InvSubShift(box, SubShift(box, s)) == s
    {
      SubShiftUndone(box, s);
    }
    forall s, k
      ensures AddRoundKey(InvMixColumns(AddRoundKey(MixColumns(s), k)), InvMixColumns(k)) == s
    {
      MixUndone(s, k);
    }
    forall s, k
      ensures AddRoundKey(AddRoundKey(s, k), k) == s
    {
      KeyCancels(s, k);
    }
  }
}
