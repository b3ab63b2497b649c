/** The ciphertexts of appendix C of FIPS 197, as values of the cipher under the expanded keys. */
module AesVectors {
  import opened AesField
  import opened AesWord
  import opened AesCipher
  import opened AesSbox
  import opened AesBlock
  import opened AesKeySchedule
  import opened AesExpansion
  import opened RoundCipher

  function B(a: U32, b: U32, c: U32, d: U32): Block { Block(PutU32(a), PutU32(b), PutU32(c), PutU32(d)) }

  const PLAIN: Block := B(0x00112233, 0x44556677, 0x8899aabb, 0xccddeeff)

  lemma {:induction false} FourWords(key: seq<Column>, i: nat, g: seq<U32>)
    requires |key| == 4 && GroupAt(key, i, g)
    ensures WordIs(key, 4 * i, g[0]) && WordIs(key, 4 * i + 1, g[1]) && WordIs(key, 4 * i + 2, g[2]) && WordIs(key, 4 * i + 3, g[3])
  {
    hide WordIs;
    assert Place(4, i, 0) == 4 * i && Place(4, i, 1) == 4 * i + 1 && Place(4, i, 2) == 4 * i + 2 && Place(4, i, 3) == 4 * i + 3;
  }

  lemma {:induction false} SixWords(key: seq<Column>, i: nat, g: seq<U32>)
    requires |key| == 6 && GroupAt(key, i, g)
    ensures WordIs(key, 6 * i, g[0]) && WordIs(key, 6 * i + 1, g[1]) && WordIs(key, 6 * i + 2, g[2])
    ensures WordIs(key, 6 * i + 3, g[3]) && WordIs(key, 6 * i + 4, g[4]) && WordIs(key, 6 * i + 5, g[5])
  {
    hide WordIs;
    assert Place(6, i, 0) == 6 * i && Place(6, i, 1) == 6 * i + 1 && Place(6, i, 2) == 6 * i + 2;
    assert Place(6, i, 3) == 6 * i + 3 && Place(6, i, 4) == 6 * i + 4 && Place(6, i, 5) == 6 * i + 5;
  }

  lemma {:induction false} EightWords(key: seq<Column>, i: nat, g: seq<U32>)
    requires |key| == 8 && GroupAt(key, i, g)
    ensures WordIs(key, 8 * i, g[0]) && WordIs(key, 8 * i + 1, g[1]) && WordIs(key, 8 * i + 2, g[2]) && WordIs(key, 8 * i + 3, g[3])
    ensures WordIs(key, 8 * i + 4, g[4]) && WordIs(key, 8 * i + 5, g[5]) && WordIs(key, 8 * i + 6, g[6]) && WordIs(key, 8 * i + 7, g[7])
  {
    hide WordIs;
    assert Place(8, i, 0) == 8 * i && Place(8, i, 1) == 8 * i + 1 && Place(8, i, 2) == 8 * i + 2 && Place(8, i, 3) == 8 * i + 3;
    assert Place(8, i, 4) == 8 * i + 4 && Place(8, i, 5) == 8 * i + 5 && Place(8, i, 6) == 8 * i + 6 && Place(8, i, 7) == 8 * i + 7;
  }

  /** The state after r rounds. */
  ghost predicate StateIs(key: seq<Column>, r: nat, s: Block)
    requires KeyLength(|key|) && r <= Rounds(|key|)
  {
    AfterRounds(Aes(AES_BOX), PLAIN, Schedule(AES_BOX, key), r) == s
  }

  function OneRound(s: Block, k: Block): Block { AddRoundKey(MixColumns(SubShift(AES_BOX, s)), k) }

  function LastRound(s: Block, k: Block): Block { AddRoundKey(SubShift(AES_BOX, s), k) }

  ghost predicate KeyIs(key: seq<Column>, r: nat, k: Block)
    requires KeyLength(|key|)
  {
    ScheduleAt(AES_BOX, key, r) == k
  }

  lemma {:induction false} KeyFrom(key: seq<Column>, r: nat, a: U32, b: U32, c: U32, d: U32)
    requires KeyLength(|key|)
    requires WordIs(key, 4 * r, a) && WordIs(key, 4 * r + 1, b) && WordIs(key, 4 * r + 2, c) && WordIs(key, 4 * r + 3, d)
    ensures KeyIs(key, r, B(a, b, c, d))
  {
    hide W, PutU32;
  }

  lemma {:induction false} StartIs(key: seq<Column>, k: Block)
    requires KeyLength(|key|) && KeyIs(key, 0, k)
    ensures StateIs(key, 0, AddRoundKey(PLAIN, k))
  {
    hide ScheduleAt, AddRoundKey;
  }

  lemma {:induction false} RoundIs(key: seq<Column>, r: nat, s: Block, k: Block)
    requires KeyLength(|key|) && r < Rounds(|key|) && StateIs(key, r, s) && KeyIs(key, r + 1, k)
    ensures StateIs(key, r + 1, OneRound(s, k))
  {
    hide ScheduleAt, AddRoundKey, MixColumns, SubShift;
  }

  lemma {:induction false} LastIs(key: seq<Column>, s: Block, k: Block)
    requires KeyLength(|key|) && StateIs(key, Rounds(|key|) - 1, s) && KeyIs(key, Rounds(|key|), k)
    ensures Cipher(Aes(AES_BOX), PLAIN, Schedule(AES_BOX, key)) == LastRound(s, k)
  {
    hide ScheduleAt, AddRoundKey, MixColumns, SubShift;
  }

  const C128: seq<U32> := [0x00010203, 0x04050607, 0x08090a0b, 0x0c0d0e0f]

  /** The expanded key of appendix C.1. */
  lemma {:induction false} ExpandedC128()
    ensures GroupAt(Key(C128), 0, [0x00010203, 0x04050607, 0x08090a0b, 0x0c0d0e0f])
    ensures GroupAt(Key(C128), 1, [0xd6aa74fd, 0xd2af72fa, 0xdaa678f1, 0xd6ab76fe])
    ensures GroupAt(Key(C128), 2, [0xb692cf0b, 0x643dbdf1, 0xbe9bc500, 0x6830b3fe])
    ensures GroupAt(Key(C128), 3, [0xb6ff744e, 0xd2c2c9bf, 0x6c590cbf, 0x0469bf41])
    ensures GroupAt(Key(C128), 4, [0x47f7f7bc, 0x95353e03, 0xf96c32bc, 0xfd058dfd])
    ensures GroupAt(Key(C128), 5, [0x3caaa3e8, 0xa99f9deb, 0x50f3af57, 0xadf622aa])
  {
    hide W, WordIs, GroupAt, Key, SubWord, RotWord, IsRcon;
    var key := Key(C128);
    FirstGroup(C128);
    Rcons();
    C128Words();
    Turn(key, 0, 0x01000000, [0x00010203, 0x04050607, 0x08090a0b, 0x0c0d0e0f],
         [0xd6aa74fd, 0xd2af72fa, 0xdaa678f1, 0xd6ab76fe]);
    Turn(key, 1, 0x02000000, [0xd6aa74fd, 0xd2af72fa, 0xdaa678f1, 0xd6ab76fe],
         [0xb692cf0b, 0x643dbdf1, 0xbe9bc500, 0x6830b3fe]);
    Turn(key, 2, 0x04000000, [0xb692cf0b, 0x643dbdf1, 0xbe9bc500, 0x6830b3fe],
         [0xb6ff744e, 0xd2c2c9bf, 0x6c590cbf, 0x0469bf41]);
    Turn(key, 3, 0x08000000, [0xb6ff744e, 0xd2c2c9bf, 0x6c590cbf, 0x0469bf41],
         [0x47f7f7bc, 0x95353e03, 0xf96c32bc, 0xfd058dfd]);
    Turn(key, 4, 0x10000000, [0x47f7f7bc, 0x95353e03, 0xf96c32bc, 0xfd058dfd],
         [0x3caaa3e8, 0xa99f9deb, 0x50f3af57, 0xadf622aa]);
  }

  lemma {:induction false} ExpandedC128Rest()
    ensures GroupAt(Key(C128), 6, [0x5e390f7d, 0xf7a69296, 0xa7553dc1, 0x0aa31f6b])
    ensures GroupAt(Key(C128), 7, [0x14f9701a, 0xe35fe28c, 0x440adf4d, 0x4ea9c026])
    ensures GroupAt(Key(C128), 8, [0x47438735, 0xa41c65b9, 0xe016baf4, 0xaebf7ad2])
    ensures GroupAt(Key(C128), 9, [0x549932d1, 0xf0855768, 0x1093ed9c, 0xbe2c974e])
    ensures GroupAt(Key(C128), 10, [0x13111d7f, 0xe3944a17, 0xf307a78b, 0x4d2b30c5])
  {
    hide W, WordIs, GroupAt, Key, SubWord, RotWord, IsRcon;
    var key := Key(C128);
    ExpandedC128();
    Rcons();
    C128Words();
    Turn(key, 5, 0x20000000, [0x3caaa3e8, 0xa99f9deb, 0x50f3af57, 0xadf622aa],
         [0x5e390f7d, 0xf7a69296, 0xa7553dc1, 0x0aa31f6b]);
    Turn(key, 6, 0x40000000, [0x5e390f7d, 0xf7a69296, 0xa7553dc1, 0x0aa31f6b],
         [0x14f9701a, 0xe35fe28c, 0x440adf4d, 0x4ea9c026]);
    Turn(key, 7, 0x80000000, [0x14f9701a, 0xe35fe28c, 0x440adf4d, 0x4ea9c026],
         [0x47438735, 0xa41c65b9, 0xe016baf4, 0xaebf7ad2]);
    Turn(key, 8, 0x1b000000, [0x47438735, 0xa41c65b9, 0xe016baf4, 0xaebf7ad2],
         [0x549932d1, 0xf0855768, 0x1093ed9c, 0xbe2c974e]);
    Turn(key, 9, 0x36000000, [0x549932d1, 0xf0855768, 0x1093ed9c, 0xbe2c974e],
         [0x13111d7f, 0xe3944a17, 0xf307a78b, 0x4d2b30c5]);
  }

  lemma {:induction false} C128Words()
    ensures SubWord(RotWord(0x0c0d0e0f)) == 0xd7ab76fe
    ensures SubWord(RotWord(0xd6ab76fe)) == 0x6238bbf6
    ensures SubWord(RotWord(0x6830b3fe)) == 0x046dbb45
    ensures SubWord(RotWord(0x0469bf41)) == 0xf90883f2
    ensures SubWord(RotWord(0xfd058dfd)) == 0x6b5d5454
    ensures SubWord(RotWord(0xadf622aa)) == 0x4293ac95
    ensures SubWord(RotWord(0x0aa31f6b)) == 0x0ac07f67
    ensures SubWord(RotWord(0x4ea9c026)) == 0xd3baf72f
    ensures SubWord(RotWord(0xaebf7ad2)) == 0x08dab5e4
    ensures SubWord(RotWord(0xbe2c974e)) == 0x71882fae
  {
  }

  lemma {:induction false} C128Keys()
    ensures KeyIs(Key(C128), 0, B(0x00010203, 0x04050607, 0x08090a0b, 0x0c0d0e0f))
    ensures KeyIs(Key(C128), 1, B(0xd6aa74fd, 0xd2af72fa, 0xdaa678f1, 0xd6ab76fe))
    ensures KeyIs(Key(C128), 2, B(0xb692cf0b, 0x643dbdf1, 0xbe9bc500, 0x6830b3fe))
    ensures KeyIs(Key(C128), 3, B(0xb6ff744e, 0xd2c2c9bf, 0x6c590cbf, 0x0469bf41))
    ensures KeyIs(Key(C128), 4, B(0x47f7f7bc, 0x95353e03, 0xf96c32bc, 0xfd058dfd))
    ensures KeyIs(Key(C128), 5, B(0x3caaa3e8, 0xa99f9deb, 0x50f3af57, 0xadf622aa))
    ensures KeyIs(Key(C128), 6, B(0x5e390f7d, 0xf7a69296, 0xa7553dc1, 0x0aa31f6b))
    ensures KeyIs(Key(C128), 7, B(0x14f9701a, 0xe35fe28c, 0x440adf4d, 0x4ea9c026))
    ensures KeyIs(Key(C128), 8, B(0x47438735, 0xa41c65b9, 0xe016baf4, 0xaebf7ad2))
    ensures KeyIs(Key(C128), 9, B(0x549932d1, 0xf0855768, 0x1093ed9c, 0xbe2c974e))
    ensures KeyIs(Key(C128), 10, B(0x13111d7f, 0xe3944a17, 0xf307a78b, 0x4d2b30c5))
  {
    hide WordIs, KeyIs, GroupAt, B;
    var key := Key(C128);
    ExpandedC128();
    ExpandedC128Rest();
    FourWords(key, 0, [0x00010203, 0x04050607, 0x08090a0b, 0x0c0d0e0f]);
    FourWords(key, 1, [0xd6aa74fd, 0xd2af72fa, 0xdaa678f1, 0xd6ab76fe]);
    FourWords(key, 2, [0xb692cf0b, 0x643dbdf1, 0xbe9bc500, 0x6830b3fe]);
    FourWords(key, 3, [0xb6ff744e, 0xd2c2c9bf, 0x6c590cbf, 0x0469bf41]);
    FourWords(key, 4, [0x47f7f7bc, 0x95353e03, 0xf96c32bc, 0xfd058dfd]);
    FourWords(key, 5, [0x3caaa3e8, 0xa99f9deb, 0x50f3af57, 0xadf622aa]);
    FourWords(key, 6, [0x5e390f7d, 0xf7a69296, 0xa7553dc1, 0x0aa31f6b]);
    FourWords(key, 7, [0x14f9701a, 0xe35fe28c, 0x440adf4d, 0x4ea9c026]);
    FourWords(key, 8, [0x47438735, 0xa41c65b9, 0xe016baf4, 0xaebf7ad2]);
    FourWords(key, 9, [0x549932d1, 0xf0855768, 0x1093ed9c, 0xbe2c974e]);
    FourWords(key, 10, [0x13111d7f, 0xe3944a17, 0xf307a78b, 0x4d2b30c5]);
    KeyFrom(key, 0, 0x00010203, 0x04050607, 0x08090a0b, 0x0c0d0e0f);
    KeyFrom(key, 1, 0xd6aa74fd, 0xd2af72fa, 0xdaa678f1, 0xd6ab76fe);
    KeyFrom(key, 2, 0xb692cf0b, 0x643dbdf1, 0xbe9bc500, 0x6830b3fe);
    KeyFrom(key, 3, 0xb6ff744e, 0xd2c2c9bf, 0x6c590cbf, 0x0469bf41);
    KeyFrom(key, 4, 0x47f7f7bc, 0x95353e03, 0xf96c32bc, 0xfd058dfd);
    KeyFrom(key, 5, 0x3caaa3e8, 0xa99f9deb, 0x50f3af57, 0xadf622aa);
    KeyFrom(key, 6, 0x5e390f7d, 0xf7a69296, 0xa7553dc1, 0x0aa31f6b);
    KeyFrom(key, 7, 0x14f9701a, 0xe35fe28c, 0x440adf4d, 0x4ea9c026);
    KeyFrom(key, 8, 0x47438735, 0xa41c65b9, 0xe016baf4, 0xaebf7ad2);
    KeyFrom(key, 9, 0x549932d1, 0xf0855768, 0x1093ed9c, 0xbe2c974e);
    KeyFrom(key, 10, 0x13111d7f, 0xe3944a17, 0xf307a78b, 0x4d2b30c5);
  }

  /** Appendix C.1. */
  lemma {:induction false} Ciphertext128()
    ensures Cipher(Aes(AES_BOX), PLAIN, Schedule(AES_BOX, Key(C128))) == B(0x69c4e0d8, 0x6a7b0430, 0xd8cdb780, 0x70b4c55a)
  {
    hide StateIs, KeyIs, B, SubShift, MixColumns, AddRoundKey, Cipher, Aes, Schedule;
    var key := Key(C128);
    C128Keys();
    C128Subs0();
    C128Subs1();
    C128Mixes0();
    C128Mixes1();
    C128Mixes2();
    C128Mixes3();
    StartIs(key, B(0x00010203, 0x04050607, 0x08090a0b, 0x0c0d0e0f));
    RoundIs(key, 0, B(0x00102030, 0x40506070, 0x8090a0b0, 0xc0d0e0f0), B(0xd6aa74fd, 0xd2af72fa, 0xdaa678f1, 0xd6ab76fe));
    RoundIs(key, 1, B(0x89d810e8, 0x855ace68, 0x2d1843d8, 0xcb128fe4), B(0xb692cf0b, 0x643dbdf1, 0xbe9bc500, 0x6830b3fe));
    RoundIs(key, 2, B(0x4915598f, 0x55e5d7a0, 0xdaca94fa, 0x1f0a63f7), B(0xb6ff744e, 0xd2c2c9bf, 0x6c590cbf, 0x0469bf41));
    RoundIs(key, 3, B(0xfa636a28, 0x25b339c9, 0x40668a31, 0x57244d17), B(0x47f7f7bc, 0x95353e03, 0xf96c32bc, 0xfd058dfd));
    RoundIs(key, 4, B(0x24724023, 0x6966b3fa, 0x6ed27532, 0x88425b6c), B(0x3caaa3e8, 0xa99f9deb, 0x50f3af57, 0xadf622aa));
    RoundIs(key, 5, B(0xc81677bc, 0x9b7ac93b, 0x25027992, 0xb0261996), B(0x5e390f7d, 0xf7a69296, 0xa7553dc1, 0x0aa31f6b));
    RoundIs(key, 6, B(0xc62fe109, 0xf75eedc3, 0xcc79395d, 0x84f9cf5d), B(0x14f9701a, 0xe35fe28c, 0x440adf4d, 0x4ea9c026));
    RoundIs(key, 7, B(0xd1876c0f, 0x79c4300a, 0xb45594ad, 0xd66ff41f), B(0x47438735, 0xa41c65b9, 0xe016baf4, 0xaebf7ad2));
    RoundIs(key, 8, B(0xfde3bad2, 0x05e5d0d7, 0x3547964e, 0xf1fe37f1), B(0x549932d1, 0xf0855768, 0x1093ed9c, 0xbe2c974e));
    LastIs(key, B(0xbd6e7c3d, 0xf2b5779e, 0x0b61216e, 0x8b10b689), B(0x13111d7f, 0xe3944a17, 0xf307a78b, 0x4d2b30c5));
  }

  lemma {:induction false} C128Subs0()
    ensures SubShift(AES_BOX, B(0x00102030, 0x40506070, 0x8090a0b0, 0xc0d0e0f0))
         == B(0x6353e08c, 0x0960e104, 0xcd70b751, 0xbacad0e7)
    ensures SubShift(AES_BOX, B(0x89d810e8, 0x855ace68, 0x2d1843d8, 0xcb128fe4))
         == B(0xa7be1a69, 0x97ad739b, 0xd8c9ca45, 0x1f618b61)
    ensures SubShift(AES_BOX, B(0x4915598f, 0x55e5d7a0, 0xdaca94fa, 0x1f0a63f7))
         == B(0x3bd92268, 0xfc74fb73, 0x5767cbe0, 0xc0590e2d)
    ensures SubShift(AES_BOX, B(0xfa636a28, 0x25b339c9, 0x40668a31, 0x57244d17))
         == B(0x2d6d7ef0, 0x3f33e334, 0x093602dd, 0x5bfb12c7)
    ensures SubShift(AES_BOX, B(0x24724023, 0x6966b3fa, 0x6ed27532, 0x88425b6c))
         == B(0x36339d50, 0xf9b53926, 0x9f2c092d, 0xc4406d23)
  {
  }

  lemma {:induction false} C128Subs1()
    ensures SubShift(AES_BOX, B(0xc81677bc, 0x9b7ac93b, 0x25027992, 0xb0261996))
         == B(0xe8dab690, 0x1477d465, 0x3ff7f5e2, 0xe747dd4f)
    ensures SubShift(AES_BOX, B(0xc62fe109, 0xf75eedc3, 0xcc79395d, 0x84f9cf5d))
         == B(0xb458124c, 0x68b68a01, 0x4b99f82e, 0x5f15554c)
    ensures SubShift(AES_BOX, B(0xd1876c0f, 0x79c4300a, 0xb45594ad, 0xd66ff41f))
         == B(0x3e1c22c0, 0xb6fcbf76, 0x8da85067, 0xf6170495)
    ensures SubShift(AES_BOX, B(0xfde3bad2, 0x05e5d0d7, 0x3547964e, 0xf1fe37f1))
         == B(0x54d990a1, 0x6ba09ab5, 0x96bbf40e, 0xa111702f)
    ensures SubShift(AES_BOX, B(0xbd6e7c3d, 0xf2b5779e, 0x0b61216e, 0x8b10b689))
         == B(0x7ad5fda7, 0x89ef4e27, 0x2bca100b, 0x3d9ff59f)
  {
  }

  lemma {:induction false} C128Mixes0()
    ensures AddRoundKey(PLAIN, B(0x00010203, 0x04050607, 0x08090a0b, 0x0c0d0e0f)) == B(0x00102030, 0x40506070, 0x8090a0b0, 0xc0d0e0f0)
    ensures AddRoundKey(MixColumns(B(0x6353e08c, 0x0960e104, 0xcd70b751, 0xbacad0e7)),
                        B(0xd6aa74fd, 0xd2af72fa, 0xdaa678f1, 0xd6ab76fe))
         == B(0x89d810e8, 0x855ace68, 0x2d1843d8, 0xcb128fe4)
    ensures AddRoundKey(MixColumns(B(0xa7be1a69, 0x97ad739b, 0xd8c9ca45, 0x1f618b61)),
                        B(0xb692cf0b, 0x643dbdf1, 0xbe9bc500, 0x6830b3fe))
         == B(0x4915598f, 0x55e5d7a0, 0xdaca94fa, 0x1f0a63f7)
  {
  }

  lemma {:induction false} C128Mixes1()
    ensures AddRoundKey(MixColumns(B(0x3bd92268, 0xfc74fb73, 0x5767cbe0, 0xc0590e2d)),
                        B(0xb6ff744e, 0xd2c2c9bf, 0x6c590cbf, 0x0469bf41))
         == B(0xfa636a28, 0x25b339c9, 0x40668a31, 0x57244d17)
    ensures AddRoundKey(MixColumns(B(0x2d6d7ef0, 0x3f33e334, 0x093602dd, 0x5bfb12c7)),
                        B(0x47f7f7bc, 0x95353e03, 0xf96c32bc, 0xfd058dfd))
         == B(0x24724023, 0x6966b3fa, 0x6ed27532, 0x88425b6c)
    ensures AddRoundKey(MixColumns(B(0x36339d50, 0xf9b53926, 0x9f2c092d, 0xc4406d23)),
                        B(0x3caaa3e8, 0xa99f9deb, 0x50f3af57, 0xadf622aa))
         == B(0xc81677bc, 0x9b7ac93b, 0x25027992, 0xb0261996)
  {
  }

  lemma {:induction false} C128Mixes2()
    ensures AddRoundKey(MixColumns(B(0xe8dab690, 0x1477d465, 0x3ff7f5e2, 0xe747dd4f)),
                        B(0x5e390f7d, 0xf7a69296, 0xa7553dc1, 0x0aa31f6b))
         == B(0xc62fe109, 0xf75eedc3, 0xcc79395d, 0x84f9cf5d)
    ensures AddRoundKey(MixColumns(B(0xb458124c, 0x68b68a01, 0x4b99f82e, 0x5f15554c)),
                        B(0x14f9701a, 0xe35fe28c, 0x440adf4d, 0x4ea9c026))
         == B(0xd1876c0f, 0x79c4300a, 0xb45594ad, 0xd66ff41f)
    ensures AddRoundKey(MixColumns(B(0x3e1c22c0, 0xb6fcbf76, 0x8da85067, 0xf6170495)),
                        B(0x47438735, 0xa41c65b9, 0xe016baf4, 0xaebf7ad2))
         == B(0xfde3bad2, 0x05e5d0d7, 0x3547964e, 0xf1fe37f1)
  {
  }

  lemma {:induction false} C128Mixes3()
    ensures AddRoundKey(MixColumns(B(0x54d990a1, 0x6ba09ab5, 0x96bbf40e, 0xa111702f)),
                        B(0x549932d1, 0xf0855768, 0x1093ed9c, 0xbe2c974e))
         == B(0xbd6e7c3d, 0xf2b5779e, 0x0b61216e, 0x8b10b689)
    ensures AddRoundKey(B(0x7ad5fda7, 0x89ef4e27, 0x2bca100b, 0x3d9ff59f),
                        B(0x13111d7f, 0xe3944a17, 0xf307a78b, 0x4d2b30c5))
         == B(0x69c4e0d8, 0x6a7b0430, 0xd8cdb780, 0x70b4c55a)
  {
  }

  const C192: seq<U32> := [0x00010203, 0x04050607, 0x08090a0b, 0x0c0d0e0f, 0x10111213, 0x14151617]

  /** The expanded key of appendix C.2. */
  lemma {:induction false} ExpandedC192()
    ensures GroupAt(Key(C192), 0, [0x00010203, 0x04050607, 0x08090a0b, 0x0c0d0e0f, 0x10111213, 0x14151617])
    ensures GroupAt(Key(C192), 1, [0x5846f2f9, 0x5c43f4fe, 0x544afef5, 0x5847f0fa, 0x4856e2e9, 0x5c43f4fe])
    ensures GroupAt(Key(C192), 2, [0x40f949b3, 0x1cbabd4d, 0x48f043b8, 0x10b7b342, 0x58e151ab, 0x04a2a555])
    ensures GroupAt(Key(C192), 3, [0x7effb541, 0x6245080c, 0x2ab54bb4, 0x3a02f8f6, 0x62e3a95d, 0x66410c08])
    ensures GroupAt(Key(C192), 4, [0xf5018572, 0x97448d7e, 0xbdf1c6ca, 0x87f33e3c, 0xe5109761, 0x83519b69])
  {
    hide W, WordIs, GroupAt, Key, SubWord, RotWord, IsRcon;
    var key := Key(C192);
    FirstGroup(C192);
    Rcons();
    C192Words();
    Turn(key, 0, 0x01000000, [0x00010203, 0x04050607, 0x08090a0b, 0x0c0d0e0f, 0x10111213, 0x14151617],
         [0x5846f2f9, 0x5c43f4fe, 0x544afef5, 0x5847f0fa, 0x4856e2e9, 0x5c43f4fe]);
    Turn(key, 1, 0x02000000, [0x5846f2f9, 0x5c43f4fe, 0x544afef5, 0x5847f0fa, 0x4856e2e9, 0x5c43f4fe],
         [0x40f949b3, 0x1cbabd4d, 0x48f043b8, 0x10b7b342, 0x58e151ab, 0x04a2a555]);
    Turn(key, 2, 0x04000000, [0x40f949b3, 0x1cbabd4d, 0x48f043b8, 0x10b7b342, 0x58e151ab, 0x04a2a555],
         [0x7effb541, 0x6245080c, 0x2ab54bb4, 0x3a02f8f6, 0x62e3a95d, 0x66410c08]);
    Turn(key, 3, 0x08000000, [0x7effb541, 0x6245080c, 0x2ab54bb4, 0x3a02f8f6, 0x62e3a95d, 0x66410c08],
         [0xf5018572, 0x97448d7e, 0xbdf1c6ca, 0x87f33e3c, 0xe5109761, 0x83519b69]);
  }

  lemma {:induction false} ExpandedC192Rest()
    ensures GroupAt(Key(C192), 5, [0x34157c9e, 0xa351f1e0, 0x1ea0372a, 0x99530916, 0x7c439e77, 0xff12051e])
    ensures GroupAt(Key(C192), 6, [0xdd7e0e88, 0x7e2fff68, 0x608fc842, 0xf9dcc154, 0x859f5f23, 0x7a8d5a3d])
    ensures GroupAt(Key(C192), 7, [0xc0c02952, 0xbeefd63a, 0xde601e78, 0x27bcdf2c, 0xa223800f, 0xd8aeda32])
    ensures GroupAt(Key(C192), 8, [0xa4970a33, 0x1a78dc09, 0xc418c271, 0xe3a41d5d, 0x41879d52, 0x99294760])
  {
    hide W, WordIs, GroupAt, Key, SubWord, RotWord, IsRcon;
    var key := Key(C192);
    ExpandedC192();
    Rcons();
    C192Words();
    Turn(key, 4, 0x10000000, [0xf5018572, 0x97448d7e, 0xbdf1c6ca, 0x87f33e3c, 0xe5109761, 0x83519b69],
         [0x34157c9e, 0xa351f1e0, 0x1ea0372a, 0x99530916, 0x7c439e77, 0xff12051e]);
    Turn(key, 5, 0x20000000, [0x34157c9e, 0xa351f1e0, 0x1ea0372a, 0x99530916, 0x7c439e77, 0xff12051e],
         [0xdd7e0e88, 0x7e2fff68, 0x608fc842, 0xf9dcc154, 0x859f5f23, 0x7a8d5a3d]);
    Turn(key, 6, 0x40000000, [0xdd7e0e88, 0x7e2fff68, 0x608fc842, 0xf9dcc154, 0x859f5f23, 0x7a8d5a3d],
         [0xc0c02952, 0xbeefd63a, 0xde601e78, 0x27bcdf2c, 0xa223800f, 0xd8aeda32]);
    Turn(key, 7, 0x80000000, [0xc0c02952, 0xbeefd63a, 0xde601e78, 0x27bcdf2c, 0xa223800f, 0xd8aeda32],
         [0xa4970a33, 0x1a78dc09, 0xc418c271, 0xe3a41d5d, 0x41879d52, 0x99294760]);
  }

  lemma {:induction false} C192Words()
    ensures SubWord(RotWord(0x14151617)) == 0x5947f0fa
    ensures SubWord(RotWord(0x5c43f4fe)) == 0x1abfbb4a
    ensures SubWord(RotWord(0x04a2a555)) == 0x3a06fcf2
    ensures SubWord(RotWord(0x66410c08)) == 0x83fe3033
    ensures SubWord(RotWord(0x83519b69)) == 0xd114f9ec
    ensures SubWord(RotWord(0xff12051e)) == 0xc96b7216
    ensures SubWord(RotWord(0x7a8d5a3d)) == 0x5dbe27da
    ensures SubWord(RotWord(0xd8aeda32)) == 0xe4572361
  {
  }

  lemma {:induction false} C192Keys()
    ensures KeyIs(Key(C192), 0, B(0x00010203, 0x04050607, 0x08090a0b, 0x0c0d0e0f))
    ensures KeyIs(Key(C192), 1, B(0x10111213, 0x14151617, 0x5846f2f9, 0x5c43f4fe))
    ensures KeyIs(Key(C192), 2, B(0x544afef5, 0x5847f0fa, 0x4856e2e9, 0x5c43f4fe))
    ensures KeyIs(Key(C192), 3, B(0x40f949b3, 0x1cbabd4d, 0x48f043b8, 0x10b7b342))
    ensures KeyIs(Key(C192), 4, B(0x58e151ab, 0x04a2a555, 0x7effb541, 0x6245080c))
    ensures KeyIs(Key(C192), 5, B(0x2ab54bb4, 0x3a02f8f6, 0x62e3a95d, 0x66410c08))
    ensures KeyIs(Key(C192), 6, B(0xf5018572, 0x97448d7e, 0xbdf1c6ca, 0x87f33e3c))
    ensures KeyIs(Key(C192), 7, B(0xe5109761, 0x83519b69, 0x34157c9e, 0xa351f1e0))
    ensures KeyIs(Key(C192), 8, B(0x1ea0372a, 0x99530916, 0x7c439e77, 0xff12051e))
    ensures KeyIs(Key(C192), 9, B(0xdd7e0e88, 0x7e2fff68, 0x608fc842, 0xf9dcc154))
    ensures KeyIs(Key(C192), 10, B(0x859f5f23, 0x7a8d5a3d, 0xc0c02952, 0xbeefd63a))
    ensures KeyIs(Key(C192), 11, B(0xde601e78, 0x27bcdf2c, 0xa223800f, 0xd8aeda32))
    ensures KeyIs(Key(C192), 12, B(0xa4970a33, 0x1a78dc09, 0xc418c271, 0xe3a41d5d))
  {
    hide WordIs, KeyIs, GroupAt, B;
    var key := Key(C192);
    ExpandedC192();
    ExpandedC192Rest();
    SixWords(key, 0, [0x00010203, 0x04050607, 0x08090a0b, 0x0c0d0e0f, 0x10111213, 0x14151617]);
    SixWords(key, 1, [0x5846f2f9, 0x5c43f4fe, 0x544afef5, 0x5847f0fa, 0x4856e2e9, 0x5c43f4fe]);
    SixWords(key, 2, [0x40f949b3, 0x1cbabd4d, 0x48f043b8, 0x10b7b342, 0x58e151ab, 0x04a2a555]);
    SixWords(key, 3, [0x7effb541, 0x6245080c, 0x2ab54bb4, 0x3a02f8f6, 0x62e3a95d, 0x66410c08]);
    SixWords(key, 4, [0xf5018572, 0x97448d7e, 0xbdf1c6ca, 0x87f33e3c, 0xe5109761, 0x83519b69]);
    SixWords(key, 5, [0x34157c9e, 0xa351f1e0, 0x1ea0372a, 0x99530916, 0x7c439e77, 0xff12051e]);
    SixWords(key, 6, [0xdd7e0e88, 0x7e2fff68, 0x608fc842, 0xf9dcc154, 0x859f5f23, 0x7a8d5a3d]);
    SixWords(key, 7, [0xc0c02952, 0xbeefd63a, 0xde601e78, 0x27bcdf2c, 0xa223800f, 0xd8aeda32]);
    SixWords(key, 8, [0xa4970a33, 0x1a78dc09, 0xc418c271, 0xe3a41d5d, 0x41879d52, 0x99294760]);
    KeyFrom(key, 0, 0x00010203, 0x04050607, 0x08090a0b, 0x0c0d0e0f);
    KeyFrom(key, 1, 0x10111213, 0x14151617, 0x5846f2f9, 0x5c43f4fe);
    KeyFrom(key, 2, 0x544afef5, 0x5847f0fa, 0x4856e2e9, 0x5c43f4fe);
    KeyFrom(key, 3, 0x40f949b3, 0x1cbabd4d, 0x48f043b8, 0x10b7b342);
    KeyFrom(key, 4, 0x58e151ab, 0x04a2a555, 0x7effb541, 0x6245080c);
    KeyFrom(key, 5, 0x2ab54bb4, 0x3a02f8f6, 0x62e3a95d, 0x66410c08);
    KeyFrom(key, 6, 0xf5018572, 0x97448d7e, 0xbdf1c6ca, 0x87f33e3c);
    KeyFrom(key, 7, 0xe5109761, 0x83519b69, 0x34157c9e, 0xa351f1e0);
    KeyFrom(key, 8, 0x1ea0372a, 0x99530916, 0x7c439e77, 0xff12051e);
    KeyFrom(key, 9, 0xdd7e0e88, 0x7e2fff68, 0x608fc842, 0xf9dcc154);
    KeyFrom(key, 10, 0x859f5f23, 0x7a8d5a3d, 0xc0c02952, 0xbeefd63a);
    KeyFrom(key, 11, 0xde601e78, 0x27bcdf2c, 0xa223800f, 0xd8aeda32);
    KeyFrom(key, 12, 0xa4970a33, 0x1a78dc09, 0xc418c271, 0xe3a41d5d);
  }

  /** Appendix C.2. */
  lemma {:induction false} Ciphertext192()
    ensures Cipher(Aes(AES_BOX), PLAIN, Schedule(AES_BOX, Key(C192))) == B(0xdda97ca4, 0x864cdfe0, 0x6eaf70a0, 0xec0d7191)
  {
    hide StateIs, KeyIs, B, SubShift, MixColumns, AddRoundKey, Cipher, Aes, Schedule;
    var key := Key(C192);
    C192Keys();
    C192Subs0();
    C192Subs1();
    C192Subs2();
    C192Mixes0();
    C192Mixes1();
    C192Mixes2();
    C192Mixes3();
    C192Mixes4();
    StartIs(key, B(0x00010203, 0x04050607, 0x08090a0b, 0x0c0d0e0f));
    RoundIs(key, 0, B(0x00102030, 0x40506070, 0x8090a0b0, 0xc0d0e0f0), B(0x10111213, 0x14151617, 0x5846f2f9, 0x5c43f4fe));
    RoundIs(key, 1, B(0x4f637606, 0x43e0aa85, 0xaff8c9d0, 0x41fa0de4), B(0x544afef5, 0x5847f0fa, 0x4856e2e9, 0x5c43f4fe));
    RoundIs(key, 2, B(0xcb02818c, 0x17d2af9c, 0x62aa6442, 0x8bb25fd7), B(0x40f949b3, 0x1cbabd4d, 0x48f043b8, 0x10b7b342));
    RoundIs(key, 3, B(0xf75c7778, 0xa327c8ed, 0x8cfebfc1, 0xa6c37f53), B(0x58e151ab, 0x04a2a555, 0x7effb541, 0x6245080c));
    RoundIs(key, 4, B(0x22ffc916, 0xa8147441, 0x6496f19c, 0x64ae2532), B(0x2ab54bb4, 0x3a02f8f6, 0x62e3a95d, 0x66410c08));
    RoundIs(key, 5, B(0x80121e07, 0x76fd1d8a, 0x8d8c31bc, 0x965d1fee), B(0xf5018572, 0x97448d7e, 0xbdf1c6ca, 0x87f33e3c));
    RoundIs(key, 6, B(0x671ef1fd, 0x4e2a1e03, 0xdfdcb1ef, 0x3d789b30), B(0xe5109761, 0x83519b69, 0x34157c9e, 0xa351f1e0));
    RoundIs(key, 7, B(0x0c0370d0, 0x0c01e622, 0x166b8acc, 0xd6db3a2c), B(0x1ea0372a, 0x99530916, 0x7c439e77, 0xff12051e));
    RoundIs(key, 8, B(0x7255dad3, 0x0fb80310, 0xe00d6c6b, 0x40d0527c), B(0xdd7e0e88, 0x7e2fff68, 0x608fc842, 0xf9dcc154));
    RoundIs(key, 9, B(0xa906b254, 0x968af4e9, 0xb4bdb2d2, 0xf0c44336), B(0x859f5f23, 0x7a8d5a3d, 0xc0c02952, 0xbeefd63a));
    RoundIs(key, 10, B(0x88ec930e, 0xf5e7e4b6, 0xcc32f4c9, 0x06d29414), B(0xde601e78, 0x27bcdf2c, 0xa223800f, 0xd8aeda32));
    LastIs(key, B(0xafb73eeb, 0x1cd1b851, 0x62280f27, 0xfb20d585), B(0xa4970a33, 0x1a78dc09, 0xc418c271, 0xe3a41d5d));
  }

  lemma {:induction false} C192Subs0()
    ensures SubShift(AES_BOX, B(0x00102030, 0x40506070, 0x8090a0b0, 0xc0d0e0f0))
         == B(0x6353e08c, 0x0960e104, 0xcd70b751, 0xbacad0e7)
    ensures SubShift(AES_BOX, B(0x4f637606, 0x43e0aa85, 0xaff8c9d0, 0x41fa0de4))
         == B(0x84e1dd69, 0x1a41d76f, 0x792d3897, 0x83fbac70)
    ensures SubShift(AES_BOX, B(0xcb02818c, 0x17d2af9c, 0x62aa6442, 0x8bb25fd7))
         == B(0x1fb5430e, 0xf0accf64, 0xaa370cde, 0x3d77792c)
    ensures SubShift(AES_BOX, B(0xf75c7778, 0xa327c8ed, 0x8cfebfc1, 0xa6c37f53))
         == B(0x68cc08ed, 0x0abbd2bc, 0x642ef555, 0x244ae878)
    ensures SubShift(AES_BOX, B(0x22ffc916, 0xa8147441, 0x6496f19c, 0x64ae2532))
         == B(0x93faa123, 0xc2903f47, 0x43e4dd83, 0x431692de)
  {
  }

  lemma {:induction false} C192Subs1()
    ensures SubShift(AES_BOX, B(0x80121e07, 0x76fd1d8a, 0x8d8c31bc, 0x965d1fee))
         == B(0xcd54c728, 0x3864c0c5, 0x5d4c727e, 0x90c9a465)
    ensures SubShift(AES_BOX, B(0x671ef1fd, 0x4e2a1e03, 0xdfdcb1ef, 0x3d789b30))
         == B(0x85e5c804, 0x2f861454, 0x9ebca17b, 0x277272df)
    ensures SubShift(AES_BOX, B(0x0c0370d0, 0x0c01e622, 0x166b8acc, 0xd6db3a2c))
         == B(0xfe7c7e71, 0xfe7f8070, 0x47b95193, 0xf67b8e4b)
    ensures SubShift(AES_BOX, B(0x7255dad3, 0x0fb80310, 0xe00d6c6b, 0x40d0527c))
         == B(0x406c5010, 0x76d70066, 0xe17057ca, 0x09fc7b7f)
    ensures SubShift(AES_BOX, B(0xa906b254, 0x968af4e9, 0xb4bdb2d2, 0xf0c44336))
         == B(0xd37e3705, 0x907a1a20, 0x8d1c371e, 0x8c6fbfb5)
  {
  }

  lemma {:induction false} C192Subs2()
    ensures SubShift(AES_BOX, B(0x88ec930e, 0xf5e7e4b6, 0xcc32f4c9, 0x06d29414))
         == B(0xc494bffa, 0xe62322ab, 0x4bb5dc4e, 0x6fce69dd)
    ensures SubShift(AES_BOX, B(0xafb73eeb, 0x1cd1b851, 0x62280f27, 0xfb20d585))
         == B(0x793e7697, 0x9c3403e9, 0xaab7b2d1, 0x0fa96ccc)
  {
  }

  lemma {:induction false} C192Mixes0()
    ensures AddRoundKey(PLAIN, B(0x00010203, 0x04050607, 0x08090a0b, 0x0c0d0e0f)) == B(0x00102030, 0x40506070, 0x8090a0b0, 0xc0d0e0f0)
    ensures AddRoundKey(MixColumns(B(0x6353e08c, 0x0960e104, 0xcd70b751, 0xbacad0e7)),
                        B(0x10111213, 0x14151617, 0x5846f2f9, 0x5c43f4fe))
         == B(0x4f637606, 0x43e0aa85, 0xaff8c9d0, 0x41fa0de4)
    ensures AddRoundKey(MixColumns(B(0x84e1dd69, 0x1a41d76f, 0x792d3897, 0x83fbac70)),
                        B(0x544afef5, 0x5847f0fa, 0x4856e2e9, 0x5c43f4fe))
         == B(0xcb02818c, 0x17d2af9c, 0x62aa6442, 0x8bb25fd7)
  {
  }

  lemma {:induction false} C192Mixes1()
    ensures AddRoundKey(MixColumns(B(0x1fb5430e, 0xf0accf64, 0xaa370cde, 0x3d77792c)),
                        B(0x40f949b3, 0x1cbabd4d, 0x48f043b8, 0x10b7b342))
         == B(0xf75c7778, 0xa327c8ed, 0x8cfebfc1, 0xa6c37f53)
    ensures AddRoundKey(MixColumns(B(0x68cc08ed, 0x0abbd2bc, 0x642ef555, 0x244ae878)),
                        B(0x58e151ab, 0x04a2a555, 0x7effb541, 0x6245080c))
         == B(0x22ffc916, 0xa8147441, 0x6496f19c, 0x64ae2532)
    ensures AddRoundKey(MixColumns(B(0x93faa123, 0xc2903f47, 0x43e4dd83, 0x431692de)),
                        B(0x2ab54bb4, 0x3a02f8f6, 0x62e3a95d, 0x66410c08))
         == B(0x80121e07, 0x76fd1d8a, 0x8d8c31bc, 0x965d1fee)
  {
  }

  lemma {:induction false} C192Mixes2()
    ensures AddRoundKey(MixColumns(B(0xcd54c728, 0x3864c0c5, 0x5d4c727e, 0x90c9a465)),
                        B(0xf5018572, 0x97448d7e, 0xbdf1c6ca, 0x87f33e3c))
         == B(0x671ef1fd, 0x4e2a1e03, 0xdfdcb1ef, 0x3d789b30)
    ensures AddRoundKey(MixColumns(B(0x85e5c804, 0x2f861454, 0x9ebca17b, 0x277272df)),
                        B(0xe5109761, 0x83519b69, 0x34157c9e, 0xa351f1e0))
         == B(0x0c0370d0, 0x0c01e622, 0x166b8acc, 0xd6db3a2c)
    ensures AddRoundKey(MixColumns(B(0xfe7c7e71, 0xfe7f8070, 0x47b95193, 0xf67b8e4b)),
                        B(0x1ea0372a, 0x99530916, 0x7c439e77, 0xff12051e))
         == B(0x7255dad3, 0x0fb80310, 0xe00d6c6b, 0x40d0527c)
  {
  }

  lemma {:induction false} C192Mixes3()
    ensures AddRoundKey(MixColumns(B(0x406c5010, 0x76d70066, 0xe17057ca, 0x09fc7b7f)),
                        B(0xdd7e0e88, 0x7e2fff68, 0x608fc842, 0xf9dcc154))
         == B(0xa906b254, 0x968af4e9, 0xb4bdb2d2, 0xf0c44336)
    ensures AddRoundKey(MixColumns(B(0xd37e3705, 0x907a1a20, 0x8d1c371e, 0x8c6fbfb5)),
                        B(0x859f5f23, 0x7a8d5a3d, 0xc0c02952, 0xbeefd63a))
         == B(0x88ec930e, 0xf5e7e4b6, 0xcc32f4c9, 0x06d29414)
    ensures AddRoundKey(MixColumns(B(0xc494bffa, 0xe62322ab, 0x4bb5dc4e, 0x6fce69dd)),
                        B(0xde601e78, 0x27bcdf2c, 0xa223800f, 0xd8aeda32))
         == B(0xafb73eeb, 0x1cd1b851, 0x62280f27, 0xfb20d585)
  {
  }

  lemma {:induction false} C192Mixes4()
    ensures AddRoundKey(B(0x793e7697, 0x9c3403e9, 0xaab7b2d1, 0x0fa96ccc),
                        B(0xa4970a33, 0x1a78dc09, 0xc418c271, 0xe3a41d5d))
         == B(0xdda97ca4, 0x864cdfe0, 0x6eaf70a0, 0xec0d7191)
  {
  }

  const C256: seq<U32> := [0x00010203, 0x04050607, 0x08090a0b, 0x0c0d0e0f, 0x10111213, 0x14151617, 0x18191a1b, 0x1c1d1e1f]

  /** The expanded key of appendix C.3. */
  lemma {:induction false} ExpandedC256()
    ensures GroupAt(Key(C256), 0, [0x00010203, 0x04050607, 0x08090a0b, 0x0c0d0e0f, 0x10111213, 0x14151617, 0x18191a1b, 0x1c1d1e1f])
    ensures GroupAt(Key(C256), 1, [0xa573c29f, 0xa176c498, 0xa97fce93, 0xa572c09c, 0x1651a8cd, 0x0244beda, 0x1a5da4c1, 0x0640bade])
    ensures GroupAt(Key(C256), 2, [0xae87dff0, 0x0ff11b68, 0xa68ed5fb, 0x03fc1567, 0x6de1f148, 0x6fa54f92, 0x75f8eb53, 0x73b8518d])
    ensures GroupAt(Key(C256), 3, [0xc656827f, 0xc9a79917, 0x6f294cec, 0x6cd5598b, 0x3de23a75, 0x524775e7, 0x27bf9eb4, 0x5407cf39])
    ensures GroupAt(Key(C256), 4, [0x0bdc905f, 0xc27b0948, 0xad5245a4, 0xc1871c2f, 0x45f5a660, 0x17b2d387, 0x300d4d33, 0x640a820a])
  {
    hide W, WordIs, GroupAt, Key, SubWord, RotWord, IsRcon;
    var key := Key(C256);
    FirstGroup(C256);
    Rcons();
    C256Words();
    Turn(key, 0, 0x01000000, [0x00010203, 0x04050607, 0x08090a0b, 0x0c0d0e0f, 0x10111213, 0x14151617, 0x18191a1b, 0x1c1d1e1f],
         [0xa573c29f, 0xa176c498, 0xa97fce93, 0xa572c09c, 0x1651a8cd, 0x0244beda, 0x1a5da4c1, 0x0640bade]);
    Turn(key, 1, 0x02000000, [0xa573c29f, 0xa176c498, 0xa97fce93, 0xa572c09c, 0x1651a8cd, 0x0244beda, 0x1a5da4c1, 0x0640bade],
         [0xae87dff0, 0x0ff11b68, 0xa68ed5fb, 0x03fc1567, 0x6de1f148, 0x6fa54f92, 0x75f8eb53, 0x73b8518d]);
    Turn(key, 2, 0x04000000, [0xae87dff0, 0x0ff11b68, 0xa68ed5fb, 0x03fc1567, 0x6de1f148, 0x6fa54f92, 0x75f8eb53, 0x73b8518d],
         [0xc656827f, 0xc9a79917, 0x6f294cec, 0x6cd5598b, 0x3de23a75, 0x524775e7, 0x27bf9eb4, 0x5407cf39]);
    Turn(key, 3, 0x08000000, [0xc656827f, 0xc9a79917, 0x6f294cec, 0x6cd5598b, 0x3de23a75, 0x524775e7, 0x27bf9eb4, 0x5407cf39],
         [0x0bdc905f, 0xc27b0948, 0xad5245a4, 0xc1871c2f, 0x45f5a660, 0x17b2d387, 0x300d4d33, 0x640a820a]);
  }

  lemma {:induction false} ExpandedC256Rest()
    ensures GroupAt(Key(C256), 5, [0x7ccff71c, 0xbeb4fe54, 0x13e6bbf0, 0xd261a7df, 0xf01afafe, 0xe7a82979, 0xd7a5644a, 0xb3afe640])
    ensures GroupAt(Key(C256), 6, [0x2541fe71, 0x9bf50025, 0x8813bbd5, 0x5a721c0a, 0x4e5a6699, 0xa9f24fe0, 0x7e572baa, 0xcdf8cdea])
    ensures GroupAt(Key(C256), 7, [0x24fc79cc, 0xbf0979e9, 0x371ac23c, 0x6d68de36, 0x721f7b9c, 0xdbed347c, 0xa5ba1fd6, 0x6842d23c])
  {
    hide W, WordIs, GroupAt, Key, SubWord, RotWord, IsRcon;
    var key := Key(C256);
    ExpandedC256();
    Rcons();
    C256Words();
    Turn(key, 4, 0x10000000, [0x0bdc905f, 0xc27b0948, 0xad5245a4, 0xc1871c2f, 0x45f5a660, 0x17b2d387, 0x300d4d33, 0x640a820a],
         [0x7ccff71c, 0xbeb4fe54, 0x13e6bbf0, 0xd261a7df, 0xf01afafe, 0xe7a82979, 0xd7a5644a, 0xb3afe640]);
    Turn(key, 5, 0x20000000, [0x7ccff71c, 0xbeb4fe54, 0x13e6bbf0, 0xd261a7df, 0xf01afafe, 0xe7a82979, 0xd7a5644a, 0xb3afe640],
         [0x2541fe71, 0x9bf50025, 0x8813bbd5, 0x5a721c0a, 0x4e5a6699, 0xa9f24fe0, 0x7e572baa, 0xcdf8cdea]);
    Turn(key, 6, 0x40000000, [0x2541fe71, 0x9bf50025, 0x8813bbd5, 0x5a721c0a, 0x4e5a6699, 0xa9f24fe0, 0x7e572baa, 0xcdf8cdea],
         [0x24fc79cc, 0xbf0979e9, 0x371ac23c, 0x6d68de36, 0x721f7b9c, 0xdbed347c, 0xa5ba1fd6, 0x6842d23c]);
  }

  lemma {:induction false} C256Words()
    ensures SubWord(RotWord(0x1c1d1e1f)) == 0xa472c09c
    ensures SubWord(0xa572c09c) == 0x0640bade
    ensures SubWord(RotWord(0x0640bade)) == 0x09f41d6f
    ensures SubWord(0x03fc1567) == 0x7bb05985
    ensures SubWord(RotWord(0x73b8518d)) == 0x6cd15d8f
    ensures SubWord(0x6cd5598b) == 0x5003cb3d
    ensures SubWord(RotWord(0x5407cf39)) == 0xc58a1220
    ensures SubWord(0xc1871c2f) == 0x78179c15
    ensures SubWord(RotWord(0x640a820a)) == 0x67136743
    ensures SubWord(0xd261a7df) == 0xb5ef5c9e
    ensures SubWord(RotWord(0xb3afe640)) == 0x798e096d
    ensures SubWord(0x5a721c0a) == 0xbe409c67
    ensures SubWord(RotWord(0xcdf8cdea)) == 0x41bd87bd
    ensures SubWord(0x6d68de36) == 0x3c451d05
  {
  }

  lemma {:induction false} C256Keys()
    ensures KeyIs(Key(C256), 0, B(0x00010203, 0x04050607, 0x08090a0b, 0x0c0d0e0f))
    ensures KeyIs(Key(C256), 1, B(0x10111213, 0x14151617, 0x18191a1b, 0x1c1d1e1f))
    ensures KeyIs(Key(C256), 2, B(0xa573c29f, 0xa176c498, 0xa97fce93, 0xa572c09c))
    ensures KeyIs(Key(C256), 3, B(0x1651a8cd, 0x0244beda, 0x1a5da4c1, 0x0640bade))
    ensures KeyIs(Key(C256), 4, B(0xae87dff0, 0x0ff11b68, 0xa68ed5fb, 0x03fc1567))
    ensures KeyIs(Key(C256), 5, B(0x6de1f148, 0x6fa54f92, 0x75f8eb53, 0x73b8518d))
    ensures KeyIs(Key(C256), 6, B(0xc656827f, 0xc9a79917, 0x6f294cec, 0x6cd5598b))
    ensures KeyIs(Key(C256), 7, B(0x3de23a75, 0x524775e7, 0x27bf9eb4, 0x5407cf39))
    ensures KeyIs(Key(C256), 8, B(0x0bdc905f, 0xc27b0948, 0xad5245a4, 0xc1871c2f))
    ensures KeyIs(Key(C256), 9, B(0x45f5a660, 0x17b2d387, 0x300d4d33, 0x640a820a))
    ensures KeyIs(Key(C256), 10, B(0x7ccff71c, 0xbeb4fe54, 0x13e6bbf0, 0xd261a7df))
    ensures KeyIs(Key(C256), 11, B(0xf01afafe, 0xe7a82979, 0xd7a5644a, 0xb3afe640))
    ensures KeyIs(Key(C256), 12, B(0x2541fe71, 0x9bf50025, 0x8813bbd5, 0x5a721c0a))
    ensures KeyIs(Key(C256), 13, B(0x4e5a6699, 0xa9f24fe0, 0x7e572baa, 0xcdf8cdea))
    ensures KeyIs(Key(C256), 14, B(0x24fc79cc, 0xbf0979e9, 0x371ac23c, 0x6d68de36))
  {
    hide WordIs, KeyIs, GroupAt, B;
    var key := Key(C256);
    ExpandedC256();
    ExpandedC256Rest();
    EightWords(key, 0, [0x00010203, 0x04050607, 0x08090a0b, 0x0c0d0e0f, 0x10111213, 0x14151617, 0x18191a1b, 0x1c1d1e1f]);
    EightWords(key, 1, [0xa573c29f, 0xa176c498, 0xa97fce93, 0xa572c09c, 0x1651a8cd, 0x0244beda, 0x1a5da4c1, 0x0640bade]);
    EightWords(key, 2, [0xae87dff0, 0x0ff11b68, 0xa68ed5fb, 0x03fc1567, 0x6de1f148, 0x6fa54f92, 0x75f8eb53, 0x73b8518d]);
    EightWords(key, 3, [0xc656827f, 0xc9a79917, 0x6f294cec, 0x6cd5598b, 0x3de23a75, 0x524775e7, 0x27bf9eb4, 0x5407cf39]);
    EightWords(key, 4, [0x0bdc905f, 0xc27b0948, 0xad5245a4, 0xc1871c2f, 0x45f5a660, 0x17b2d387, 0x300d4d33, 0x640a820a]);
    EightWords(key, 5, [0x7ccff71c, 0xbeb4fe54, 0x13e6bbf0, 0xd261a7df, 0xf01afafe, 0xe7a82979, 0xd7a5644a, 0xb3afe640]);
    EightWords(key, 6, [0x2541fe71, 0x9bf50025, 0x8813bbd5, 0x5a721c0a, 0x4e5a6699, 0xa9f24fe0, 0x7e572baa, 0xcdf8cdea]);
    EightWords(key, 7, [0x24fc79cc, 0xbf0979e9, 0x371ac23c, 0x6d68de36, 0x721f7b9c, 0xdbed347c, 0xa5ba1fd6, 0x6842d23c]);
    KeyFrom(key, 0, 0x00010203, 0x04050607, 0x08090a0b, 0x0c0d0e0f);
    KeyFrom(key, 1, 0x10111213, 0x14151617, 0x18191a1b, 0x1c1d1e1f);
    KeyFrom(key, 2, 0xa573c29f, 0xa176c498, 0xa97fce93, 0xa572c09c);
    KeyFrom(key, 3, 0x1651a8cd, 0x0244beda, 0x1a5da4c1, 0x0640bade);
    KeyFrom(key, 4, 0xae87dff0, 0x0ff11b68, 0xa68ed5fb, 0x03fc1567);
    KeyFrom(key, 5, 0x6de1f148, 0x6fa54f92, 0x75f8eb53, 0x73b8518d);
    KeyFrom(key, 6, 0xc656827f, 0xc9a79917, 0x6f294cec, 0x6cd5598b);
    KeyFrom(key, 7, 0x3de23a75, 0x524775e7, 0x27bf9eb4, 0x5407cf39);
    KeyFrom(key, 8, 0x0bdc905f, 0xc27b0948, 0xad5245a4, 0xc1871c2f);
    KeyFrom(key, 9, 0x45f5a660, 0x17b2d387, 0x300d4d33, 0x640a820a);
    KeyFrom(key, 10, 0x7ccff71c, 0xbeb4fe54, 0x13e6bbf0, 0xd261a7df);
    KeyFrom(key, 11, 0xf01afafe, 0xe7a82979, 0xd7a5644a, 0xb3afe640);
    KeyFrom(key, 12, 0x2541fe71, 0x9bf50025, 0x8813bbd5, 0x5a721c0a);
    KeyFrom(key, 13, 0x4e5a6699, 0xa9f24fe0, 0x7e572baa, 0xcdf8cdea);
    KeyFrom(key, 14, 0x24fc79cc, 0xbf0979e9, 0x371ac23c, 0x6d68de36);
  }

  /** Appendix C.3. */
  lemma {:induction false} Ciphertext256()
    ensures Cipher(Aes(AES_BOX), PLAIN, Schedule(AES_BOX, Key(C256))) == B(0x8ea2b7ca, 0x516745bf, 0xeafc4990, 0x4b496089)
  {
    hide StateIs, KeyIs, B, SubShift, MixColumns, AddRoundKey, Cipher, Aes, Schedule;
    var key := Key(C256);
    C256Keys();
    C256Subs0();
    C256Subs1();
    C256Subs2();
    C256Mixes0();
    C256Mixes1();
    C256Mixes2();
    C256Mixes3();
    C256Mixes4();
    StartIs(key, B(0x00010203, 0x04050607, 0x08090a0b, 0x0c0d0e0f));
    RoundIs(key, 0, B(0x00102030, 0x40506070, 0x8090a0b0, 0xc0d0e0f0), B(0x10111213, 0x14151617, 0x18191a1b, 0x1c1d1e1f));
    RoundIs(key, 1, B(0x4f637606, 0x43e0aa85, 0xefa72132, 0x01a4e705), B(0xa573c29f, 0xa176c498, 0xa97fce93, 0xa572c09c));
    RoundIs(key, 2, B(0x1859fbc2, 0x8a1c00a0, 0x78ed8aad, 0xc42f6109), B(0x1651a8cd, 0x0244beda, 0x1a5da4c1, 0x0640bade));
    RoundIs(key, 3, B(0x975c66c1, 0xcb9f3fa8, 0xa93a28df, 0x8ee10f63), B(0xae87dff0, 0x0ff11b68, 0xa68ed5fb, 0x03fc1567));
    RoundIs(key, 4, B(0x1c05f271, 0xa417e04f, 0xf921c5c1, 0x04701554), B(0x6de1f148, 0x6fa54f92, 0x75f8eb53, 0x73b8518d));
    RoundIs(key, 5, B(0xc357aae1, 0x1b45b7b0, 0xa2c7bd28, 0xa8dc99fa), B(0xc656827f, 0xc9a79917, 0x6f294cec, 0x6cd5598b));
    RoundIs(key, 6, B(0x7f074143, 0xcb4e243e, 0xc10c815d, 0x8375d54c), B(0x3de23a75, 0x524775e7, 0x27bf9eb4, 0x5407cf39));
    RoundIs(key, 7, B(0xd653a469, 0x6ca0bc0f, 0x5acaab5d, 0xb96c5e7d), B(0x0bdc905f, 0xc27b0948, 0xad5245a4, 0xc1871c2f));
    RoundIs(key, 8, B(0x5aa85839, 0x5fd28d7d, 0x05e1a388, 0x68f3b9c5), B(0x45f5a660, 0x17b2d387, 0x300d4d33, 0x640a820a));
    RoundIs(key, 9, B(0x4a824851, 0xc57e7e47, 0x643de50c, 0x2af3e8c9), B(0x7ccff71c, 0xbeb4fe54, 0x13e6bbf0, 0xd261a7df));
    RoundIs(key, 10, B(0xc14907f6, 0xca3b3aa0, 0x70e9aa31, 0x3b52b5ec), B(0xf01afafe, 0xe7a82979, 0xd7a5644a, 0xb3afe640));
    RoundIs(key, 11, B(0x5f9c6abf, 0xbac634aa, 0x50409fa7, 0x66677653), B(0x2541fe71, 0x9bf50025, 0x8813bbd5, 0x5a721c0a));
    RoundIs(key, 12, B(0x51660495, 0x43539503, 0x14fb86e4, 0x01922521), B(0x4e5a6699, 0xa9f24fe0, 0x7e572baa, 0xcdf8cdea));
    LastIs(key, B(0x627bceb9, 0x999d5aaa, 0xc945ecf4, 0x23f56da5), B(0x24fc79cc, 0xbf0979e9, 0x371ac23c, 0x6d68de36));
  }

  lemma {:induction false} C256Subs0()
    ensures SubShift(AES_BOX, B(0x00102030, 0x40506070, 0x8090a0b0, 0xc0d0e0f0))
         == B(0x6353e08c, 0x0960e104, 0xcd70b751, 0xbacad0e7)
    ensures SubShift(AES_BOX, B(0x4f637606, 0x43e0aa85, 0xefa72132, 0x01a4e705))
         == B(0x84e1fd6b, 0x1a5c946f, 0xdf493897, 0x7cfbac23)
    ensures SubShift(AES_BOX, B(0x1859fbc2, 0x8a1c00a0, 0x78ed8aad, 0xc42f6109))
         == B(0xad9c7e01, 0x7e55ef25, 0xbc150fe0, 0x1ccb6395)
    ensures SubShift(AES_BOX, B(0x975c66c1, 0xcb9f3fa8, 0xa93a28df, 0x8ee10f63))
         == B(0x88db34fb, 0x1f807678, 0xd3f833c2, 0x194a759e)
    ensures SubShift(AES_BOX, B(0x1c05f271, 0xa417e04f, 0xf921c5c1, 0x04701554))
         == B(0x9cf0a620, 0x49fd59a3, 0x99518984, 0xf26be178)
  {
  }

  lemma {:induction false} C256Subs1()
    ensures SubShift(AES_BOX, B(0xc357aae1, 0x1b45b7b0, 0xa2c7bd28, 0xa8dc99fa))
         == B(0x2e6e7a2d, 0xafc6eef8, 0x3a86ace7, 0xc25ba934)
    ensures SubShift(AES_BOX, B(0x7f074143, 0xcb4e243e, 0xc10c815d, 0x8375d54c))
         == B(0xd22f0c29, 0x1ffe031a, 0x789d83b2, 0xecc5364c)
    ensures SubShift(AES_BOX, B(0xd653a469, 0x6ca0bc0f, 0x5acaab5d, 0xb96c5e7d))
         == B(0xf6e062ff, 0x507458f9, 0xbe504976, 0x56ed654c)
    ensures SubShift(AES_BOX, B(0x5aa85839, 0x5fd28d7d, 0x05e1a388, 0x68f3b9c5))
         == B(0xbeb50aa6, 0xcff85612, 0x6b0d6aff, 0x45c25dc4)
    ensures SubShift(AES_BOX, B(0x4a824851, 0xc57e7e47, 0x643de50c, 0x2af3e8c9))
         == B(0xd6f3d9dd, 0xa6279bd1, 0x430d52a0, 0xe513f3fe)
  {
  }

  lemma {:induction false} C256Subs2()
    ensures SubShift(AES_BOX, B(0xc14907f6, 0xca3b3aa0, 0x70e9aa31, 0x3b52b5ec))
         == B(0x78e2acce, 0x741ed542, 0x5100c5e0, 0xe23b80c7)
    ensures SubShift(AES_BOX, B(0x5f9c6abf, 0xbac634aa, 0x50409fa7, 0x66677653))
         == B(0xcfb4dbed, 0xf4093808, 0x538502ac, 0x33de185c)
    ensures SubShift(AES_BOX, B(0x51660495, 0x43539503, 0x14fb86e4, 0x01922521))
         == B(0xd1ed44fd, 0x1a0f3f2a, 0xfa4ff27b, 0x7c332a69)
    ensures SubShift(AES_BOX, B(0x627bceb9, 0x999d5aaa, 0xc945ecf4, 0x23f56da5))
         == B(0xaa5ece06, 0xee6e3c56, 0xdde68bac, 0x2621bebf)
  {
  }

  lemma {:induction false} C256Mixes0()
    ensures AddRoundKey(PLAIN, B(0x00010203, 0x04050607, 0x08090a0b, 0x0c0d0e0f)) == B(0x00102030, 0x40506070, 0x8090a0b0, 0xc0d0e0f0)
    ensures AddRoundKey(MixColumns(B(0x6353e08c, 0x0960e104, 0xcd70b751, 0xbacad0e7)),
                        B(0x10111213, 0x14151617, 0x18191a1b, 0x1c1d1e1f))
         == B(0x4f637606, 0x43e0aa85, 0xefa72132, 0x01a4e705)
    ensures AddRoundKey(MixColumns(B(0x84e1fd6b, 0x1a5c946f, 0xdf493897, 0x7cfbac23)),
                        B(0xa573c29f, 0xa176c498, 0xa97fce93, 0xa572c09c))
         == B(0x1859fbc2, 0x8a1c00a0, 0x78ed8aad, 0xc42f6109)
  {
  }

  lemma {:induction false} C256Mixes1()
    ensures AddRoundKey(MixColumns(B(0xad9c7e01, 0x7e55ef25, 0xbc150fe0, 0x1ccb6395)),
                        B(0x1651a8cd, 0x0244beda, 0x1a5da4c1, 0x0640bade))
         == B(0x975c66c1, 0xcb9f3fa8, 0xa93a28df, 0x8ee10f63)
    ensures AddRoundKey(MixColumns(B(0x88db34fb, 0x1f807678, 0xd3f833c2, 0x194a759e)),
                        B(0xae87dff0, 0x0ff11b68, 0xa68ed5fb, 0x03fc1567))
         == B(0x1c05f271, 0xa417e04f, 0xf921c5c1, 0x04701554)
    ensures AddRoundKey(MixColumns(B(0x9cf0a620, 0x49fd59a3, 0x99518984, 0xf26be178)),
                        B(0x6de1f148, 0x6fa54f92, 0x75f8eb53, 0x73b8518d))
         == B(0xc357aae1, 0x1b45b7b0, 0xa2c7bd28, 0xa8dc99fa)
  {
  }

  lemma {:induction false} C256Mixes2()
    ensures AddRoundKey(MixColumns(B(0x2e6e7a2d, 0xafc6eef8, 0x3a86ace7, 0xc25ba934)),
                        B(0xc656827f, 0xc9a79917, 0x6f294cec, 0x6cd5598b))
         == B(0x7f074143, 0xcb4e243e, 0xc10c815d, 0x8375d54c)
    ensures AddRoundKey(MixColumns(B(0xd22f0c29, 0x1ffe031a, 0x789d83b2, 0xecc5364c)),
                        B(0x3de23a75, 0x524775e7, 0x27bf9eb4, 0x5407cf39))
         == B(0xd653a469, 0x6ca0bc0f, 0x5acaab5d, 0xb96c5e7d)
    ensures AddRoundKey(MixColumns(B(0xf6e062ff, 0x507458f9, 0xbe504976, 0x56ed654c)),
                        B(0x0bdc905f, 0xc27b0948, 0xad5245a4, 0xc1871c2f))
         == B(0x5aa85839, 0x5fd28d7d, 0x05e1a388, 0x68f3b9c5)
  {
  }

  lemma {:induction false} C256Mixes3()
    ensures AddRoundKey(MixColumns(B(0xbeb50aa6, 0xcff85612, 0x6b0d6aff, 0x45c25dc4)),
                        B(0x45f5a660, 0x17b2d387, 0x300d4d33, 0x640a820a))
         == B(0x4a824851, 0xc57e7e47, 0x643de50c, 0x2af3e8c9)
    ensures AddRoundKey(MixColumns(B(0xd6f3d9dd, 0xa6279bd1, 0x430d52a0, 0xe513f3fe)),
                        B(0x7ccff71c, 0xbeb4fe54, 0x13e6bbf0, 0xd261a7df))
         == B(0xc14907f6, 0xca3b3aa0, 0x70e9aa31, 0x3b52b5ec)
    ensures AddRoundKey(MixColumns(B(0x78e2acce, 0x741ed542, 0x5100c5e0, 0xe23b80c7)),
                        B(0xf01afafe, 0xe7a82979, 0xd7a5644a, 0xb3afe640))
         == B(0x5f9c6abf, 0xbac634aa, 0x50409fa7, 0x66677653)
  {
  }

  lemma {:induction false} C256Mixes4()
    ensures AddRoundKey(MixColumns(B(0xcfb4dbed, 0xf4093808, 0x538502ac, 0x33de185c)),
                        B(0x2541fe71, 0x9bf50025, 0x8813bbd5, 0x5a721c0a))
         == B(0x51660495, 0x43539503, 0x14fb86e4, 0x01922521)
    ensures AddRoundKey(MixColumns(B(0xd1ed44fd, 0x1a0f3f2a, 0xfa4ff27b, 0x7c332a69)),
                        B(0x4e5a6699, 0xa9f24fe0, 0x7e572baa, 0xcdf8cdea))
         == B(0x627bceb9, 0x999d5aaa, 0xc945ecf4, 0x23f56da5)
    ensures AddRoundKey(B(0xaa5ece06, 0xee6e3c56, 0xdde68bac, 0x2621bebf),
                        B(0x24fc79cc, 0xbf0979e9, 0x371ac23c, 0x6d68de36))
         == B(0x8ea2b7ca, 0x516745bf, 0xeafc4990, 0x4b496089)
  {
  }

  // ----- The same on bytes -----

  const PLAIN_BYTES: seq<U8> := [0x00, 0x11, 0x22, 0x33, 0x44, 0x55, 0x66, 0x77, 0x88, 0x99, 0xaa, 0xbb, 0xcc, 0xdd, 0xee, 0xff]

  lemma {:induction false} PlainBytes()
    ensures ToBlock(PLAIN_BYTES) == PLAIN
  {
  }

  lemma {:induction false} BlockBytes(b: seq<U8>, s: Block)
    requires |b| == BLOCK_SIZE && ToBlock(b) == s
    ensures FromBlock(s) == b
  {
    BytesBack(b);
  }

  lemma {:induction false} SameKey(bytes: seq<U8>, ws: seq<U32>)
    requires |bytes| == 4 * |ws| && forall j :: 0 <= j < |ws| ==>
      PutU32(ws[j]) == Column(bytes[4 * j], bytes[4 * j + 1], bytes[4 * j + 2], bytes[4 * j + 3])
    ensures KeyColumns(bytes, |ws|) == Key(ws)
  {
  }

  /** The bytes of key, plaintext and ciphertext. */
  lemma {:induction false} CipherBytes128()
    ensures var key := KeyColumns([0x00, 0x01, 0x02, 0x03, 0x04, 0x05, 0x06, 0x07, 0x08, 0x09, 0x0a, 0x0b, 0x0c, 0x0d, 0x0e, 0x0f], 4);
            Enciphered(AES_BOX, Schedule(AES_BOX, key), PLAIN_BYTES)
            == [0x69, 0xc4, 0xe0, 0xd8, 0x6a, 0x7b, 0x04, 0x30, 0xd8, 0xcd, 0xb7, 0x80, 0x70, 0xb4, 0xc5, 0x5a]
  {
    C128Key();
    Ciphertext128();
    hide Cipher, Aes, Schedule, S, Si, KeyColumns, Key;
    PlainBytes();
    C128Bytes();
    BlockBytes([0x69, 0xc4, 0xe0, 0xd8, 0x6a, 0x7b, 0x04, 0x30, 0xd8, 0xcd, 0xb7, 0x80, 0x70, 0xb4, 0xc5, 0x5a],
               B(0x69c4e0d8, 0x6a7b0430, 0xd8cdb780, 0x70b4c55a));
  }

  lemma {:induction false} C128Key()
    ensures KeyColumns([0x00, 0x01, 0x02, 0x03, 0x04, 0x05, 0x06, 0x07, 0x08, 0x09, 0x0a, 0x0b, 0x0c, 0x0d, 0x0e, 0x0f], 4) == Key(C128)
  {
    SameKey([0x00, 0x01, 0x02, 0x03, 0x04, 0x05, 0x06, 0x07, 0x08, 0x09, 0x0a, 0x0b, 0x0c, 0x0d, 0x0e, 0x0f], C128);
  }

  lemma {:induction false} C128Bytes()
    ensures ToBlock([0x69, 0xc4, 0xe0, 0xd8, 0x6a, 0x7b, 0x04, 0x30, 0xd8, 0xcd, 0xb7, 0x80, 0x70, 0xb4, 0xc5, 0x5a])
         == B(0x69c4e0d8, 0x6a7b0430, 0xd8cdb780, 0x70b4c55a)
  {
  }

  /** The bytes of key, plaintext and ciphertext. */
  lemma {:induction false} CipherBytes192()
    ensures var key := KeyColumns([0x00, 0x01, 0x02, 0x03, 0x04, 0x05, 0x06, 0x07, 0x08, 0x09, 0x0a, 0x0b, 0x0c, 0x0d, 0x0e, 0x0f, 0x10, 0x11, 0x12, 0x13, 0x14, 0x15, 0x16, 0x17], 6);
            Enciphered(AES_BOX, Schedule(AES_BOX, key), PLAIN_BYTES)
            == [0xdd, 0xa9, 0x7c, 0xa4, 0x86, 0x4c, 0xdf, 0xe0, 0x6e, 0xaf, 0x70, 0xa0, 0xec, 0x0d, 0x71, 0x91]
  {
    C192Key();
    Ciphertext192();
    hide Cipher, Aes, Schedule, S, Si, KeyColumns, Key;
    PlainBytes();
    C192Bytes();
    BlockBytes([0xdd, 0xa9, 0x7c, 0xa4, 0x86, 0x4c, 0xdf, 0xe0, 0x6e, 0xaf, 0x70, 0xa0, 0xec, 0x0d, 0x71, 0x91],
               B(0xdda97ca4, 0x864cdfe0, 0x6eaf70a0, 0xec0d7191));
  }

  lemma {:induction false} C192Key()
    ensures KeyColumns([0x00, 0x01, 0x02, 0x03, 0x04, 0x05, 0x06, 0x07, 0x08, 0x09, 0x0a, 0x0b, 0x0c, 0x0d, 0x0e, 0x0f, 0x10, 0x11, 0x12, 0x13, 0x14, 0x15, 0x16, 0x17], 6) == Key(C192)
  {
    SameKey([0x00, 0x01, 0x02, 0x03, 0x04, 0x05, 0x06, 0x07, 0x08, 0x09, 0x0a, 0x0b, 0x0c, 0x0d, 0x0e, 0x0f, 0x10, 0x11, 0x12, 0x13, 0x14, 0x15, 0x16, 0x17], C192);
  }

  lemma {:induction false} C192Bytes()
    ensures ToBlock([0xdd, 0xa9, 0x7c, 0xa4, 0x86, 0x4c, 0xdf, 0xe0, 0x6e, 0xaf, 0x70, 0xa0, 0xec, 0x0d, 0x71, 0x91])
         == B(0xdda97ca4, 0x864cdfe0, 0x6eaf70a0, 0xec0d7191)
  {
  }

  /** The bytes of key, plaintext and ciphertext. */
  lemma {:induction false} CipherBytes256()
    ensures var key := KeyColumns([0x00, 0x01, 0x02, 0x03, 0x04, 0x05, 0x06, 0x07, 0x08, 0x09, 0x0a, 0x0b, 0x0c, 0x0d, 0x0e, 0x0f, 0x10, 0x11, 0x12, 0x13, 0x14, 0x15, 0x16, 0x17, 0x18, 0x19, 0x1a, 0x1b, 0x1c, 0x1d, 0x1e, 0x1f], 8);
            Enciphered(AES_BOX, Schedule(AES_BOX, key), PLAIN_BYTES)
            == [0x8e, 0xa2, 0xb7, 0xca, 0x51, 0x67, 0x45, 0xbf, 0xea, 0xfc, 0x49, 0x90, 0x4b, 0x49, 0x60, 0x89]
  {
    C256Key();
    Ciphertext256();
    hide Cipher, Aes, Schedule, S, Si, KeyColumns, Key;
    PlainBytes();
    C256Bytes();
    BlockBytes([0x8e, 0xa2, 0xb7, 0xca, 0x51, 0x67, 0x45, 0xbf, 0xea, 0xfc, 0x49, 0x90, 0x4b, 0x49, 0x60, 0x89],
               B(0x8ea2b7ca, 0x516745bf, 0xeafc4990, 0x4b496089));
  }

  lemma {:induction false} KeyJoins(a: seq<U8>, b: seq<U8>, p: seq<U32>, q: seq<U32>)
    requires |a| == 4 * |p| && |b| == 4 * |q| && KeyColumns(a, |p|) == Key(p) && KeyColumns(b, |q|) == Key(q)
    ensures KeyColumns(a + b, |p + q|) == Key(p + q)
  {
    forall j | 0 <= j < |p + q|
      ensures KeyColumns(a + b, |p + q|)[j] == Key(p + q)[j]
    {
      if j < |p| {
        assert KeyColumns(a, |p|)[j] == Key(p)[j];
      } else {
        assert KeyColumns(b, |q|)[j - |p|] == Key(q)[j - |p|];
      }
    }
  }

  lemma {:induction false} C256Key()
    ensures KeyColumns([0x00, 0x01, 0x02, 0x03, 0x04, 0x05, 0x06, 0x07, 0x08, 0x09, 0x0a, 0x0b, 0x0c, 0x0d, 0x0e, 0x0f, 0x10, 0x11, 0x12, 0x13, 0x14, 0x15, 0x16, 0x17, 0x18, 0x19, 0x1a, 0x1b, 0x1c, 0x1d, 0x1e, 0x1f], 8) == Key(C256)
  {
    hide KeyColumns, Key, PutU32;
    var a, b := [0x00, 0x01, 0x02, 0x03, 0x04, 0x05, 0x06, 0x07, 0x08, 0x09, 0x0a, 0x0b, 0x0c, 0x0d, 0x0e, 0x0f], [0x10, 0x11, 0x12, 0x13, 0x14, 0x15, 0x16, 0x17, 0x18, 0x19, 0x1a, 0x1b, 0x1c, 0x1d, 0x1e, 0x1f];
    C128Key();
    C256KeyRest();
    KeyJoins(a, b, C128, [0x10111213, 0x14151617, 0x18191a1b, 0x1c1d1e1f]);
    assert a + b == [0x00, 0x01, 0x02, 0x03, 0x04, 0x05, 0x06, 0x07, 0x08, 0x09, 0x0a, 0x0b, 0x0c, 0x0d, 0x0e, 0x0f, 0x10, 0x11, 0x12, 0x13, 0x14, 0x15, 0x16, 0x17, 0x18, 0x19, 0x1a, 0x1b, 0x1c, 0x1d, 0x1e, 0x1f];
    assert C128 + [0x10111213, 0x14151617, 0x18191a1b, 0x1c1d1e1f] == C256;
  }

  lemma {:induction false} C256KeyRest()
    ensures KeyColumns([0x10, 0x11, 0x12, 0x13, 0x14, 0x15, 0x16, 0x17, 0x18, 0x19, 0x1a, 0x1b, 0x1c, 0x1d, 0x1e, 0x1f], 4) == Key([0x10111213, 0x14151617, 0x18191a1b, 0x1c1d1e1f])
  {
    SameKey([0x10, 0x11, 0x12, 0x13, 0x14, 0x15, 0x16, 0x17, 0x18, 0x19, 0x1a, 0x1b, 0x1c, 0x1d, 0x1e, 0x1f], [0x10111213, 0x14151617, 0x18191a1b, 0x1c1d1e1f]);
  }

  lemma {:induction false} C256Bytes()
    ensures ToBlock([0x8e, 0xa2, 0xb7, 0xca, 0x51, 0x67, 0x45, 0xbf, 0xea, 0xfc, 0x49, 0x90, 0x4b, 0x49, 0x60, 0x89])
         == B(0x8ea2b7ca, 0x516745bf, 0xeafc4990, 0x4b496089)
  {
  }
}
