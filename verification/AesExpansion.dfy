/** The key expansion with the S-box of the standard, group by group on 32-bit words, and the expanded keys of
    appendix A of FIPS 197. */
module AesExpansion {
  import opened AesField
  import opened AesWord
  import opened AesCipher
  import opened AesSbox
  import opened AesKeySchedule

  // ----- The expansion, on words of the standard -----

  function SubWord(w: U32): U32 { GetU32(SubColumn(S, PutU32(w))) }

  function RotWord(w: U32): U32 { w.RotateLeft(8) }

  /** A key of these words. */
  function Key(ws: seq<U32>): (key: seq<Column>)
    ensures |key| == |ws| && forall j :: 0 <= j < |ws| ==> key[j] == PutU32(ws[j])
  {
    seq(|ws|, j requires 0 <= j < |ws| => PutU32(ws[j]))
  }

  function Place(nk: nat, i: nat, k: nat): nat { i * nk + k }

  /** The i-th group of as many words as the key has. */
  ghost predicate GroupAt(key: seq<Column>, i: nat, g: seq<U32>)
    requires KeyLength(|key|)
  {
    |g| == |key| && forall j :: 0 <= j < |g| ==> WordIs(key, Place(|key|, i, j), g[j])
  }

  ghost predicate WordIs(key: seq<Column>, i: nat, w: U32)
    requires KeyLength(|key|)
  {
    W(AES_BOX, key, i) == PutU32(w)
  }

  /** What is added to word k of a group to give word k of the next: RotWord, SubWord and the round constant for the
      first, SubWord for the fifth of eight, and nothing but the word before for any other. */
  function Add(g: seq<U32>, h: seq<U32>, rcon: U32, k: nat): U32
    requires k < |g| == |h|
  {
    if k == 0 then XorW(SubWord(RotWord(g[|g| - 1])), rcon) else if |g| == 8 && k == 4 then SubWord(h[3]) else h[k - 1]
  }

  predicate FollowsAt(g: seq<U32>, h: seq<U32>, rcon: U32, k: nat)
    requires k < |g| == |h|
  {
    h[k] == XorW(g[k], Add(g, h, rcon, k))
  }

  predicate Follows(g: seq<U32>, h: seq<U32>, rcon: U32)
    requires |g| == |h| && KeyLength(|g|)
  {
    && FollowsAt(g, h, rcon, 0) && FollowsAt(g, h, rcon, 1) && FollowsAt(g, h, rcon, 2) && FollowsAt(g, h, rcon, 3)
    && (|g| >= 6 ==> FollowsAt(g, h, rcon, 4) && FollowsAt(g, h, rcon, 5))
    && (|g| == 8 ==> FollowsAt(g, h, rcon, 6) && FollowsAt(g, h, rcon, 7))
  }

  /** The round constant of turn i. */
  ghost predicate IsRcon(i: nat, rcon: U32) { PutU32(rcon) == Rcon(i + 1) }

  lemma {:induction false} RotIs(w: U32)
    ensures PutU32(RotWord(w)) == Rotate(PutU32(w))
  {
  }

  /** A word from the word before and the word one group back. */
  lemma {:induction false} NextWord(key: seq<Column>, i: nat, back: U32, prev: U32, added: U32)
    requires KeyLength(|key|) && |key| <= i && WordIs(key, i - |key|, back) && WordIs(key, i - 1, prev)
    requires PutU32(added) == Added(AES_BOX, |key|, i, PutU32(prev))
    ensures WordIs(key, i, XorW(back, added))
  {
    PutXor(back, added);
  }

  lemma {:induction false} FirstAdded(g: U32, i: nat, rcon: U32)
    requires IsRcon(i, rcon)
    ensures PutU32(XorW(SubWord(RotWord(g)), rcon)) == XorC(SubColumn(S, Rotate(PutU32(g))), Rcon(i + 1))
  {
    hide S;
    RotIs(g);
    PutGet(SubColumn(S, PutU32(RotWord(g))));
    PutXor(SubWord(RotWord(g)), rcon);
  }

  function AddedWord(nk: nat, rcon: U32, k: nat, prev: U32): U32 {
    if k == 0 then XorW(SubWord(RotWord(prev)), rcon) else if nk == 8 && k == 4 then SubWord(prev) else prev
  }

  lemma {:induction false} OtherAdded(nk: nat, i: nat, k: nat, prev: U32)
    requires KeyLength(nk) && 0 < k < nk
    ensures Place(nk, i + 1, k) >= nk && Added(AES_BOX, nk, Place(nk, i + 1, k), PutU32(prev)) == PutU32(if nk == 8 && k == 4 then SubWord(prev) else prev)
  {
    hide S, PutU32, GetU32;
    PutGet(SubColumn(S, PutU32(prev)));
    assert ((i + 1) * nk + k) % nk == k;
  }

  lemma {:induction false} FirstOf(nk: nat, i: nat, rcon: U32, prev: U32)
    requires KeyLength(nk) && IsRcon(i, rcon)
    ensures Place(nk, i + 1, 0) >= nk && Added(AES_BOX, nk, Place(nk, i + 1, 0), PutU32(prev)) == PutU32(XorW(SubWord(RotWord(prev)), rcon))
  {
    hide S, PutU32, SubWord, RotWord, Rcon;
    FirstAdded(prev, i, rcon);
    TurnStart(nk, i);
  }

  lemma {:induction false} AddedIs(nk: nat, i: nat, rcon: U32, k: nat, prev: U32)
    requires KeyLength(nk) && IsRcon(i, rcon) && k < nk
    ensures Place(nk, i + 1, k) >= nk && Added(AES_BOX, nk, Place(nk, i + 1, k), PutU32(prev)) == PutU32(AddedWord(nk, rcon, k, prev))
  {
    hide SubWord, RotWord, PutU32, Added, Place, XorW, IsRcon;
    if k == 0 {
      FirstOf(nk, i, rcon, prev);
    } else {
      OtherAdded(nk, i, k, prev);
    }
  }

  lemma {:induction false} Places(nk: nat, i: nat, k: nat)
    requires KeyLength(nk)
    ensures Place(nk, i + 1, k) == (i + 1) * nk + k && Place(nk, i + 1, k) - nk == Place(nk, i, k)
    ensures k > 0 ==> Place(nk, i + 1, k) - 1 == Place(nk, i + 1, k - 1)
    ensures k == 0 ==> Place(nk, i + 1, k) - 1 == Place(nk, i, nk - 1)
  {
  }

  /** One word of the next group, from what is added to the word of this one. */
  lemma {:induction false} TurnWord(key: seq<Column>, i: nat, rcon: U32, k: nat, back: U32, prev: U32)
    requires KeyLength(|key|) && IsRcon(i, rcon) && k < |key| && WordIs(key, Place(|key|, i, k), back)
    requires WordIs(key, if k == 0 then Place(|key|, i, |key| - 1) else Place(|key|, i + 1, k - 1), prev)
    ensures WordIs(key, Place(|key|, i + 1, k), XorW(back, AddedWord(|key|, rcon, k, prev)))
  {
    hide SubWord, RotWord, PutU32, WordIs, Added, Place, XorW, AddedWord, IsRcon;
    var nk := |key|;
    Places(nk, i, k);
    AddedIs(nk, i, rcon, k, prev);
    NextWord(key, Place(nk, i + 1, k), back, prev, AddedWord(nk, rcon, k, prev));
  }

  /** For every key: a group of the expanded key is followed by the group that follows it. */
  lemma {:induction false} Turn(key: seq<Column>, i: nat, rcon: U32, g: seq<U32>, h: seq<U32>)
    requires KeyLength(|key|) && IsRcon(i, rcon) && GroupAt(key, i, g) && |h| == |g| && Follows(g, h, rcon)
    ensures GroupAt(key, i + 1, h)
  {
    hide WordIs, Place, SubWord, RotWord, XorW, IsRcon;
    var k: nat := 0;
    while k < |g|
      invariant k <= |g| && forall j :: 0 <= j < k ==> WordIs(key, Place(|key|, i + 1, j), h[j])
    {
      assert FollowsAt(g, h, rcon, k);
      TurnWord(key, i, rcon, k, g[k], if k == 0 then g[|g| - 1] else h[k - 1]);
      k := k + 1;
    }
  }

  /** For every key and S-box, what word i differs by from the word one group back: the word before, rotated and
      substituted with the round constant at the start of a group, substituted in the middle of a group of eight,
      and as it is elsewhere. */
  lemma {:induction false} WordSteps(box: Box, key: seq<Column>, i: nat)
    requires KeyLength(|key|) && i >= |key|
    ensures var sum, prev := XorC(W(box, key, i), W(box, key, i - |key|)), W(box, key, i - 1);
            && (i % |key| == 0 ==> sum == XorC(SubColumn(box.s, Rotate(prev)), Rcon(i / |key|)))
            && (|key| == 8 && i % 8 == 4 ==> sum == SubColumn(box.s, prev))
            && (i % |key| != 0 && !(|key| == 8 && i % 8 == 4) ==> sum == prev)
  {
    hide W;
    var back, added := W(box, key, i - |key|), Added(box, |key|, i, W(box, key, i - 1));
    LaterWord(box, key, i);
    XorCComm(back, added);
    XorCCancels(added, back);
  }

  lemma {:induction false} LaterWord(box: Box, key: seq<Column>, i: nat)
    requires KeyLength(|key|) && i >= |key|
    ensures W(box, key, i) == XorC(W(box, key, i - |key|), Added(box, |key|, i, W(box, key, i - 1)))
  {
  }

  lemma {:induction false} XorCComm(a: Column, b: Column)
    ensures XorC(a, b) == XorC(b, a)
  {
    XorComm(a.b0, b.b0);
    XorComm(a.b1, b.b1);
    XorComm(a.b2, b.b2);
    XorComm(a.b3, b.b3);
  }

  // ----- Appendix A -----

  lemma {:induction false} Rcons()
    ensures IsRcon(0, 0x01000000) && IsRcon(1, 0x02000000) && IsRcon(2, 0x04000000) && IsRcon(3, 0x08000000)
    ensures IsRcon(4, 0x10000000) && IsRcon(5, 0x20000000) && IsRcon(6, 0x40000000) && IsRcon(7, 0x80000000)
    ensures IsRcon(8, 0x1b000000) && IsRcon(9, 0x36000000)
  {
    RconBytes();
  }

  lemma {:induction false} FirstGroup(ws: seq<U32>)
    requires KeyLength(|ws|)
    ensures GroupAt(Key(ws), 0, ws)
  {
  }

  const A128: seq<U32> := [0x2b7e1516, 0x28aed2a6, 0xabf71588, 0x09cf4f3c]

  /** Appendix A.1. */
  lemma {:induction false} ExpandedA128()
    ensures GroupAt(Key(A128), 0, [0x2b7e1516, 0x28aed2a6, 0xabf71588, 0x09cf4f3c])
    ensures GroupAt(Key(A128), 1, [0xa0fafe17, 0x88542cb1, 0x23a33939, 0x2a6c7605])
    ensures GroupAt(Key(A128), 2, [0xf2c295f2, 0x7a96b943, 0x5935807a, 0x7359f67f])
    ensures GroupAt(Key(A128), 3, [0x3d80477d, 0x4716fe3e, 0x1e237e44, 0x6d7a883b])
    ensures GroupAt(Key(A128), 4, [0xef44a541, 0xa8525b7f, 0xb671253b, 0xdb0bad00])
    ensures GroupAt(Key(A128), 5, [0xd4d1c6f8, 0x7c839d87, 0xcaf2b8bc, 0x11f915bc])
  {
    hide W, WordIs, GroupAt, Key, SubWord, RotWord, IsRcon;
    var key := Key(A128);
    FirstGroup(A128);
    Rcons();
    A128Words();
    Turn(key, 0, 0x01000000, [0x2b7e1516, 0x28aed2a6, 0xabf71588, 0x09cf4f3c],
         [0xa0fafe17, 0x88542cb1, 0x23a33939, 0x2a6c7605]);
    Turn(key, 1, 0x02000000, [0xa0fafe17, 0x88542cb1, 0x23a33939, 0x2a6c7605],
         [0xf2c295f2, 0x7a96b943, 0x5935807a, 0x7359f67f]);
    Turn(key, 2, 0x04000000, [0xf2c295f2, 0x7a96b943, 0x5935807a, 0x7359f67f],
         [0x3d80477d, 0x4716fe3e, 0x1e237e44, 0x6d7a883b]);
    Turn(key, 3, 0x08000000, [0x3d80477d, 0x4716fe3e, 0x1e237e44, 0x6d7a883b],
         [0xef44a541, 0xa8525b7f, 0xb671253b, 0xdb0bad00]);
    Turn(key, 4, 0x10000000, [0xef44a541, 0xa8525b7f, 0xb671253b, 0xdb0bad00],
         [0xd4d1c6f8, 0x7c839d87, 0xcaf2b8bc, 0x11f915bc]);
  }

  lemma {:induction false} ExpandedA128Rest()
    ensures GroupAt(Key(A128), 6, [0x6d88a37a, 0x110b3efd, 0xdbf98641, 0xca0093fd])
    ensures GroupAt(Key(A128), 7, [0x4e54f70e, 0x5f5fc9f3, 0x84a64fb2, 0x4ea6dc4f])
    ensures GroupAt(Key(A128), 8, [0xead27321, 0xb58dbad2, 0x312bf560, 0x7f8d292f])
    ensures GroupAt(Key(A128), 9, [0xac7766f3, 0x19fadc21, 0x28d12941, 0x575c006e])
    ensures GroupAt(Key(A128), 10, [0xd014f9a8, 0xc9ee2589, 0xe13f0cc8, 0xb6630ca6])
  {
    hide W, WordIs, GroupAt, Key, SubWord, RotWord, IsRcon;
    var key := Key(A128);
    ExpandedA128();
    Rcons();
    A128Words();
    Turn(key, 5, 0x20000000, [0xd4d1c6f8, 0x7c839d87, 0xcaf2b8bc, 0x11f915bc],
         [0x6d88a37a, 0x110b3efd, 0xdbf98641, 0xca0093fd]);
    Turn(key, 6, 0x40000000, [0x6d88a37a, 0x110b3efd, 0xdbf98641, 0xca0093fd],
         [0x4e54f70e, 0x5f5fc9f3, 0x84a64fb2, 0x4ea6dc4f]);
    Turn(key, 7, 0x80000000, [0x4e54f70e, 0x5f5fc9f3, 0x84a64fb2, 0x4ea6dc4f],
         [0xead27321, 0xb58dbad2, 0x312bf560, 0x7f8d292f]);
    Turn(key, 8, 0x1b000000, [0xead27321, 0xb58dbad2, 0x312bf560, 0x7f8d292f],
         [0xac7766f3, 0x19fadc21, 0x28d12941, 0x575c006e]);
    Turn(key, 9, 0x36000000, [0xac7766f3, 0x19fadc21, 0x28d12941, 0x575c006e],
         [0xd014f9a8, 0xc9ee2589, 0xe13f0cc8, 0xb6630ca6]);
  }

  lemma {:induction false} A128Words()
    ensures SubWord(RotWord(0x09cf4f3c)) == 0x8a84eb01
    ensures SubWord(RotWord(0x2a6c7605)) == 0x50386be5
    ensures SubWord(RotWord(0x7359f67f)) == 0xcb42d28f
    ensures SubWord(RotWord(0x6d7a883b)) == 0xdac4e23c
    ensures SubWord(RotWord(0xdb0bad00)) == 0x2b9563b9
    ensures SubWord(RotWord(0x11f915bc)) == 0x99596582
    ensures SubWord(RotWord(0xca0093fd)) == 0x63dc5474
    ensures SubWord(RotWord(0x4ea6dc4f)) == 0x2486842f
    ensures SubWord(RotWord(0x7f8d292f)) == 0x5da515d2
    ensures SubWord(RotWord(0x575c006e)) == 0x4a639f5b
  {
  }

  const A192: seq<U32> := [0x8e73b0f7, 0xda0e6452, 0xc810f32b, 0x809079e5, 0x62f8ead2, 0x522c6b7b]

  /** Appendix A.2. (Its last group is completed.) */
  lemma {:induction false} ExpandedA192()
    ensures GroupAt(Key(A192), 0, [0x8e73b0f7, 0xda0e6452, 0xc810f32b, 0x809079e5, 0x62f8ead2, 0x522c6b7b])
    ensures GroupAt(Key(A192), 1, [0xfe0c91f7, 0x2402f5a5, 0xec12068e, 0x6c827f6b, 0x0e7a95b9, 0x5c56fec2])
    ensures GroupAt(Key(A192), 2, [0x4db7b4bd, 0x69b54118, 0x85a74796, 0xe92538fd, 0xe75fad44, 0xbb095386])
    ensures GroupAt(Key(A192), 3, [0x485af057, 0x21efb14f, 0xa448f6d9, 0x4d6dce24, 0xaa326360, 0x113b30e6])
    ensures GroupAt(Key(A192), 4, [0xa25e7ed5, 0x83b1cf9a, 0x27f93943, 0x6a94f767, 0xc0a69407, 0xd19da4e1])
  {
    hide W, WordIs, GroupAt, Key, SubWord, RotWord, IsRcon;
    var key := Key(A192);
    FirstGroup(A192);
    Rcons();
    A192Words();
    Turn(key, 0, 0x01000000, [0x8e73b0f7, 0xda0e6452, 0xc810f32b, 0x809079e5, 0x62f8ead2, 0x522c6b7b],
         [0xfe0c91f7, 0x2402f5a5, 0xec12068e, 0x6c827f6b, 0x0e7a95b9, 0x5c56fec2]);
    Turn(key, 1, 0x02000000, [0xfe0c91f7, 0x2402f5a5, 0xec12068e, 0x6c827f6b, 0x0e7a95b9, 0x5c56fec2],
         [0x4db7b4bd, 0x69b54118, 0x85a74796, 0xe92538fd, 0xe75fad44, 0xbb095386]);
    Turn(key, 2, 0x04000000, [0x4db7b4bd, 0x69b54118, 0x85a74796, 0xe92538fd, 0xe75fad44, 0xbb095386],
         [0x485af057, 0x21efb14f, 0xa448f6d9, 0x4d6dce24, 0xaa326360, 0x113b30e6]);
    Turn(key, 3, 0x08000000, [0x485af057, 0x21efb14f, 0xa448f6d9, 0x4d6dce24, 0xaa326360, 0x113b30e6],
         [0xa25e7ed5, 0x83b1cf9a, 0x27f93943, 0x6a94f767, 0xc0a69407, 0xd19da4e1]);
  }

  lemma {:induction false} ExpandedA192Rest()
    ensures GroupAt(Key(A192), 5, [0xec1786eb, 0x6fa64971, 0x485f7032, 0x22cb8755, 0xe26d1352, 0x33f0b7b3])
    ensures GroupAt(Key(A192), 6, [0x40beeb28, 0x2f18a259, 0x6747d26b, 0x458c553e, 0xa7e1466c, 0x9411f1df])
    ensures GroupAt(Key(A192), 7, [0x821f750a, 0xad07d753, 0xca400538, 0x8fcc5006, 0x282d166a, 0xbc3ce7b5])
    ensures GroupAt(Key(A192), 8, [0xe98ba06f, 0x448c773c, 0x8ecc7204, 0x01002202, 0x292d3468, 0x9511d3dd])
  {
    hide W, WordIs, GroupAt, Key, SubWord, RotWord, IsRcon;
    var key := Key(A192);
    ExpandedA192();
    Rcons();
    A192Words();
    Turn(key, 4, 0x10000000, [0xa25e7ed5, 0x83b1cf9a, 0x27f93943, 0x6a94f767, 0xc0a69407, 0xd19da4e1],
         [0xec1786eb, 0x6fa64971, 0x485f7032, 0x22cb8755, 0xe26d1352, 0x33f0b7b3]);
    Turn(key, 5, 0x20000000, [0xec1786eb, 0x6fa64971, 0x485f7032, 0x22cb8755, 0xe26d1352, 0x33f0b7b3],
         [0x40beeb28, 0x2f18a259, 0x6747d26b, 0x458c553e, 0xa7e1466c, 0x9411f1df]);
    Turn(key, 6, 0x40000000, [0x40beeb28, 0x2f18a259, 0x6747d26b, 0x458c553e, 0xa7e1466c, 0x9411f1df],
         [0x821f750a, 0xad07d753, 0xca400538, 0x8fcc5006, 0x282d166a, 0xbc3ce7b5]);
    Turn(key, 7, 0x80000000, [0x821f750a, 0xad07d753, 0xca400538, 0x8fcc5006, 0x282d166a, 0xbc3ce7b5],
         [0xe98ba06f, 0x448c773c, 0x8ecc7204, 0x01002202, 0x292d3468, 0x9511d3dd]);
  }

  lemma {:induction false} A192Words()
    ensures SubWord(RotWord(0x522c6b7b)) == 0x717f2100
    ensures SubWord(RotWord(0x5c56fec2)) == 0xb1bb254a
    ensures SubWord(RotWord(0xbb095386)) == 0x01ed44ea
    ensures SubWord(RotWord(0x113b30e6)) == 0xe2048e82
    ensures SubWord(RotWord(0xd19da4e1)) == 0x5e49f83e
    ensures SubWord(RotWord(0x33f0b7b3)) == 0x8ca96dc3
    ensures SubWord(RotWord(0x9411f1df)) == 0x82a19e22
    ensures SubWord(RotWord(0xbc3ce7b5)) == 0xeb94d565
  {
  }

  const A256: seq<U32> := [0x603deb10, 0x15ca71be, 0x2b73aef0, 0x857d7781, 0x1f352c07, 0x3b6108d7, 0x2d9810a3, 0x0914dff4]

  /** Appendix A.3. (Its last group is completed.) */
  lemma {:induction false} ExpandedA256()
    ensures GroupAt(Key(A256), 0, [0x603deb10, 0x15ca71be, 0x2b73aef0, 0x857d7781, 0x1f352c07, 0x3b6108d7, 0x2d9810a3, 0x0914dff4])
    ensures GroupAt(Key(A256), 1, [0x9ba35411, 0x8e6925af, 0xa51a8b5f, 0x2067fcde, 0xa8b09c1a, 0x93d194cd, 0xbe49846e, 0xb75d5b9a])
    ensures GroupAt(Key(A256), 2, [0xd59aecb8, 0x5bf3c917, 0xfee94248, 0xde8ebe96, 0xb5a9328a, 0x2678a647, 0x98312229, 0x2f6c79b3])
    ensures GroupAt(Key(A256), 3, [0x812c81ad, 0xdadf48ba, 0x24360af2, 0xfab8b464, 0x98c5bfc9, 0xbebd198e, 0x268c3ba7, 0x09e04214])
    ensures GroupAt(Key(A256), 4, [0x68007bac, 0xb2df3316, 0x96e939e4, 0x6c518d80, 0xc814e204, 0x76a9fb8a, 0x5025c02d, 0x59c58239])
  {
    hide W, WordIs, GroupAt, Key, SubWord, RotWord, IsRcon;
    var key := Key(A256);
    FirstGroup(A256);
    Rcons();
    A256Words();
    Turn(key, 0, 0x01000000, [0x603deb10, 0x15ca71be, 0x2b73aef0, 0x857d7781, 0x1f352c07, 0x3b6108d7, 0x2d9810a3, 0x0914dff4],
         [0x9ba35411, 0x8e6925af, 0xa51a8b5f, 0x2067fcde, 0xa8b09c1a, 0x93d194cd, 0xbe49846e, 0xb75d5b9a]);
    Turn(key, 1, 0x02000000, [0x9ba35411, 0x8e6925af, 0xa51a8b5f, 0x2067fcde, 0xa8b09c1a, 0x93d194cd, 0xbe49846e, 0xb75d5b9a],
         [0xd59aecb8, 0x5bf3c917, 0xfee94248, 0xde8ebe96, 0xb5a9328a, 0x2678a647, 0x98312229, 0x2f6c79b3]);
    Turn(key, 2, 0x04000000, [0xd59aecb8, 0x5bf3c917, 0xfee94248, 0xde8ebe96, 0xb5a9328a, 0x2678a647, 0x98312229, 0x2f6c79b3],
         [0x812c81ad, 0xdadf48ba, 0x24360af2, 0xfab8b464, 0x98c5bfc9, 0xbebd198e, 0x268c3ba7, 0x09e04214]);
    Turn(key, 3, 0x08000000, [0x812c81ad, 0xdadf48ba, 0x24360af2, 0xfab8b464, 0x98c5bfc9, 0xbebd198e, 0x268c3ba7, 0x09e04214],
         [0x68007bac, 0xb2df3316, 0x96e939e4, 0x6c518d80, 0xc814e204, 0x76a9fb8a, 0x5025c02d, 0x59c58239]);
  }

  lemma {:induction false} ExpandedA256Rest()
    ensures GroupAt(Key(A256), 5, [0xde136967, 0x6ccc5a71, 0xfa256395, 0x9674ee15, 0x5886ca5d, 0x2e2f31d7, 0x7e0af1fa, 0x27cf73c3])
    ensures GroupAt(Key(A256), 6, [0x749c47ab, 0x18501dda, 0xe2757e4f, 0x7401905a, 0xcafaaae3, 0xe4d59b34, 0x9adf6ace, 0xbd10190d])
    ensures GroupAt(Key(A256), 7, [0xfe4890d1, 0xe6188d0b, 0x046df344, 0x706c631e, 0x9baa5191, 0x7f7fcaa5, 0xe5a0a06b, 0x58b0b966])
  {
    hide W, WordIs, GroupAt, Key, SubWord, RotWord, IsRcon;
    var key := Key(A256);
    ExpandedA256();
    Rcons();
    A256Words();
    Turn(key, 4, 0x10000000, [0x68007bac, 0xb2df3316, 0x96e939e4, 0x6c518d80, 0xc814e204, 0x76a9fb8a, 0x5025c02d, 0x59c58239],
         [0xde136967, 0x6ccc5a71, 0xfa256395, 0x9674ee15, 0x5886ca5d, 0x2e2f31d7, 0x7e0af1fa, 0x27cf73c3]);
    Turn(key, 5, 0x20000000, [0xde136967, 0x6ccc5a71, 0xfa256395, 0x9674ee15, 0x5886ca5d, 0x2e2f31d7, 0x7e0af1fa, 0x27cf73c3],
         [0x749c47ab, 0x18501dda, 0xe2757e4f, 0x7401905a, 0xcafaaae3, 0xe4d59b34, 0x9adf6ace, 0xbd10190d]);
    Turn(key, 6, 0x40000000, [0x749c47ab, 0x18501dda, 0xe2757e4f, 0x7401905a, 0xcafaaae3, 0xe4d59b34, 0x9adf6ace, 0xbd10190d],
         [0xfe4890d1, 0xe6188d0b, 0x046df344, 0x706c631e, 0x9baa5191, 0x7f7fcaa5, 0xe5a0a06b, 0x58b0b966]);
  }

  lemma {:induction false} A256Words()
    ensures SubWord(RotWord(0x0914dff4)) == 0xfa9ebf01
    ensures SubWord(0x2067fcde) == 0xb785b01d
    ensures SubWord(RotWord(0xb75d5b9a)) == 0x4c39b8a9
    ensures SubWord(0xde8ebe96) == 0x1d19ae90
    ensures SubWord(RotWord(0x2f6c79b3)) == 0x50b66d15
    ensures SubWord(0xfab8b464) == 0x2d6c8d43
    ensures SubWord(RotWord(0x09e04214)) == 0xe12cfa01
    ensures SubWord(0x6c518d80) == 0x50d15dcd
    ensures SubWord(RotWord(0x59c58239)) == 0xa61312cb
    ensures SubWord(0x9674ee15) == 0x90922859
    ensures SubWord(RotWord(0x27cf73c3)) == 0x8a8f2ecc
    ensures SubWord(0x7401905a) == 0x927c60be
    ensures SubWord(RotWord(0xbd10190d)) == 0xcad4d77a
    ensures SubWord(0x706c631e) == 0x5150fb72
  {
  }
}
