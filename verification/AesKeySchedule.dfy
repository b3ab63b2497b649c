/** The AES key schedules: AES_set_encrypt_key against the key expansion of FIPS 197 section 5.2, and
    AES_set_decrypt_key against the schedule of the equivalent inverse cipher, section 5.3.5. */
module AesKeySchedule {
  import opened AesField
  import opened AesWord
  import opened AesCipher
  import opened AesTables
  import opened AesBlock
  import opened RoundCipher

  // ----- FIPS 197 section 5.2 -----

  predicate KeyLength(nk: nat) { nk == 4 || nk == 6 || nk == 8 }

  /** The powers of {02}. */
  function RconByte(i: nat): U8
    requires i > 0
  {
    if i == 1 then 0x01 else Mul02(RconByte(i - 1))
  }

  function Rcon(i: nat): Column
    requires i > 0
  {
    Column(RconByte(i), 0, 0, 0)
  }

  /** What is added to the word nk places back to give word i, from the word just before. */
  function Added(box: Box, nk: nat, i: nat, prev: Column): Column
    requires KeyLength(nk) && i >= nk
  {
    if i % nk == 0 then XorC(SubColumn(box.s, Rotate(prev)), Rcon(i / nk))
    else if nk > 6 && i % nk == 4 then SubColumn(box.s, prev)
    else prev
  }

  /** Word i of the expanded key. */
  function W(box: Box, key: seq<Column>, i: nat): Column
    requires KeyLength(|key|)
  {
    if i < |key| then key[i] else XorC(W(box, key, i - |key|), Added(box, |key|, i, W(box, key, i - 1)))
  }

  function Rounds(nk: nat): nat { nk + 6 }

  function Schedule(box: Box, key: seq<Column>): (keys: seq<Block>)
    requires KeyLength(|key|)
    ensures |keys| == Rounds(|key|) + 1
    ensures forall r :: 0 <= r < |keys| ==> keys[r] == ScheduleAt(box, key, r)
  {
    seq(Rounds(|key|) + 1, r requires 0 <= r => ScheduleAt(box, key, r))
  }

  function ScheduleAt(box: Box, key: seq<Column>, r: nat): Block
    requires KeyLength(|key|)
  {
    Block(W(box, key, 4 * r), W(box, key, 4 * r + 1), W(box, key, 4 * r + 2), W(box, key, 4 * r + 3))
  }

  // ----- The words the code computes -----

  const RCON: seq<U32> := [0x01000000, 0x02000000, 0x04000000, 0x08000000, 0x10000000, 0x20000000, 0x40000000, 0x80000000,
                           0x1B000000, 0x36000000]

  lemma {:induction false} RconBytes()
    ensures RconByte(1) == 0x01 && RconByte(2) == 0x02 && RconByte(3) == 0x04 && RconByte(4) == 0x08 && RconByte(5) == 0x10
    ensures RconByte(6) == 0x20 && RconByte(7) == 0x40 && RconByte(8) == 0x80 && RconByte(9) == 0x1b && RconByte(10) == 0x36
  {
    assert RconByte(2) == 0x02;
    assert RconByte(3) == 0x04;
    assert RconByte(4) == 0x08;
    assert RconByte(5) == 0x10;
    assert RconByte(6) == 0x20;
    assert RconByte(7) == 0x40;
    assert RconByte(8) == 0x80;
    assert RconByte(9) == 0x1b;
  }

  /** The table holds the round constants of the standard. */
  lemma {:induction false} RconTable(i: nat)
    requires i < 10
    ensures PutU32(RCON[i]) == Rcon(i + 1)
  {
    RconBytes();
  }

  function RotSub(box: Box, k: U32, temp: U32, rcon: U32): U32 {
    XorW(XorW(XorW(XorW(XorW(k, Mask0(Te4(box, Byte1(temp)))), Mask1(Te4(box, Byte2(temp)))), Mask2(Te4(box, Byte3(temp)))),
              Mask3(Te4(box, Byte0(temp)))), rcon)
  }

  function Sub(box: Box, k: U32, temp: U32): U32 {
    XorW(XorW(XorW(XorW(k, Mask0(Te4(box, Byte0(temp)))), Mask1(Te4(box, Byte1(temp)))), Mask2(Te4(box, Byte2(temp)))),
         Mask3(Te4(box, Byte3(temp))))
  }

  lemma {:induction false} XorCAssoc(a: Column, b: Column, c: Column)
    ensures XorC(XorC(a, b), c) == XorC(a, XorC(b, c))
  {
    XorAssoc(a.b0, b.b0, c.b0);
    XorAssoc(a.b1, b.b1, c.b1);
    XorAssoc(a.b2, b.b2, c.b2);
    XorAssoc(a.b3, b.b3, c.b3);
  }

  /** Adding four masked words one after the other adds their four bytes. */
  lemma {:induction false} AddMasked(k: U32, a: U32, b: U32, c: U32, d: U32)
    ensures PutU32(XorW(XorW(XorW(XorW(k, Mask0(a)), Mask1(b)), Mask2(c)), Mask3(d)))
         == XorC(PutU32(k), Diagonal(a, b, c, d))
  {
    PutXor(k, Mask0(a));
    PutXor(XorW(k, Mask0(a)), Mask1(b));
    PutXor(XorW(XorW(k, Mask0(a)), Mask1(b)), Mask2(c));
    PutXor(XorW(XorW(XorW(k, Mask0(a)), Mask1(b)), Mask2(c)), Mask3(d));
    PutMasks(a);
    PutMasks(b);
    PutMasks(c);
    PutMasks(d);
    AddSpread(PutU32(k), Diagonal(a, b, c, d));
  }

  lemma {:induction false} AddSpread(k: Column, v: Column)
    ensures XorC(XorC(XorC(XorC(k, Column(v.b0, 0, 0, 0)), Column(0, v.b1, 0, 0)), Column(0, 0, v.b2, 0)), Column(0, 0, 0, v.b3))
         == XorC(k, v)
  {
    XorSelf(k.b0);
    XorSelf(k.b1);
    XorSelf(k.b2);
    XorSelf(k.b3);
    XorSelf(Xor(k.b0, v.b0));
    XorSelf(Xor(k.b1, v.b1));
    XorSelf(Xor(k.b2, v.b2));
  }

  lemma {:induction false} SubIs(box: Box, k: U32, temp: U32)
    ensures PutU32(Sub(box, k, temp)) == XorC(PutU32(k), SubColumn(box.s, PutU32(temp)))
  {
    AddMasked(k, Te4(box, Byte0(temp)), Te4(box, Byte1(temp)), Te4(box, Byte2(temp)), Te4(box, Byte3(temp)));
    Te4Bytes(box, PutU32(temp));
  }

  lemma {:induction false} RotSubIs(box: Box, k: U32, temp: U32, rcon: U32)
    ensures PutU32(RotSub(box, k, temp, rcon)) == XorC(PutU32(k), XorC(SubColumn(box.s, Rotate(PutU32(temp))), PutU32(rcon)))
  {
    AddMasked(k, Te4(box, Byte1(temp)), Te4(box, Byte2(temp)), Te4(box, Byte3(temp)), Te4(box, Byte0(temp)));
    Te4Bytes(box, Rotate(PutU32(temp)));
    PutXor(XorW(XorW(XorW(XorW(k, Mask0(Te4(box, Byte1(temp)))), Mask1(Te4(box, Byte2(temp)))), Mask2(Te4(box, Byte3(temp)))),
                Mask3(Te4(box, Byte0(temp)))), rcon);
    XorCAssoc(PutU32(k), SubColumn(box.s, Rotate(PutU32(temp))), PutU32(rcon));
  }

  lemma {:induction false} Te4Bytes(box: Box, c: Column)
    ensures Diagonal(Te4(box, c.b0), Te4(box, c.b1), Te4(box, c.b2), Te4(box, c.b3)) == SubColumn(box.s, c)
  {
    PutGet(Times(box.s(c.b0), Mul01, Mul01, Mul01, Mul01));
    PutGet(Times(box.s(c.b1), Mul01, Mul01, Mul01, Mul01));
    PutGet(Times(box.s(c.b2), Mul01, Mul01, Mul01, Mul01));
    PutGet(Times(box.s(c.b3), Mul01, Mul01, Mul01, Mul01));
  }

  // ----- AES_set_encrypt_key -----

  ghost predicate WordAt(box: Box, key: seq<Column>, rk: seq<U32>, j: nat)
    requires KeyLength(|key|) && j < |rk|
  {
    PutU32(rk[j]) == W(box, key, j)
  }

  /** The first n words are those of the expanded key. */
  ghost predicate Filled(box: Box, key: seq<Column>, rk: seq<U32>, n: nat) {
    KeyLength(|key|) && n <= |rk| && forall j :: 0 <= j < n ==> WordAt(box, key, rk, j)
  }

  lemma {:induction false} FillNext(box: Box, key: seq<Column>, rk: seq<U32>, n: nat, w: U32)
    requires Filled(box, key, rk, n) && |key| <= n < |rk|
    requires PutU32(w) == XorC(PutU32(rk[n - |key|]), Added(box, |key|, n, PutU32(rk[n - 1])))
    ensures Filled(box, key, rk[n := w], n + 1)
  {
    var next := rk[n := w];
    assert WordAt(box, key, rk, n - |key|) && WordAt(box, key, rk, n - 1);
    forall j | 0 <= j < n + 1
      ensures WordAt(box, key, next, j)
    {
      if j < n {
        assert WordAt(box, key, rk, j);
      }
    }
  }

  /** The first word of a turn. */
  method ExtendRot(box: Box, ghost key: seq<Column>, nk: nat, rk: array<U32>, n: nat, i: nat)
    requires Filled(box, key, rk[..], n) && nk == |key| <= n < rk.Length
    requires i < 10 && n == (i + 1) * nk
    modifies rk
    ensures Filled(box, key, rk[..], n + 1)
  {
    ghost var was := rk[..];
    var temp := rk[n - 1];
    var w := RotSub(box, rk[n - nk], temp, RCON[i]);
    RotSubIs(box, rk[n - nk], temp, RCON[i]);
    RconTable(i);
    TurnStart(nk, i);
    FillNext(box, key, was, n, w);
    rk[n] := w;
    assert rk[..] == was[n := w];
  }

  lemma {:induction false} TurnStart(nk: nat, i: nat)
    requires KeyLength(nk)
    ensures (i + 1) * nk % nk == 0 && (i + 1) * nk / nk == i + 1
  {
  }

  /** The word in the middle of a turn of the 256-bit loop. */
  method ExtendSub(box: Box, ghost key: seq<Column>, rk: array<U32>, n: nat)
    requires Filled(box, key, rk[..], n) && |key| == 8 <= n < rk.Length && n % 8 == 4
    modifies rk
    ensures Filled(box, key, rk[..], n + 1)
  {
    ghost var was := rk[..];
    var temp := rk[n - 1];
    var w := Sub(box, rk[n - 8], temp);
    SubIs(box, rk[n - 8], temp);
    FillNext(box, key, was, n, w);
    rk[n] := w;
    assert rk[..] == was[n := w];
  }

  /** Any other word. */
  method Extend(box: Box, ghost key: seq<Column>, nk: nat, rk: array<U32>, n: nat)
    requires Filled(box, key, rk[..], n) && nk == |key| <= n < rk.Length
    requires n % nk != 0 && (nk == 8 ==> n % nk != 4)
    modifies rk
    ensures Filled(box, key, rk[..], n + 1)
  {
    ghost var was := rk[..];
    var w := XorW(rk[n - nk], rk[n - 1]);
    PutXor(rk[n - nk], rk[n - 1]);
    FillNext(box, key, was, n, w);
    rk[n] := w;
    assert rk[..] == was[n := w];
  }

  method Expand128(box: Box, ghost key: seq<Column>, rk: array<U32>)
    requires |key| == 4 && rk.Length >= 44 && Filled(box, key, rk[..], 4)
    modifies rk
    ensures Filled(box, key, rk[..], 44)
  {
    var i := 0;
    while true
      invariant i < 10 && Filled(box, key, rk[..], 4 * i + 4)
      decreases 10 - i
    {
      ExtendRot(box, key, 4, rk, 4 * i + 4, i);
      Extend(box, key, 4, rk, 4 * i + 5);
      Extend(box, key, 4, rk, 4 * i + 6);
      Extend(box, key, 4, rk, 4 * i + 7);
      i := i + 1;
      if i == 10 {
        return;
      }
    }
  }

  method Expand192(box: Box, ghost key: seq<Column>, rk: array<U32>)
    requires |key| == 6 && rk.Length >= 52 && Filled(box, key, rk[..], 6)
    modifies rk
    ensures Filled(box, key, rk[..], 52)
  {
    var i := 0;
    while true
      invariant i < 8 && Filled(box, key, rk[..], 6 * i + 6)
      decreases 8 - i
    {
      ExtendRot(box, key, 6, rk, 6 * i + 6, i);
      Extend(box, key, 6, rk, 6 * i + 7);
      Extend(box, key, 6, rk, 6 * i + 8);
      Extend(box, key, 6, rk, 6 * i + 9);
      i := i + 1;
      if i == 8 {
        return;
      }
      Extend(box, key, 6, rk, 6 * i + 4);
      Extend(box, key, 6, rk, 6 * i + 5);
    }
  }

  method Expand256(box: Box, ghost key: seq<Column>, rk: array<U32>)
    requires |key| == 8 && rk.Length >= 60 && Filled(box, key, rk[..], 8)
    modifies rk
    ensures Filled(box, key, rk[..], 60)
  {
    var i := 0;
    while true
      invariant i < 7 && Filled(box, key, rk[..], 8 * i + 8)
      decreases 7 - i
    {
      ExtendRot(box, key, 8, rk, 8 * i + 8, i);
      Extend(box, key, 8, rk, 8 * i + 9);
      Extend(box, key, 8, rk, 8 * i + 10);
      Extend(box, key, 8, rk, 8 * i + 11);
      i := i + 1;
      if i == 7 {
        return;
      }
      ExtendSub(box, key, rk, 8 * i + 4);
      Extend(box, key, 8, rk, 8 * i + 5);
      Extend(box, key, 8, rk, 8 * i + 6);
      Extend(box, key, 8, rk, 8 * i + 7);
    }
  }

  /** The user's key as columns. */
  function KeyColumns(bytes: seq<U8>, nk: nat): (key: seq<Column>)
    requires 4 * nk <= |bytes|
    ensures |key| == nk
    ensures forall j :: 0 <= j < nk ==> key[j] == ColumnAt(bytes, j)
  {
    seq(nk, j requires 0 <= j < nk => ColumnAt(bytes, j))
  }

  function ColumnAt(bytes: seq<U8>, j: nat): Column
    requires 4 * j + 3 < |bytes|
  {
    Column(bytes[4 * j], bytes[4 * j + 1], bytes[4 * j + 2], bytes[4 * j + 3])
  }

  /** rk[lo..hi] = GETU32(userKey + 4 lo), and so on. */
  method LoadKey(box: Box, userKey: array<U8>, nk: nat, rk: array<U32>, lo: nat, hi: nat)
    requires KeyLength(nk) && 4 * nk <= userKey.Length && lo <= hi <= nk <= rk.Length
    requires Filled(box, KeyColumns(userKey[..], nk), rk[..], lo)
    modifies rk
    ensures Filled(box, KeyColumns(userKey[..], nk), rk[..], hi)
  {
    ghost var key := KeyColumns(userKey[..], nk);
    for j := lo to hi
      invariant Filled(box, key, rk[..], j)
    {
      ghost var was := rk[..];
      var c := Column(userKey[4 * j], userKey[4 * j + 1], userKey[4 * j + 2], userKey[4 * j + 3]);
      PutGet(c);
      FillLoaded(box, key, was, j, GetU32(c));
      rk[j] := GetU32(c);
      assert rk[..] == was[j := GetU32(c)];
    }
  }

  lemma {:induction false} FillLoaded(box: Box, key: seq<Column>, rk: seq<U32>, n: nat, w: U32)
    requires Filled(box, key, rk, n) && n < |rk| && n < |key| && PutU32(w) == key[n]
    ensures Filled(box, key, rk[n := w], n + 1)
  {
    var next := rk[n := w];
    forall j | 0 <= j < n + 1
      ensures WordAt(box, key, next, j)
    {
      if j < n {
        assert WordAt(box, key, rk, j);
      }
    }
  }

  /** A filled array holds the standard's round keys. */
  lemma {:induction false} FilledIsSchedule(box: Box, key: seq<Column>, rk: seq<U32>)
    requires KeyLength(|key|) && Filled(box, key, rk, 4 * Rounds(|key|) + 4)
    ensures RoundKeys(rk, Rounds(|key|)) == Schedule(box, key)
  {
    forall r | 0 <= r <= Rounds(|key|)
      ensures RoundKeys(rk, Rounds(|key|))[r] == Schedule(box, key)[r]
    {
      FilledGroup(box, key, rk, 4 * Rounds(|key|) + 4, r);
    }
  }

  lemma {:induction false} FilledGroup(box: Box, key: seq<Column>, rk: seq<U32>, n: nat, r: nat)
    requires Filled(box, key, rk, n) && 4 * r + 3 < n
    ensures State(KeyWords(rk, r)) == ScheduleAt(box, key, r)
  {
    assert WordAt(box, key, rk, 4 * r) && WordAt(box, key, rk, 4 * r + 1);
    assert WordAt(box, key, rk, 4 * r + 2) && WordAt(box, key, rk, 4 * r + 3);
  }

  /** A key the caller may hand over holds at least the bytes its length announces. */
  predicate UserKey(userKey: array?<U8>, bits: int) {
    userKey != null && bits in {128, 192, 256} ==> 8 * userKey.Length >= bits
  }

  method AesSetEncryptKey(box: Box, userKey: array?<U8>, bits: int, key: AesKey?) returns (status: int)
    requires UserKey(userKey, bits)
    requires key != null ==> key.rdKey.Length == 4 * (MAX_ROUNDS + 1)
    modifies key, if key == null then {} else {key.rdKey}
    ensures userKey == null || key == null <==> status == -1
    ensures userKey != null && key != null ==> (status == -2 <==> bits !in {128, 192, 256})
    ensures status in {-2, -1, 0}
    ensures status != 0 && key != null ==> unchanged(key) && unchanged(key.rdKey)
    ensures status == 0 ==> key.Valid() && key.rounds == Rounds(bits / 32)
    ensures status == 0 ==> key.Keys() == Schedule(box, KeyColumns(userKey[..], bits / 32))
  {
    if userKey == null || key == null {
      return -1;
    }
    if bits != 128 && bits != 192 && bits != 256 {
      return -2;
    }
    var rk := key.rdKey;
    var nk := bits / 32;
    key.rounds := if bits == 128 then 10 else if bits == 192 then 12 else 14;
    ghost var columns := KeyColumns(userKey[..], nk);
    LoadKey(box, userKey, nk, rk, 0, 4);
    if bits == 128 {
      Expand128(box, columns, rk);
    } else {
      LoadKey(box, userKey, nk, rk, 4, 6);
      if bits == 192 {
        Expand192(box, columns, rk);
      } else {
        LoadKey(box, userKey, nk, rk, 6, 8);
        Expand256(box, columns, rk);
      }
    }
    FilledIsSchedule(box, columns, rk[..]);
    status := 0;
  }

  // ----- AES_set_decrypt_key -----

  /** Group r is as it was, or has changed places with its mirror image when it is within a groups of
      either end. */
  ghost predicate Mirrored(was: seq<U32>, rk: seq<U32>, rounds: nat, a: nat, r: nat)
    requires r <= rounds && 4 * rounds + 3 < |rk| && |rk| == |was|
  {
    KeyWords(rk, r) == KeyWords(was, if r < a || r > rounds - a then rounds - r else r)
  }

  method SwapWords(rk: array<U32>, i: nat, j: nat)
    requires i < j < rk.Length
    modifies rk
    ensures rk[i] == old(rk[j]) && rk[j] == old(rk[i])
    ensures forall w :: 0 <= w < rk.Length && w != i && w != j ==> rk[w] == old(rk[w])
  {
    var temp := rk[i];
    rk[i] := rk[j];
    rk[j] := temp;
  }

  method SwapGroups(rk: array<U32>, i: nat, j: nat)
    requires i < j && 4 * j + 3 < rk.Length
    modifies rk
    ensures KeyWords(rk[..], i) == KeyWords(old(rk[..]), j) && KeyWords(rk[..], j) == KeyWords(old(rk[..]), i)
    ensures forall r :: 0 <= r && 4 * r + 3 < rk.Length && r != i && r != j ==> KeyWords(rk[..], r) == KeyWords(old(rk[..]), r)
  {
    SwapWords(rk, 4 * i, 4 * j);
    SwapWords(rk, 4 * i + 1, 4 * j + 1);
    SwapWords(rk, 4 * i + 2, 4 * j + 2);
    SwapWords(rk, 4 * i + 3, 4 * j + 3);
  }

  lemma {:induction false} MirrorStep(was: seq<U32>, now: seq<U32>, next: seq<U32>, rounds: nat, i: nat, r: nat)
    requires 4 * rounds + 3 < |was| == |now| == |next| && r <= rounds && 2 * i < rounds
    requires Mirrored(was, now, rounds, i, i) && Mirrored(was, now, rounds, i, rounds - i)
    requires Mirrored(was, now, rounds, i, r)
    requires KeyWords(next, i) == KeyWords(now, rounds - i) && KeyWords(next, rounds - i) == KeyWords(now, i)
    requires r != i && r != rounds - i ==> KeyWords(next, r) == KeyWords(now, r)
    ensures Mirrored(was, next, rounds, i + 1, r)
  {
  }

  method ReverseKeys(rk: array<U32>, rounds: nat)
    requires 4 * rounds + 3 < rk.Length
    modifies rk
    ensures forall r :: 0 <= r <= rounds ==> KeyWords(rk[..], r) == KeyWords(old(rk[..]), rounds - r)
  {
    ghost var was := rk[..];
    var i, j := 0, rounds;
    while i < j
      invariant 0 <= i <= j + 1 && i + j == rounds
      invariant forall r :: 0 <= r <= rounds ==> Mirrored(was, rk[..], rounds, i, r)
    {
      ghost var now := rk[..];
      SwapGroups(rk, i, j);
      ghost var next := rk[..];
      i, j := i + 1, j - 1;
      forall r | 0 <= r <= rounds
        ensures Mirrored(was, next, rounds, i, r)
      {
        MirrorStep(was, now, next, rounds, i - 1, r);
      }
    }
    forall r | 0 <= r <= rounds
      ensures KeyWords(rk[..], r) == KeyWords(was, rounds - r)
    {
      assert Mirrored(was, rk[..], rounds, i, r);
    }
  }

  function InvMixWord(box: Box, w: U32): U32 {
    Sum4W(Td0(box, Byte3(Te4(box, Byte0(w)))), Td1(box, Byte3(Te4(box, Byte1(w)))),
          Td2(box, Byte3(Te4(box, Byte2(w)))), Td3(box, Byte3(Te4(box, Byte3(w)))))
  }

  /** Going through Te4 takes off the Si that is built into the Td tables. */
  lemma {:induction false} InvMixWordIs(box: Box, w: U32)
    requires Inverts(box)
    ensures PutU32(InvMixWord(box, w)) == InvMixColumn(PutU32(w))
  {
    var c := PutU32(w);
    LowByte(box, c.b0);
    LowByte(box, c.b1);
    LowByte(box, c.b2);
    LowByte(box, c.b3);
    PutColumns(Times(c.b0, Mul0e, Mul09, Mul0d, Mul0b), Times(c.b1, Mul0b, Mul0e, Mul09, Mul0d),
               Times(c.b2, Mul0d, Mul0b, Mul0e, Mul09), Times(c.b3, Mul09, Mul0d, Mul0b, Mul0e));
  }

  lemma {:induction false} LowByte(box: Box, x: U8)
    requires Inverts(box)
    ensures box.si(Byte3(Te4(box, x))) == x
  {
    PutGet(Times(box.s(x), Mul01, Mul01, Mul01, Mul01));
  }

  function InvMixWords(box: Box, g: Words): Words {
    Words(InvMixWord(box, g.w0), InvMixWord(box, g.w1), InvMixWord(box, g.w2), InvMixWord(box, g.w3))
  }

  lemma {:induction false} InvMixWordsIs(box: Box, g: Words)
    requires Inverts(box)
    ensures State(InvMixWords(box, g)) == InvMixColumns(State(g))
  {
    InvMixWordIs(box, g.w0);
    InvMixWordIs(box, g.w1);
    InvMixWordIs(box, g.w2);
    InvMixWordIs(box, g.w3);
  }

  method StoreGroup(rk: array<U32>, r: nat, g: Words)
    requires 4 * r + 3 < rk.Length
    modifies rk
    ensures KeyWords(rk[..], r) == g
    ensures forall q :: 0 <= q && 4 * q + 3 < rk.Length && q != r ==> KeyWords(rk[..], q) == KeyWords(old(rk[..]), q)
  {
    rk[4 * r] := g.w0;
    rk[4 * r + 1] := g.w1;
    rk[4 * r + 2] := g.w2;
    rk[4 * r + 3] := g.w3;
  }

  /** Group r, put through InvMixColumns when it is not the first and is below n. */
  function MixedGroup(box: Box, rk: seq<U32>, n: nat, r: nat): Words
    requires 4 * r + 3 < |rk|
  {
    if 0 < r < n then InvMixWords(box, KeyWords(rk, r)) else KeyWords(rk, r)
  }

  method InvMixKeys(box: Box, rk: array<U32>, rounds: nat)
    requires rounds > 0 && 4 * rounds + 3 < rk.Length
    modifies rk
    ensures forall r :: 0 <= r <= rounds ==>
      KeyWords(rk[..], r) == MixedGroup(box, old(rk[..]), rounds, r)
  {
    for i := 1 to rounds
      invariant forall r :: 0 <= r <= rounds ==>
        KeyWords(rk[..], r) == MixedGroup(box, old(rk[..]), i, r)
    {
      StoreGroup(rk, i, InvMixWords(box, KeyWords(rk[..], i)));
    }
  }

  method AesSetDecryptKey(box: Box, userKey: array?<U8>, bits: int, key: AesKey?) returns (status: int)
    requires Inverts(box) && UserKey(userKey, bits)
    requires key != null ==> key.rdKey.Length == 4 * (MAX_ROUNDS + 1)
    modifies key, if key == null then {} else {key.rdKey}
    ensures userKey == null || key == null <==> status == -1
    ensures userKey != null && key != null ==> (status == -2 <==> bits !in {128, 192, 256})
    ensures status in {-2, -1, 0}
    ensures status != 0 && key != null ==> unchanged(key) && unchanged(key.rdKey)
    ensures status == 0 ==> key.Valid() && key.rounds == Rounds(bits / 32)
    ensures status == 0 ==> key.Keys() == InverseKeys(Aes(box), Schedule(box, KeyColumns(userKey[..], bits / 32)))
  {
    status := AesSetEncryptKey(box, userKey, bits, key);
    if status < 0 {
      return;
    }
    hide Schedule, InverseKeys, Aes;
    ghost var was := key.rdKey[..];
    ReverseKeys(key.rdKey, key.rounds);
    ghost var reversed := key.rdKey[..];
    InvMixKeys(box, key.rdKey, key.rounds);
    InvertedSchedule(box, was, reversed, key.rdKey[..], key.rounds);
  }

  /** Reversing the groups and mixing the inner ones gives the schedule of the equivalent inverse cipher. */
  lemma {:induction false} InvertedSchedule(box: Box, was: seq<U32>, reversed: seq<U32>, rk: seq<U32>, rounds: nat)
    requires Inverts(box) && rounds > 0 && 4 * rounds + 3 < |was| == |reversed| == |rk|
    requires forall r :: 0 <= r <= rounds ==> KeyWords(reversed, r) == KeyWords(was, rounds - r)
    requires forall r :: 0 <= r <= rounds ==> KeyWords(rk, r) == MixedGroup(box, reversed, rounds, r)
    ensures RoundKeys(rk, rounds) == InverseKeys(Aes(box), RoundKeys(was, rounds))
  {
    var before, after := KeyGroups(was, rounds), KeyGroups(rk, rounds);
    var mix := g => InvMixWords(box, g);
    forall g: Words
      ensures State(mix(g)) == InvMixColumns(State(g))
    {
      InvMixWordsIs(box, g);
    }
    MixedMirrored(State, mix, Aes(box), before, after);
  }

  // ----- The round trip -----

  /** For every key of 128, 192 or 256 bits and every block: AES_decrypt under the schedule of
      AES_set_decrypt_key undoes AES_encrypt under that of AES_set_encrypt_key. */
  lemma {:induction false} RoundTrip(box: Box, key: seq<Column>, block: Block)
    requires Inverts(box) && KeyLength(|key|)
    ensures var keys := Schedule(box, key);
            EqInvCipher(Aes(box), Cipher(Aes(box), block, keys), InverseKeys(Aes(box), keys)) == block
  {
    AesLaws(box);
    DecryptUndoesEncrypt(Aes(box), block, Schedule(box, key));
  }
}
