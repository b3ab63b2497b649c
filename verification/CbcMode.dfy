/** Cipher block chaining as AES_cbc_encrypt performs it, over any block cipher, and its laws.

A message need not be a whole number of blocks: a last partial block is encrypted as if it were
padded with zeros, and decrypting it gives back only the announced bytes.
*/
module CbcMode {
  import opened AesField

  const SIZE := 16

  type Bytes = seq<U8>

  function XorBytes(a: Bytes, b: Bytes): (r: Bytes)
    requires |a| == |b|
    ensures |r| == |a|
    ensures forall i :: 0 <= i < |a| ==> r[i] == Xor(a[i], b[i])
  {
    seq(|a|, i requires 0 <= i < |a| => Xor(a[i], b[i]))
  }

  lemma {:induction false} XorBytesBack(a: Bytes, b: Bytes)
    requires |a| == |b|
    ensures XorBytes(XorBytes(a, b), b) == a
  {
    forall i | 0 <= i < |a|
      ensures XorBytes(XorBytes(a, b), b)[i] == a[i]
    {
      XorCancels(a[i], b[i]);
    }
  }

  /** Both ways keep blocks blocks. */
  ghost predicate Blocks(e: Bytes -> Bytes) { forall b {:trigger e(b)} :: |b| == SIZE ==> |e(b)| == SIZE }

  /** d undoes e. */
  ghost predicate Undoes(d: Bytes -> Bytes, e: Bytes -> Bytes) {
    Blocks(e) && Blocks(d) && forall b {:trigger e(b)} :: |b| == SIZE ==> d(e(b)) == b
  }

  /** What a call leaves behind: the output and the vector for the next call. */
  datatype Chained = Chained(out: Bytes, iv: Bytes)

  /** The block that is encrypted for the last, partial piece of a message. */
  function LastInput(iv: Bytes, piece: Bytes): (r: Bytes)
    requires |iv| == SIZE && |piece| <= SIZE
    ensures |r| == SIZE
  {
    XorBytes(piece, iv[..|piece|]) + iv[|piece|..]
  }

  function Encrypt(e: Bytes -> Bytes, iv: Bytes, msg: Bytes): Chained
    requires |iv| == SIZE && Blocks(e)
    decreases |msg|
  {
    if |msg| >= SIZE then
      var c := e(XorBytes(msg[..SIZE], iv));
      var rest := Encrypt(e, c, msg[SIZE..]);
      Chained(c + rest.out, rest.iv)
    else if msg != [] then
      var c := e(LastInput(iv, msg));
      Chained(c, c)
    else Chained([], iv)
  }

  /** The bytes a message takes up once encrypted. */
  function Padded(n: nat): nat { if n >= SIZE then SIZE + Padded(n - SIZE) else if n > 0 then SIZE else 0 }

  function Decrypt(d: Bytes -> Bytes, iv: Bytes, text: Bytes, n: nat): Chained
    requires |iv| == SIZE && Blocks(d) && |text| == Padded(n)
    decreases n
  {
    if n >= SIZE then
      var rest := Decrypt(d, text[..SIZE], text[SIZE..], n - SIZE);
      Chained(XorBytes(d(text[..SIZE]), iv) + rest.out, rest.iv)
    else if n > 0 then
      var p := d(text[..SIZE]);
      Chained(XorBytes(p[..n], iv[..n]), p)
    else Chained([], iv)
  }

  lemma {:induction false} Lengths(e: Bytes -> Bytes, iv: Bytes, msg: Bytes)
    requires |iv| == SIZE && Blocks(e)
    ensures |Encrypt(e, iv, msg).out| == Padded(|msg|) && |Encrypt(e, iv, msg).iv| == SIZE
    decreases |msg|
  {
    if |msg| >= SIZE {
      Lengths(e, e(XorBytes(msg[..SIZE], iv)), msg[SIZE..]);
    }
  }

  function Prepend(c: Bytes, r: Chained): Chained { Chained(c + r.out, r.iv) }

  /** One block taken off the front. */
  lemma {:induction false} EncryptStep(e: Bytes -> Bytes, iv: Bytes, m: Bytes, rest: Bytes)
    requires |iv| == SIZE == |m| && Blocks(e)
    ensures Encrypt(e, iv, m + rest) == Prepend(e(XorBytes(m, iv)), Encrypt(e, e(XorBytes(m, iv)), rest))
  {
    assert (m + rest)[..SIZE] == m && (m + rest)[SIZE..] == rest;
  }

  lemma {:induction false} DecryptStep(d: Bytes -> Bytes, iv: Bytes, c: Bytes, rest: Bytes, n: nat)
    requires |iv| == SIZE == |c| && Blocks(d) && |rest| == Padded(n)
    ensures Padded(SIZE + n) == SIZE + Padded(n)
    ensures Decrypt(d, iv, c + rest, SIZE + n) == Prepend(XorBytes(d(c), iv), Decrypt(d, c, rest, n))
  {
    assert (c + rest)[..SIZE] == c && (c + rest)[SIZE..] == rest;
  }

  // ----- Round trip -----

  lemma {:induction false} LastPiece(iv: Bytes, piece: Bytes)
    requires |iv| == SIZE && |piece| <= SIZE
    ensures XorBytes(LastInput(iv, piece)[..|piece|], iv[..|piece|]) == piece
  {
    XorBytesBack(piece, iv[..|piece|]);
    assert LastInput(iv, piece)[..|piece|] == XorBytes(piece, iv[..|piece|]);
  }

  /** A message of less than a block. */
  lemma {:induction false} RoundTripPiece(e: Bytes -> Bytes, d: Bytes -> Bytes, iv: Bytes, msg: Bytes)
    requires |iv| == SIZE && Undoes(d, e) && |msg| < SIZE
    ensures |Encrypt(e, iv, msg).out| == Padded(|msg|)
    ensures Decrypt(d, iv, Encrypt(e, iv, msg).out, |msg|).out == msg
  {
    if msg != [] {
      var c := e(LastInput(iv, msg));
      assert c[..SIZE] == c;
      LastPiece(iv, msg);
    }
  }

  /** Decrypting what was encrypted under the same vector gives back the message, whatever its length. */
  lemma {:induction false} RoundTrip(e: Bytes -> Bytes, d: Bytes -> Bytes, iv: Bytes, msg: Bytes)
    requires |iv| == SIZE && Undoes(d, e)
    ensures |Encrypt(e, iv, msg).out| == Padded(|msg|)
    ensures Decrypt(d, iv, Encrypt(e, iv, msg).out, |msg|).out == msg
    decreases |msg|
  {
    if |msg| < SIZE {
      RoundTripPiece(e, d, iv, msg);
    } else {
      var m, rest := msg[..SIZE], msg[SIZE..];
      var c := e(XorBytes(m, iv));
      RoundTrip(e, d, c, rest);
      assert msg == m + rest;
      EncryptStep(e, iv, m, rest);
      DecryptStep(d, iv, c, Encrypt(e, c, rest).out, |rest|);
      XorBytesBack(m, iv);
    }
  }

  // ----- Splitting at a block boundary -----

  function Join(first: Chained, second: Chained): Chained { Chained(first.out + second.out, second.iv) }

  lemma {:induction false} EncryptSplit(e: Bytes -> Bytes, iv: Bytes, a: Bytes, b: Bytes)
    requires |iv| == SIZE && Blocks(e) && |a| % SIZE == 0
    ensures |Encrypt(e, iv, a).iv| == SIZE
    ensures Encrypt(e, iv, a + b) == Join(Encrypt(e, iv, a), Encrypt(e, Encrypt(e, iv, a).iv, b))
    decreases |a|
  {
    if a == [] {
      assert a + b == b;
    } else {
      var m, rest := a[..SIZE], a[SIZE..];
      var c := e(XorBytes(m, iv));
      EncryptSplit(e, c, rest, b);
      SplitFront(a, b);
      EncryptStep(e, iv, m, rest);
      EncryptStep(e, iv, m, rest + b);
      JoinPrepend(c, Encrypt(e, c, rest), Encrypt(e, Encrypt(e, c, rest).iv, b));
    }
  }

  lemma {:induction false} SplitFront(a: Bytes, b: Bytes)
    requires |a| >= SIZE
    ensures a == a[..SIZE] + a[SIZE..] && a + b == a[..SIZE] + (a[SIZE..] + b)
  {
  }

  lemma {:induction false} JoinPrepend(c: Bytes, first: Chained, second: Chained)
    ensures Join(Prepend(c, first), second) == Prepend(c, Join(first, second))
  {
    assert (c + first.out) + second.out == c + (first.out + second.out);
  }

  /** A whole number of blocks takes up no more once encrypted. */
  lemma {:induction false} PaddedWhole(n: nat, m: nat)
    requires n % SIZE == 0
    ensures Padded(n) == n && Padded(n + m) == n + Padded(m)
  {
    if n > 0 {
      PaddedWhole(n - SIZE, m);
    }
  }

  lemma {:induction false} DecryptSplit(d: Bytes -> Bytes, iv: Bytes, a: Bytes, b: Bytes, m: nat)
    requires |iv| == SIZE && Blocks(d) && |a| % SIZE == 0 && |b| == Padded(m)
    ensures |a| == Padded(|a|) && |a + b| == Padded(|a| + m)
    ensures |Decrypt(d, iv, a, |a|).iv| == SIZE
    ensures Decrypt(d, iv, a + b, |a| + m) == Join(Decrypt(d, iv, a, |a|), Decrypt(d, Decrypt(d, iv, a, |a|).iv, b, m))
    decreases |a|
  {
    PaddedWhole(|a|, m);
    if a == [] {
      assert a + b == b;
    } else {
      var c, rest := a[..SIZE], a[SIZE..];
      DecryptSplit(d, c, rest, b, m);
      SplitFront(a, b);
      DecryptStep(d, iv, c, rest, |rest|);
      DecryptStep(d, iv, c, rest + b, |rest| + m);
      JoinPrepend(XorBytes(d(c), iv), Decrypt(d, c, rest, |rest|), Decrypt(d, Decrypt(d, c, rest, |rest|).iv, b, m));
    }
  }

  // ----- The vector carried to the next call -----

  /** The last block given to the block cipher, if the message ends in a partial block. */
  function PartialInput(e: Bytes -> Bytes, iv: Bytes, msg: Bytes): Bytes
    requires |iv| == SIZE && Blocks(e)
    decreases |msg|
  {
    if |msg| >= SIZE then PartialInput(e, e(XorBytes(msg[..SIZE], iv)), msg[SIZE..]) else LastInput(iv, msg)
  }

  /** Decryption of the encrypted message carries the vector that encryption carries. */
  ghost predicate SameVector(e: Bytes -> Bytes, d: Bytes -> Bytes, iv: Bytes, msg: Bytes)
    requires |iv| == SIZE && Undoes(d, e)
  {
    var text := Encrypt(e, iv, msg).out;
    |text| == Padded(|msg|) && Decrypt(d, iv, text, |msg|).iv == Encrypt(e, iv, msg).iv
  }

  /** The message is whole blocks, or the block cipher leaves its padded last block as it is. */
  ghost predicate PartialUnchanged(e: Bytes -> Bytes, iv: Bytes, msg: Bytes)
    requires |iv| == SIZE && Blocks(e)
  {
    |msg| % SIZE == 0 || e(PartialInput(e, iv, msg)) == PartialInput(e, iv, msg)
  }

  /** Both directions carry the same vector exactly when there is no partial block, or the block cipher leaves that
      block as it is: after one, decryption carries the decrypted block rather than the encrypted one. */
  lemma {:induction false} CarriedVector(e: Bytes -> Bytes, d: Bytes -> Bytes, iv: Bytes, msg: Bytes)
    requires |iv| == SIZE && Undoes(d, e)
    ensures SameVector(e, d, iv, msg) <==> PartialUnchanged(e, iv, msg)
    decreases |msg|
  {
    if |msg| < SIZE {
      CarriedPiece(e, d, iv, msg);
    } else {
      var m, rest := msg[..SIZE], msg[SIZE..];
      CarriedVector(e, d, e(XorBytes(m, iv)), rest);
      CarriedStep(e, d, iv, m, rest);
      PartialStep(e, iv, m, rest);
      assert msg == m + rest;
    }
  }

  lemma {:induction false} CarriedStep(e: Bytes -> Bytes, d: Bytes -> Bytes, iv: Bytes, m: Bytes, rest: Bytes)
    requires |iv| == SIZE == |m| && Undoes(d, e)
    ensures SameVector(e, d, iv, m + rest) == SameVector(e, d, e(XorBytes(m, iv)), rest)
  {
    var c := e(XorBytes(m, iv));
    Lengths(e, c, rest);
    EncryptStep(e, iv, m, rest);
    DecryptStep(d, iv, c, Encrypt(e, c, rest).out, |rest|);
  }

  lemma {:induction false} PartialStep(e: Bytes -> Bytes, iv: Bytes, m: Bytes, rest: Bytes)
    requires |iv| == SIZE == |m| && Blocks(e)
    ensures PartialUnchanged(e, iv, m + rest) == PartialUnchanged(e, e(XorBytes(m, iv)), rest)
  {
    assert (m + rest)[..SIZE] == m && (m + rest)[SIZE..] == rest;
    assert |m + rest| % SIZE == |rest| % SIZE;
  }

  lemma {:induction false} CarriedPiece(e: Bytes -> Bytes, d: Bytes -> Bytes, iv: Bytes, msg: Bytes)
    requires |iv| == SIZE && Undoes(d, e) && |msg| < SIZE
    ensures SameVector(e, d, iv, msg) <==> PartialUnchanged(e, iv, msg)
  {
    if msg != [] {
      var c := e(LastInput(iv, msg));
      assert c[..SIZE] == c;
    }
  }

  /** The block cipher that complements every bit. */
  function Complement(): Bytes -> Bytes { b => if |b| == SIZE then XorBytes(b, seq(SIZE, _ => 0xff)) else b }

  /** A message of one zero byte, under the complement and a zero vector: encryption carries ones to the next
      call, decryption zeros. */
  lemma {:induction false} PartialVectorDiffers()
    ensures Undoes(Complement(), Complement()) && !SameVector(Complement(), Complement(), seq(SIZE, _ => 0), [0])
  {
    var e, iv: Bytes, ones: Bytes := Complement(), seq(SIZE, _ => 0), seq(SIZE, _ => 0xff);
    forall b: Bytes | |b| == SIZE
      ensures e(e(b)) == b
    {
      XorBytesBack(b, ones);
    }
    CarriedVector(e, e, iv, [0]);
    var last := PartialInput(e, iv, [0]);
    assert last[1] == 0 && e(last)[1] == Xor(0, 0xff) == 0xff;
  }

  // ----- Section 6.2 of NIST SP 800-38A -----

  function BlockAt(s: Bytes, j: nat): Bytes
    requires SIZE * (j + 1) <= |s|
  {
    s[SIZE * j..SIZE * (j + 1)]
  }

  /** The block chained into block j: the vector, then the ciphertext block before. */
  function Chain(iv: Bytes, text: Bytes, j: nat): Bytes
    requires SIZE * j <= |text|
  {
    if j == 0 then iv else BlockAt(text, j - 1)
  }

  /** Every whole block of the output is the block cipher applied to that block of the message added to
      the block before it. */
  lemma {:induction false} ChainBlocks(e: Bytes -> Bytes, iv: Bytes, msg: Bytes, j: nat)
    requires |iv| == SIZE && Blocks(e) && SIZE * (j + 1) <= |msg|
    ensures |Encrypt(e, iv, msg).out| >= SIZE * (j + 1)
    ensures |Chain(iv, Encrypt(e, iv, msg).out, j)| == SIZE
    ensures BlockAt(Encrypt(e, iv, msg).out, j) == e(XorBytes(BlockAt(msg, j), Chain(iv, Encrypt(e, iv, msg).out, j)))
    decreases |msg|
  {
    var m, rest := msg[..SIZE], msg[SIZE..];
    var c := e(XorBytes(m, iv));
    assert msg == m + rest;
    EncryptStep(e, iv, m, rest);
    if j > 0 {
      ChainBlocks(e, c, rest, j - 1);
      ShiftBlocks(c, Encrypt(e, c, rest).out, iv, j);
      ShiftBlocks(m, rest, iv, j);
    }
  }

  /** Every whole block that decryption writes is the inverse cipher of that block of the ciphertext, added
      to the block before it, whether or not the ciphertext came from encryption. */
  lemma {:induction false} UnchainBlocks(d: Bytes -> Bytes, iv: Bytes, text: Bytes, n: nat, j: nat)
    requires |iv| == SIZE && Blocks(d) && |text| == Padded(n) && SIZE * (j + 1) <= n
    ensures |text| >= SIZE * (j + 1) && |Decrypt(d, iv, text, n).out| >= SIZE * (j + 1)
    ensures |d(BlockAt(text, j))| == SIZE == |Chain(iv, text, j)|
    ensures BlockAt(Decrypt(d, iv, text, n).out, j) == XorBytes(d(BlockAt(text, j)), Chain(iv, text, j))
    decreases n
  {
    var c, rest := text[..SIZE], text[SIZE..];
    assert text == c + rest;
    DecryptStep(d, iv, c, rest, n - SIZE);
    if j > 0 {
      UnchainBlocks(d, c, rest, n - SIZE, j - 1);
      ShiftBlocks(XorBytes(d(c), iv), Decrypt(d, c, rest, n - SIZE).out, iv, j);
      ShiftBlocks(c, rest, iv, j);
    }
  }

  lemma {:induction false} ShiftBlocks(c: Bytes, rest: Bytes, iv: Bytes, j: nat)
    requires |c| == SIZE && j > 0 && SIZE * j <= |rest|
    ensures BlockAt(c + rest, j) == BlockAt(rest, j - 1) && Chain(iv, c + rest, j) == Chain(c, rest, j - 1)
  {
    assert (c + rest)[..SIZE] == c;
  }

  /** A partial last block is treated as if the message were padded with zeros. */
  lemma {:induction false} PadsWithZeros(e: Bytes -> Bytes, iv: Bytes, msg: Bytes, zeros: Bytes)
    requires |iv| == SIZE && Blocks(e) && |msg| + |zeros| == Padded(|msg|) && forall i :: 0 <= i < |zeros| ==> zeros[i] == 0
    ensures Encrypt(e, iv, msg) == Encrypt(e, iv, msg + zeros)
    decreases |msg|
  {
    if |msg| >= SIZE {
      var m, rest := msg[..SIZE], msg[SIZE..];
      PadsWithZeros(e, e(XorBytes(m, iv)), rest, zeros);
      assert msg == m + rest && msg + zeros == m + (rest + zeros);
      EncryptStep(e, iv, m, rest);
      EncryptStep(e, iv, m, rest + zeros);
    } else if msg != [] {
      var whole := msg + zeros;
      forall i | 0 <= i < SIZE
        ensures LastInput(iv, msg)[i] == XorBytes(whole, iv)[i]
      {
        XorSelf(iv[i]);
      }
      assert whole == whole + [] && LastInput(iv, msg) == XorBytes(whole, iv);
      EncryptStep(e, iv, whole, []);
      assert e(XorBytes(whole, iv)) + [] == e(XorBytes(whole, iv));
    } else {
      assert msg + zeros == msg;
    }
  }
}
