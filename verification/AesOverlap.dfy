/** When AES_cbc_encrypt works in one buffer: exactly if no input is overwritten before it is read. */
module AesOverlap {
  import opened AesField
  import opened AesCbc
  import opened CbcMode
  import opened Splicing
  import opened Wire

  // ----- Encryption -----

  ghost predicate EncryptsAt(e: Bytes -> Bytes, out: Bytes, i: nat, o: nat, iv: Bytes, len: nat)
    requires |iv| == SIZE && Blocks(e) && i + len <= |out| && o + Padded(len) <= |out|
  {
    var r := Encrypt(e, iv, out[i..i + len]);
    |r.out| == Padded(len) && EncryptRun(e, None, out, i, o, iv, len) == Buffered(Spliced(out, o, r.out), r.iv)
  }

  /** Whatever the cipher, the vector and the buffer hold, the message is encrypted. */
  ghost predicate Encrypts(size: nat, i: nat, len: nat, o: nat)
    requires i + len <= size && o + Padded(len) <= size
  {
    forall e, out, iv :: |iv| == SIZE && Blocks(e) && |out| == size ==> EncryptsAt(e, out, i, o, iv, len)
  }

  /** Encryption in one buffer is right for every cipher, vector and message exactly when no input is overwritten
      before it is read. */
  lemma {:induction false} EncryptsIff(size: nat, i: nat, len: nat, o: nat)
    requires i + len <= size && o + Padded(len) <= size
    ensures Encrypts(size, i, len, o) <==> Apart(i, len, o)
  {
    hide Encrypt, EncryptRun, Spliced, Padded;
    if Apart(i, len, o) {
      forall e, out, iv | |iv| == SIZE && Blocks(e) && |out| == size
        ensures EncryptsAt(e, out, i, o, iv, len)
      {
        EncryptRunIs(e, None, out, i, o, iv, len);
      }
    } else {
      EncryptionClobbers(Fill(0, size), i, len, o);
    }
  }

  function Same(b: Bytes): Bytes { b }

  function Fill(b: U8, n: nat): (r: Bytes)
    ensures |r| == n && forall k :: 0 <= k < n ==> r[k] == b
  {
    seq(n, _ => b)
  }

  /** One block of a run, and the piece at its end. */
  lemma {:induction false} SameStep(out: Bytes, i: nat, o: nat, iv: Bytes, len: nat)
    requires |iv| == SIZE && SIZE <= len && i + len <= |out| && o + Padded(len) <= |out|
    ensures var c := LastInput(iv, out[i..i + SIZE]);
            && o + SIZE + Padded(len - SIZE) <= |out|
            && EncryptRun(Same, None, out, i, o, iv, len) == EncryptRun(Same, None, Spliced(out, o, c), i + SIZE, o + SIZE, c, len - SIZE)
  {
    hide LastInput, Spliced;
  }

  lemma {:induction false} SamePiece(out: Bytes, i: nat, o: nat, iv: Bytes, len: nat)
    requires |iv| == SIZE && 0 < len < SIZE && i + len <= |out| && o + Padded(len) <= |out|
    ensures var c := LastInput(iv, out[i..i + len]);
            o + SIZE <= |out| && EncryptRun(Same, None, out, i, o, iv, len) == Buffered(Spliced(out, o, c), c)
  {
    hide LastInput, Spliced;
  }

  /** What has been written is not written again. */
  lemma {:induction false} EncryptRunKeeps(out: Bytes, i: nat, o: nat, iv: Bytes, len: nat, y: nat)
    requires |iv| == SIZE && i + len <= |out| && o + Padded(len) <= |out| && y < o
    ensures |EncryptRun(Same, None, out, i, o, iv, len).out| == |out|
    ensures EncryptRun(Same, None, out, i, o, iv, len).out[y] == out[y]
    decreases len
  {
    hide LastInput, Spliced;
    if len >= SIZE {
      var c := LastInput(iv, out[i..i + SIZE]);
      EncryptRunKeeps(Spliced(out, o, c), i + SIZE, o + SIZE, c, len - SIZE, y);
    }
  }

  /** A buffer of zeros, chained from a vector of ones: every block comes out as ones. */
  lemma {:induction false} OnesOfZeros(msg: Bytes, k: nat)
    requires (forall x :: 0 <= x < |msg| ==> msg[x] == 0) && k < |msg|
    ensures k < |Encrypt(Same, Fill(0xff, SIZE), msg).out| && Encrypt(Same, Fill(0xff, SIZE), msg).out[k] == 0xff
    decreases |msg|
  {
    var ones := Fill(0xff, SIZE);
    if |msg| >= SIZE {
      assert XorBytes(msg[..SIZE], ones) == ones;
      if k >= SIZE {
        OnesOfZeros(msg[SIZE..], k - SIZE);
      }
    }
  }

  lemma {:induction false} ZeroBlock(out: Bytes, i: nat, n: nat)
    requires n <= SIZE && i + n <= |out| && forall x :: i <= x < i + n ==> out[x] == 0
    ensures LastInput(Fill(0xff, SIZE), out[i..i + n]) == Fill(0xff, SIZE)
  {
  }

  lemma {:induction false} ZeroByte(out: Bytes, i: nat, n: nat, x: nat)
    requires n <= SIZE && i <= x < i + n <= |out| && out[x] == 0xff
    ensures LastInput(Fill(0xff, SIZE), out[i..i + n])[x - i] == 0
  {
  }

  /** The first byte x that has been overwritten, with ones, before it is read comes out as zero. */
  lemma {:induction false} ComesOutZero(out: Bytes, i: nat, o: nat, len: nat, x: nat)
    requires i <= x < i + len <= |out| && x < o && o + Padded(len) <= |out|
    requires out[x] == 0xff && forall y :: i <= y < x ==> out[y] == 0
    ensures var r := EncryptRun(Same, None, out, i, o, Fill(0xff, SIZE), len).out;
            |r| == |out| && o + x - i < |r| && r[o + x - i] == 0
    decreases len
  {
    hide EncryptRun, LastInput, Spliced, Fill;
    var ones := Fill(0xff, SIZE);
    if x >= i + SIZE {
      ZeroBlock(out, i, SIZE);
      SameStep(out, i, o, ones, len);
      ComesOutZero(Spliced(out, o, ones), i + SIZE, o + SIZE, len - SIZE, x);
    } else if len >= SIZE {
      var c := LastInput(ones, out[i..i + SIZE]);
      ZeroByte(out, i, SIZE, x);
      SameStep(out, i, o, ones, len);
      EncryptRunKeeps(Spliced(out, o, c), i + SIZE, o + SIZE, c, len - SIZE, o + x - i);
    } else {
      ZeroByte(out, i, len, x);
      SamePiece(out, i, o, ones, len);
    }
  }

  lemma {:induction false} EncryptionClobbers(out: Bytes, i: nat, len: nat, o: nat)
    requires i + len <= |out| && o + Padded(len) <= |out| && !Apart(i, len, o) && out == Fill(0, |out|)
    ensures !EncryptsAt(Same, out, i, o, Fill(0xff, SIZE), len)
  {
    hide EncryptRun, Encrypt, Spliced, LastInput, Fill, Padded;
    var ones := Fill(0xff, SIZE);
    var x := if o < i + SIZE then i + SIZE else o;
    ZeroBlock(out, i, SIZE);
    SameStep(out, i, o, ones, len);
    ComesOutZero(Spliced(out, o, ones), i + SIZE, o + SIZE, len - SIZE, x);
    OnesOfZeros(out[i..i + len], x - i);
  }

  // ----- Decryption -----

  ghost predicate DecryptsAt(d: Bytes -> Bytes, out: Bytes, i: nat, o: nat, iv: Bytes, n: nat)
    requires |iv| == SIZE && Blocks(d) && i + Padded(n) <= |out| && o + n <= |out|
  {
    var r := Decrypt(d, iv, out[i..i + Padded(n)], n);
    |r.out| == n && DecryptRun(d, None, out, i, o, iv, n) == Buffered(Spliced(out, o, r.out), r.iv)
  }

  ghost predicate Decrypts(size: nat, i: nat, n: nat, o: nat)
    requires i + Padded(n) <= size && o + n <= size
  {
    forall d, out, iv :: |iv| == SIZE && Blocks(d) && |out| == size ==> DecryptsAt(d, out, i, o, iv, n)
  }

  /** The same for decryption, which also reads the rest of a last, partial block. */
  lemma {:induction false} DecryptsIff(size: nat, i: nat, n: nat, o: nat)
    requires i + Padded(n) <= size && o + n <= size
    ensures Decrypts(size, i, n, o) <==> Apart(i, Padded(n), o)
  {
    hide Decrypt, DecryptRun, Spliced, Padded;
    if Apart(i, Padded(n), o) {
      forall d, out, iv | |iv| == SIZE && Blocks(d) && |out| == size
        ensures DecryptsAt(d, out, i, o, iv, n)
      {
        DecryptRunIs(d, None, out, i, o, iv, n);
      }
    } else {
      DecryptionClobbers(Fill(0, size), i, n, o);
    }
  }

  lemma {:induction false} SameStepBack(out: Bytes, i: nat, o: nat, iv: Bytes, n: nat)
    requires |iv| == SIZE && SIZE <= n && i + Padded(n) <= |out| && o + n <= |out|
    ensures i + SIZE + Padded(n - SIZE) <= |out|
    ensures var c := out[i..i + SIZE];
            DecryptRun(Same, None, out, i, o, iv, n)
            == DecryptRun(Same, None, Spliced(out, o, XorBytes(c, iv)), i + SIZE, o + SIZE, c, n - SIZE)
  {
    hide XorBytes, Spliced;
  }

  lemma {:induction false} SamePieceBack(out: Bytes, i: nat, o: nat, iv: Bytes, n: nat)
    requires |iv| == SIZE && 0 < n < SIZE && i + Padded(n) <= |out| && o + n <= |out|
    ensures i + SIZE <= |out|
    ensures var c := out[i..i + SIZE];
            DecryptRun(Same, None, out, i, o, iv, n) == Buffered(Spliced(out, o, XorBytes(c[..n], iv[..n])), c)
  {
    hide XorBytes, Spliced;
  }

  lemma {:induction false} DecryptRunKeeps(out: Bytes, i: nat, o: nat, iv: Bytes, n: nat, y: nat)
    requires |iv| == SIZE && i + Padded(n) <= |out| && o + n <= |out| && y < o
    ensures |DecryptRun(Same, None, out, i, o, iv, n).out| == |out| && |DecryptRun(Same, None, out, i, o, iv, n).iv| == SIZE
    ensures DecryptRun(Same, None, out, i, o, iv, n).out[y] == out[y]
    decreases n
  {
    hide XorBytes, Spliced;
    if n >= SIZE {
      var c := out[i..i + SIZE];
      DecryptRunKeeps(Spliced(out, o, XorBytes(c, iv)), i + SIZE, o + SIZE, c, n - SIZE, y);
    }
  }

  /** Zeros, chained from zeros, are decrypted to zeros. */
  lemma {:induction false} ZerosOfZeros(text: Bytes, n: nat)
    requires |text| == Padded(n) && forall x :: 0 <= x < |text| ==> text[x] == 0
    ensures Decrypt(Same, Fill(0, SIZE), text, n) == Chained(Fill(0, n), Fill(0, SIZE))
    decreases n
  {
    var zeros := Fill(0, SIZE);
    if n >= SIZE {
      assert text[..SIZE] == zeros && XorBytes(zeros, zeros) == zeros;
      ZerosOfZeros(text[SIZE..], n - SIZE);
      assert zeros + Fill(0, n - SIZE) == Fill(0, n);
    } else if n > 0 {
      assert text[..SIZE] == zeros && XorBytes(zeros[..n], zeros[..n]) == Fill(0, n);
    }
  }

  /** The first byte x that has been overwritten, with ones, before it is read comes out, or, past the message, is
      carried, as ones. */
  lemma {:induction false} ComesOutOnes(out: Bytes, i: nat, o: nat, n: nat, x: nat)
    requires i <= x < i + Padded(n) <= |out| && x < o && o + n <= |out|
    requires out[x] == 0xff && forall y :: i <= y < x ==> out[y] == 0
    ensures var r := DecryptRun(Same, None, out, i, o, Fill(0, SIZE), n);
            |r.out| == |out| && |r.iv| == SIZE && if x < i + n then r.out[o + x - i] == 0xff else r.iv[(x - i) % SIZE] == 0xff
    decreases n
  {
    hide DecryptRun, XorBytes, Spliced, Fill;
    var zeros := Fill(0, SIZE);
    if x >= i + SIZE {
      ZerosStay(out, i);
      SameStepBack(out, i, o, zeros, n);
      ComesOutOnes(Spliced(out, o, zeros), i + SIZE, o + SIZE, n - SIZE, x);
      assert (x - i) % SIZE == (x - (i + SIZE)) % SIZE;
    } else if n >= SIZE {
      var c := out[i..i + SIZE];
      SameStepBack(out, i, o, zeros, n);
      DecryptRunKeeps(Spliced(out, o, XorBytes(c, zeros)), i + SIZE, o + SIZE, c, n - SIZE, o + x - i);
    } else {
      assert (x - i) % SIZE == x - i;
      SamePieceBack(out, i, o, zeros, n);
    }
  }

  lemma {:induction false} ZerosStay(out: Bytes, i: nat)
    requires i + SIZE <= |out| && forall x :: i <= x < i + SIZE ==> out[x] == 0
    ensures out[i..i + SIZE] == Fill(0, SIZE) && XorBytes(Fill(0, SIZE), Fill(0, SIZE)) == Fill(0, SIZE)
    ensures XorBytes(Fill(0, SIZE), Fill(0xff, SIZE)) == Fill(0xff, SIZE)
  {
  }

  lemma {:induction false} DecryptionClobbers(out: Bytes, i: nat, n: nat, o: nat)
    requires i + Padded(n) <= |out| && o + n <= |out| && !Apart(i, Padded(n), o) && out == Fill(0, |out|)
    ensures !DecryptsAt(Same, out, i, o, Fill(0xff, SIZE), n)
  {
    hide DecryptRun, Decrypt, Spliced, XorBytes, Fill, Padded;
    var ones, zeros := Fill(0xff, SIZE), Fill(0, SIZE);
    var x := if o < i + SIZE then i + SIZE else o;
    LongPadded(n);
    ZerosStay(out, i);
    SameStepBack(out, i, o, ones, n);
    ComesOutOnes(Spliced(out, o, ones), i + SIZE, o + SIZE, n - SIZE, x);
    assert (x - i) % SIZE == (x - (i + SIZE)) % SIZE;
    OnesThenZeros(out[i..i + Padded(n)], n);
  }

  lemma {:induction false} LongPadded(n: nat)
    requires Padded(n) > SIZE
    ensures n > SIZE && Padded(n) == SIZE + Padded(n - SIZE)
  {
  }

  /** Zeros, chained from ones, are decrypted to ones and then zeros. */
  lemma {:induction false} OnesThenZeros(text: Bytes, n: nat)
    requires n > SIZE && |text| == Padded(n) && forall x :: 0 <= x < |text| ==> text[x] == 0
    ensures var r := Decrypt(Same, Fill(0xff, SIZE), text, n);
            |r.out| == n && r.iv == Fill(0, SIZE) && forall k :: SIZE <= k < n ==> r.out[k] == 0
  {
    hide Decrypt, XorBytes, Fill;
    var ones, zeros := Fill(0xff, SIZE), Fill(0, SIZE);
    assert text[0..SIZE] == zeros by {
      ZerosStay(text, 0);
    }
    assert text == zeros + text[SIZE..];
    DecryptStep(Same, ones, zeros, text[SIZE..], n - SIZE);
    ZerosOfZeros(text[SIZE..], n - SIZE);
  }
}
