/** AES_cbc_encrypt: chaining over buffers, with the vector updated in place. */
module AesCbc {
  import opened AesField
  import opened AesWord
  import opened AesCipher
  import opened AesBlock
  import opened RoundCipher
  import opened Splicing
  import opened CbcMode
  import opened Wire
  import AesKeySchedule

  /** The block cipher of an expanded key, as a function of sixteen bytes. */
  function Encipher(box: Box, keys: seq<Block>): Bytes -> Bytes
    requires |keys| >= 2
  {
    b => if |b| == BLOCK_SIZE then Enciphered(box, keys, b) else b
  }

  function Decipher(box: Box, keys: seq<Block>): Bytes -> Bytes
    requires |keys| >= 2
  {
    b => if |b| == BLOCK_SIZE then Deciphered(box, keys, b) else b
  }

  lemma {:induction false} DecipherUndoes(box: Box, keys: seq<Block>)
    requires Inverts(box) && |keys| >= 2
    ensures Undoes(Decipher(box, InverseKeys(Aes(box), keys)), Encipher(box, keys))
  {
    forall b: Bytes | |b| == SIZE
      ensures Deciphered(box, InverseKeys(Aes(box), keys), Enciphered(box, keys, b)) == b
    {
      DecipheredBack(box, keys, b);
    }
  }

  /** The contents of an expanded key. */
  datatype Expansion = Expansion(rk: seq<U32>, rounds: nat) {
    predicate Valid() { rounds > 0 && 4 * rounds + 3 < |rk| }

    function Keys(): (keys: seq<Block>)
      requires Valid()
      ensures |keys| >= 2
    {
      RoundKeys(rk, rounds)
    }
  }

  ghost predicate Expanded(key: AesKey, sched: Expansion)
    reads key, key.rdKey
  {
    key.Valid() && key.rdKey[..] == sched.rk && key.rounds == sched.rounds
  }

  /** e and d are the block cipher under the expanded key. */
  ghost predicate Enciphers(e: Bytes -> Bytes, box: Box, sched: Expansion) {
    && sched.Valid() && Blocks(e)
    && forall b {:trigger Enciphered(box, sched.Keys(), b)} :: |b| == SIZE ==> Enciphered(box, sched.Keys(), b) == e(b)
  }

  ghost predicate Deciphers(d: Bytes -> Bytes, box: Box, sched: Expansion) {
    && sched.Valid() && Blocks(d)
    && forall b {:trigger Deciphered(box, sched.Keys(), b)} :: |b| == SIZE ==> Deciphered(box, sched.Keys(), b) == d(b)
  }

  /** output[outAt..] = e(input[inAt..]), one block. */
  method EncryptAt(box: Box, input: array<U8>, inAt: nat, output: array<U8>, outAt: nat, key: AesKey, ghost sched: Expansion, ghost e: Bytes -> Bytes)
    requires inAt + SIZE <= input.Length && outAt + SIZE <= output.Length && Expanded(key, sched) && Enciphers(e, box, sched)
    modifies output
    ensures |e(old(input[inAt..inAt + SIZE]))| == SIZE
    ensures output[..] == Spliced(old(output[..]), outAt, e(old(input[inAt..inAt + SIZE])))
  {
    hide Enciphered;
    ghost var b := input[inAt..inAt + SIZE];
    assert Enciphered(box, sched.Keys(), b) == e(b);
    AesEncrypt(box, input, inAt, output, outAt, key);
  }

  method DecryptAt(box: Box, input: array<U8>, inAt: nat, output: array<U8>, outAt: nat, key: AesKey, ghost sched: Expansion, ghost d: Bytes -> Bytes)
    requires inAt + SIZE <= input.Length && outAt + SIZE <= output.Length && Expanded(key, sched) && Deciphers(d, box, sched)
    modifies output
    ensures |d(old(input[inAt..inAt + SIZE]))| == SIZE
    ensures output[..] == Spliced(old(output[..]), outAt, d(old(input[inAt..inAt + SIZE])))
  {
    hide Deciphered;
    ghost var b := input[inAt..inAt + SIZE];
    assert Deciphered(box, sched.Keys(), b) == d(b);
    AesDecrypt(box, input, inAt, output, outAt, key);
  }

  /** memcpy of one block between two buffers. */
  method CopyBlock(src: array<U8>, srcAt: nat, dst: array<U8>, dstAt: nat)
    requires src != dst && srcAt + SIZE <= src.Length && dstAt + SIZE <= dst.Length
    modifies dst
    ensures dst[..] == Spliced(old(dst[..]), dstAt, src[srcAt..srcAt + SIZE])
  {
    for n := 0 to SIZE
      invariant forall x :: 0 <= x < dst.Length ==>
        dst[x] == if dstAt <= x < dstAt + n then src[srcAt + x - dstAt] else old(dst[x])
    {
      dst[dstAt + n] := src[srcAt + n];
    }
  }

  /** tmp = the first n bytes of the input added to the vector, then the rest of the vector. */
  method Mix(input: array<U8>, inAt: nat, n: nat, ivec: array<U8>, tmp: array<U8>)
    requires n <= SIZE && inAt + n <= input.Length && ivec.Length == SIZE == tmp.Length
    requires tmp != input && tmp != ivec
    modifies tmp
    ensures tmp[..] == LastInput(ivec[..], input[inAt..inAt + n])
  {
    for i := 0 to n
      invariant forall x :: 0 <= x < i ==> tmp[x] == Xor(input[inAt + x], ivec[x])
    {
      tmp[i] := Xor(input[inAt + i], ivec[i]);
    }
    for i := n to SIZE
      invariant forall x :: 0 <= x < n ==> tmp[x] == Xor(input[inAt + x], ivec[x])
      invariant forall x :: n <= x < i ==> tmp[x] == ivec[x]
    {
      tmp[i] := ivec[i];
    }
    MixIs(tmp[..], ivec[..], input[inAt..inAt + n]);
  }

  lemma {:induction false} MixIs(tmp: Bytes, iv: Bytes, piece: Bytes)
    requires |tmp| == SIZE == |iv| && |piece| <= SIZE
    requires forall x :: 0 <= x < |piece| ==> tmp[x] == Xor(piece[x], iv[x])
    requires forall x :: |piece| <= x < SIZE ==> tmp[x] == iv[x]
    ensures tmp == LastInput(iv, piece)
  {
    hide Xor;
  }

  lemma {:induction false} WholeInput(iv: Bytes, block: Bytes)
    requires |iv| == SIZE == |block|
    ensures LastInput(iv, block) == XorBytes(block, iv)
  {
  }

  // ----- Encryption -----

  method EncryptBlock(box: Box, input: array<U8>, inAt: nat, n: nat, output: array<U8>, outAt: nat, key: AesKey,
                      ivec: array<U8>, ghost sched: Expansion, ghost e: Bytes -> Bytes)
    requires 0 < n <= SIZE && inAt + n <= input.Length && outAt + SIZE <= output.Length && ivec.Length == SIZE
    requires ivec != input && ivec != output && Expanded(key, sched) && Enciphers(e, box, sched)
    modifies output, ivec
    ensures |e(LastInput(old(ivec[..]), old(input[inAt..inAt + n])))| == SIZE
    ensures output[..] == Spliced(old(output[..]), outAt, e(LastInput(old(ivec[..]), old(input[inAt..inAt + n]))))
    ensures ivec[..] == e(LastInput(old(ivec[..]), old(input[inAt..inAt + n])))
  {
    var tmp := new U8[SIZE];
    Mix(input, inAt, n, ivec, tmp);
    ghost var x := tmp[..];
    assert tmp[0..SIZE] == x;
    EncryptAt(box, tmp, 0, output, outAt, key, sched, e);
    SpliceThenSlice(old(output[..]), outAt, e(x));
    CopyBlock(output, outAt, ivec, 0);
    assert ivec[..] == e(x);
  }

  /** The buffers of one call lie within their arrays; the vector is in neither. */
  ghost predicate Buffers(input: array<U8>, inAt: nat, inLen: nat, output: array<U8>, outAt: nat, outLen: nat, ivec: array<U8>)
  {
    && inAt + inLen <= input.Length && outAt + outLen <= output.Length && ivec.Length == SIZE
    && ivec != input && ivec != output
  }

  /** No input is overwritten before it is read: the output is at or before the input, or past it, or the input
      is read before anything is written. */
  predicate Apart(inAt: nat, inLen: nat, outAt: nat) { outAt <= inAt || inAt + inLen <= outAt || inLen <= SIZE }

  lemma {:induction false} BuffersOn(input: array<U8>, i: nat, inLen: nat, output: array<U8>, o: nat, outLen: nat, ivec: array<U8>)
    requires Buffers(input, i, inLen, output, o, outLen, ivec) && SIZE <= inLen && SIZE <= outLen
    ensures Buffers(input, i + SIZE, inLen - SIZE, output, o + SIZE, outLen - SIZE, ivec)
  {
  }

  /** The input of a call whose output is another buffer; None if the input is in the output buffer. */
  function Given(input: array<U8>, output: array<U8>): Option<Bytes>
    reads input
  {
    if input == output then None else Some(input[..])
  }

  /** What is read from. */
  function Source(given: Option<Bytes>, out: Bytes): Bytes { if given.Some? then given.value else out }

  lemma {:induction false} SliceFront(s: Bytes, at: nat, n: nat)
    requires SIZE <= n && at + n <= |s|
    ensures s[at..at + n][..SIZE] == s[at..at + SIZE] && s[at..at + n][SIZE..] == s[at + SIZE..at + n]
  {
  }

  /** Bytes away from what is overwritten stay. */
  lemma {:induction false} SpliceElsewhere(bytes: Bytes, at: nat, data: Bytes, lo: nat, hi: nat)
    requires at + |data| <= |bytes| && lo <= hi <= |bytes| && (at + |data| <= lo || hi <= at)
    ensures Spliced(bytes, at, data)[lo..hi] == bytes[lo..hi]
  {
  }

  /** The output buffer and the vector. */
  datatype Buffered = Buffered(out: Bytes, iv: Bytes)

  /** What is left in the buffers once they have been gone through block by block, wherever the output lies. */
  function EncryptRun(e: Bytes -> Bytes, given: Option<Bytes>, out: Bytes, i: nat, o: nat, iv: Bytes, len: nat): Buffered
    requires |iv| == SIZE && Blocks(e) && i + len <= |Source(given, out)| && o + Padded(len) <= |out|
    decreases len
  {
    if len >= SIZE then
      var c := e(LastInput(iv, Source(given, out)[i..i + SIZE]));
      EncryptRun(e, given, Spliced(out, o, c), i + SIZE, o + SIZE, c, len - SIZE)
    else if len != 0 then
      var c := e(LastInput(iv, Source(given, out)[i..i + len]));
      Buffered(Spliced(out, o, c), c)
    else Buffered(out, iv)
  }

  lemma {:induction false} EncryptRunStep(e: Bytes -> Bytes, given: Option<Bytes>, out: Bytes, i: nat, o: nat, iv: Bytes, len: nat)
    requires |iv| == SIZE && Blocks(e) && i + len <= |Source(given, out)| && o + Padded(len) <= |out| && len >= SIZE
    ensures var c := e(LastInput(iv, Source(given, out)[i..i + SIZE]));
            && |c| == SIZE && i + SIZE + (len - SIZE) <= |Source(given, Spliced(out, o, c))|
            && o + SIZE + Padded(len - SIZE) <= |Spliced(out, o, c)|
            && EncryptRun(e, given, out, i, o, iv, len) == EncryptRun(e, given, Spliced(out, o, c), i + SIZE, o + SIZE, c, len - SIZE)
  {
  }

  lemma {:induction false} EncryptRunShort(e: Bytes -> Bytes, given: Option<Bytes>, out: Bytes, i: nat, o: nat, iv: Bytes, len: nat)
    requires |iv| == SIZE && Blocks(e) && i + len <= |Source(given, out)| && o + Padded(len) <= |out| && len < SIZE
    ensures var r := Encrypt(e, iv, Source(given, out)[i..i + len]);
            |r.out| == Padded(len) && EncryptRun(e, given, out, i, o, iv, len) == Buffered(Spliced(out, o, r.out), r.iv)
  {
    if len == 0 {
      assert Spliced(out, o, []) == out;
    }
  }

  /** If no input is overwritten before it is read, that is the chained message. */
  lemma {:induction false} EncryptRunIs(e: Bytes -> Bytes, given: Option<Bytes>, out: Bytes, i: nat, o: nat, iv: Bytes, len: nat)
    requires |iv| == SIZE && Blocks(e) && i + len <= |Source(given, out)| && o + Padded(len) <= |out|
    requires given.None? ==> Apart(i, len, o)
    ensures var r := Encrypt(e, iv, Source(given, out)[i..i + len]);
            |r.out| == Padded(len) && EncryptRun(e, given, out, i, o, iv, len) == Buffered(Spliced(out, o, r.out), r.iv)
    decreases len
  {
    hide Encrypt, EncryptRun, XorBytes, LastInput, Spliced, Source;
    if len < SIZE {
      EncryptRunShort(e, given, out, i, o, iv, len);
    } else {
      var text := Source(given, out)[i..i + len];
      var m, rest := text[..SIZE], text[SIZE..];
      SliceFront(Source(given, out), i, len);
      WholeInput(iv, m);
      var c := e(XorBytes(m, iv));
      EncryptRunStep(e, given, out, i, o, iv, len);
      SourceLater(given, out, i, len, o, c);
      EncryptRunIs(e, given, Spliced(out, o, c), i + SIZE, o + SIZE, c, len - SIZE);
      SplitFront(text, []);
      EncryptStep(e, iv, m, rest);
      SpliceTwice(out, o, c, Encrypt(e, c, rest).out);
    }
  }

  /** The input still to be read is as it was. */
  lemma {:induction false} SourceLater(given: Option<Bytes>, out: Bytes, i: nat, len: nat, o: nat, c: Bytes)
    requires SIZE <= len && i + len <= |Source(given, out)| && |c| == SIZE && o + SIZE <= |out| && (given.None? ==> Apart(i, len, o))
    ensures i + len <= |Source(given, Spliced(out, o, c))|
    ensures Source(given, Spliced(out, o, c))[i + SIZE..i + SIZE + (len - SIZE)] == Source(given, out)[i + SIZE..i + len]
  {
    assert i + SIZE + (len - SIZE) == i + len;
    if given.None? && len > SIZE {
      SpliceElsewhere(out, o, c, i + SIZE, i + len);
    }
  }

  /** One turn of the loop over whole blocks keeps what the buffers will finally hold. */
  method EncryptTurn(box: Box, input: array<U8>, i: nat, len: nat, output: array<U8>, o: nat, key: AesKey, ivec: array<U8>,
                     ghost sched: Expansion, ghost e: Bytes -> Bytes)
    requires len >= SIZE && Enciphers(e, box, sched) && Expanded(key, sched)
    requires Buffers(input, i, len, output, o, Padded(len), ivec)
    modifies output, ivec
    ensures Expanded(key, sched) && Buffers(input, i + SIZE, len - SIZE, output, o + SIZE, Padded(len - SIZE), ivec)
    ensures EncryptRun(e, Given(input, output), output[..], i + SIZE, o + SIZE, ivec[..], len - SIZE)
         == old(EncryptRun(e, Given(input, output), output[..], i, o, ivec[..], len))
  {
    EncryptRunStep(e, Given(input, output), output[..], i, o, ivec[..], len);
    BuffersOn(input, i, len, output, o, Padded(len), ivec);
    hide Enciphered, EncryptRun, Spliced, LastInput;
    assert Source(Given(input, output), output[..])[i..i + SIZE] == input[i..i + SIZE];
    EncryptBlock(box, input, i, SIZE, output, o, key, ivec, sched, e);
  }

  /** What is left after the whole blocks. */
  method EncryptTail(box: Box, input: array<U8>, i: nat, len: nat, output: array<U8>, o: nat, key: AesKey, ivec: array<U8>,
                     ghost sched: Expansion, ghost e: Bytes -> Bytes)
    requires len < SIZE && Enciphers(e, box, sched) && Expanded(key, sched)
    requires Buffers(input, i, len, output, o, Padded(len), ivec)
    modifies output, ivec
    ensures Buffered(output[..], ivec[..]) == old(EncryptRun(e, Given(input, output), output[..], i, o, ivec[..], len))
  {
    hide Enciphered, LastInput;
    if len != 0 {
      assert Source(Given(input, output), output[..])[i..i + len] == input[i..i + len];
      EncryptBlock(box, input, i, len, output, o, key, ivec, sched, e);
    }
  }

  method EncryptBlocks(box: Box, input: array<U8>, inAt: nat, output: array<U8>, outAt: nat, length: nat, key: AesKey,
                       ivec: array<U8>, ghost sched: Expansion, ghost e: Bytes -> Bytes)
    requires Buffers(input, inAt, length, output, outAt, Padded(length), ivec)
    requires Expanded(key, sched) && Enciphers(e, box, sched)
    modifies output, ivec
    ensures Buffered(output[..], ivec[..]) == old(EncryptRun(e, Given(input, output), output[..], inAt, outAt, ivec[..], length))
  {
    hide EncryptRun;
    ghost var final := EncryptRun(e, Given(input, output), output[..], inAt, outAt, ivec[..], length);
    var len: nat, i: nat, o: nat := length, inAt, outAt;
    while len >= SIZE
      invariant Expanded(key, sched) && Buffers(input, i, len, output, o, Padded(len), ivec)
      invariant EncryptRun(e, Given(input, output), output[..], i, o, ivec[..], len) == final
    {
      EncryptTurn(box, input, i, len, output, o, key, ivec, sched, e);
      len, i, o := len - SIZE, i + SIZE, o + SIZE;
    }
    EncryptTail(box, input, i, len, output, o, key, ivec, sched, e);
  }

  method CbcEncrypt(box: Box, input: array<U8>, inAt: nat, output: array<U8>, outAt: nat, length: nat, key: AesKey,
                    ivec: array<U8>, ghost sched: Expansion, ghost e: Bytes -> Bytes)
    requires Buffers(input, inAt, length, output, outAt, Padded(length), ivec)
    requires Expanded(key, sched) && Enciphers(e, box, sched)
    modifies output, ivec
    ensures Buffered(output[..], ivec[..]) == old(EncryptRun(e, Given(input, output), output[..], inAt, outAt, ivec[..], length))
    ensures (input == output ==> Apart(inAt, length, outAt)) ==>
              Leaves(Encrypt(e, old(ivec[..]), old(input[inAt..inAt + length])), old(output[..]), outAt, Padded(length),
                     output[..], ivec[..])
  {
    hide EncryptRun;
    if input == output ==> Apart(inAt, length, outAt) {
      EncryptRunIs(e, Given(input, output), output[..], inAt, outAt, ivec[..], length);
      assert Source(Given(input, output), output[..])[inAt..inAt + length] == input[inAt..inAt + length];
    }
    EncryptBlocks(box, input, inAt, output, outAt, length, key, ivec, sched, e);
  }

  // ----- Decryption -----

  /** output[outAt..] ^= ivec, n bytes of source added to the vector. */
  method AddVector(src: array<U8>, srcAt: nat, n: nat, ivec: array<U8>, output: array<U8>, outAt: nat)
    requires n <= SIZE && srcAt + n <= src.Length && outAt + n <= output.Length && ivec.Length == SIZE && ivec != output
    requires src == output ==> srcAt == outAt
    modifies output
    ensures output[..] == Spliced(old(output[..]), outAt, XorBytes(old(src[srcAt..srcAt + n]), ivec[..n]))
  {
    hide Xor;
    ghost var a, was := src[srcAt..srcAt + n], output[..];
    for i := 0 to n
      invariant forall x :: 0 <= x < i ==> output[outAt + x] == Xor(a[x], ivec[x])
      invariant output[..outAt] == was[..outAt] && output[outAt + i..] == was[outAt + i..]
      invariant src[srcAt + i..srcAt + n] == a[i..]
    {
      assert src[srcAt + i] == src[srcAt + i..srcAt + n][0] == a[i];
      output[outAt + i] := Xor(src[srcAt + i], ivec[i]);
    }
  }

  method DecryptBlock(box: Box, input: array<U8>, inAt: nat, output: array<U8>, outAt: nat, key: AesKey, ivec: array<U8>,
                      ghost sched: Expansion, ghost d: Bytes -> Bytes)
    requires inAt + SIZE <= input.Length && outAt + SIZE <= output.Length && ivec.Length == SIZE
    requires ivec != input && ivec != output && Expanded(key, sched) && Deciphers(d, box, sched)
    modifies output, ivec
    ensures |d(old(input[inAt..inAt + SIZE]))| == SIZE
    ensures output[..] == Spliced(old(output[..]), outAt, XorBytes(d(old(input[inAt..inAt + SIZE])), old(ivec[..])))
    ensures ivec[..] == old(input[inAt..inAt + SIZE])
  {
    ghost var c, before := input[inAt..inAt + SIZE], output[..];
    var tmp := new U8[SIZE];
    CopyBlock(input, inAt, tmp, 0);
    assert tmp[0..SIZE] == c;
    DecryptAt(box, input, inAt, output, outAt, key, sched, d);
    SpliceThenSlice(before, outAt, d(c));
    assert ivec[..SIZE] == ivec[..];
    ghost var mixed := XorBytes(d(c), ivec[..]);
    AddVector(output, outAt, SIZE, ivec, output, outAt);
    SpliceOver(before, outAt, d(c), mixed);
    CopyBlock(tmp, 0, ivec, 0);
  }

  lemma {:induction false} SpliceOver(bytes: Bytes, at: nat, a: Bytes, b: Bytes)
    requires |a| == |b| && at + |a| <= |bytes|
    ensures Spliced(Spliced(bytes, at, a), at, b) == Spliced(bytes, at, b)
  {
  }

  /** The last, partial block: only n bytes of it are written. */
  method DecryptPiece(box: Box, input: array<U8>, inAt: nat, output: array<U8>, outAt: nat, n: nat, key: AesKey,
                      ivec: array<U8>, ghost sched: Expansion, ghost d: Bytes -> Bytes)
    requires 0 < n < SIZE && inAt + SIZE <= input.Length && outAt + n <= output.Length && ivec.Length == SIZE
    requires ivec != input && ivec != output && Expanded(key, sched) && Deciphers(d, box, sched)
    modifies output, ivec
    ensures |d(old(input[inAt..inAt + SIZE]))| == SIZE
    ensures output[..] == Spliced(old(output[..]), outAt, XorBytes(d(old(input[inAt..inAt + SIZE]))[..n], old(ivec[..n])))
    ensures ivec[..] == d(old(input[inAt..inAt + SIZE]))
  {
    ghost var c := input[inAt..inAt + SIZE];
    var tmp := new U8[SIZE];
    CopyBlock(input, inAt, tmp, 0);
    assert tmp[0..SIZE] == c;
    DecryptAt(box, tmp, 0, tmp, 0, key, sched, d);
    assert tmp[..] == d(c) && tmp[0..0 + n] == d(c)[..n];
    AddVector(tmp, 0, n, ivec, output, outAt);
    CopyBlock(tmp, 0, ivec, 0);
    assert tmp[0..SIZE] == d(c) && ivec[..] == d(c);
  }

  function DecryptRun(d: Bytes -> Bytes, given: Option<Bytes>, out: Bytes, i: nat, o: nat, iv: Bytes, n: nat): Buffered
    requires |iv| == SIZE && Blocks(d) && i + Padded(n) <= |Source(given, out)| && o + n <= |out|
    decreases n
  {
    if n >= SIZE then
      var c := Source(given, out)[i..i + SIZE];
      DecryptRun(d, given, Spliced(out, o, XorBytes(d(c), iv)), i + SIZE, o + SIZE, c, n - SIZE)
    else if n != 0 then
      var p := d(Source(given, out)[i..i + SIZE]);
      Buffered(Spliced(out, o, XorBytes(p[..n], iv[..n])), p)
    else Buffered(out, iv)
  }

  lemma {:induction false} DecryptRunStep(d: Bytes -> Bytes, given: Option<Bytes>, out: Bytes, i: nat, o: nat, iv: Bytes, n: nat)
    requires |iv| == SIZE && Blocks(d) && i + Padded(n) <= |Source(given, out)| && o + n <= |out| && n >= SIZE
    ensures var c := Source(given, out)[i..i + SIZE];
            var next := Spliced(out, o, XorBytes(d(c), iv));
            && i + SIZE + Padded(n - SIZE) <= |Source(given, next)| && o + SIZE + (n - SIZE) <= |next|
            && DecryptRun(d, given, out, i, o, iv, n) == DecryptRun(d, given, next, i + SIZE, o + SIZE, c, n - SIZE)
  {
  }

  lemma {:induction false} DecryptRunShort(d: Bytes -> Bytes, given: Option<Bytes>, out: Bytes, i: nat, o: nat, iv: Bytes, n: nat)
    requires |iv| == SIZE && Blocks(d) && i + Padded(n) <= |Source(given, out)| && o + n <= |out| && n < SIZE
    ensures var r := Decrypt(d, iv, Source(given, out)[i..i + Padded(n)], n);
            |r.out| == n && DecryptRun(d, given, out, i, o, iv, n) == Buffered(Spliced(out, o, r.out), r.iv)
  {
    var text := Source(given, out)[i..i + Padded(n)];
    if n == 0 {
      assert Spliced(out, o, []) == out;
    } else {
      assert text[..SIZE] == text;
    }
  }

  lemma {:induction false} DecryptRunIs(d: Bytes -> Bytes, given: Option<Bytes>, out: Bytes, i: nat, o: nat, iv: Bytes, n: nat)
    requires |iv| == SIZE && Blocks(d) && i + Padded(n) <= |Source(given, out)| && o + n <= |out|
    requires given.None? ==> Apart(i, Padded(n), o)
    ensures var r := Decrypt(d, iv, Source(given, out)[i..i + Padded(n)], n);
            |r.out| == n && DecryptRun(d, given, out, i, o, iv, n) == Buffered(Spliced(out, o, r.out), r.iv)
    decreases n
  {
    hide Decrypt, DecryptRun, XorBytes, Spliced, Source;
    if n < SIZE {
      DecryptRunShort(d, given, out, i, o, iv, n);
    } else {
      var text := Source(given, out)[i..i + Padded(n)];
      var c, rest := text[..SIZE], text[SIZE..];
      SliceFront(Source(given, out), i, Padded(n));
      var p := XorBytes(d(c), iv);
      DecryptRunStep(d, given, out, i, o, iv, n);
      SourceLater(given, out, i, Padded(n), o, p);
      DecryptRunIs(d, given, Spliced(out, o, p), i + SIZE, o + SIZE, c, n - SIZE);
      SplitFront(text, []);
      DecryptStep(d, iv, c, rest, n - SIZE);
      SpliceTwice(out, o, p, Decrypt(d, c, rest, n - SIZE).out);
    }
  }

  method DecryptTurn(box: Box, input: array<U8>, i: nat, len: nat, output: array<U8>, o: nat, key: AesKey, ivec: array<U8>,
                     ghost sched: Expansion, ghost d: Bytes -> Bytes)
    requires len >= SIZE && Deciphers(d, box, sched) && Expanded(key, sched)
    requires Buffers(input, i, Padded(len), output, o, len, ivec)
    modifies output, ivec
    ensures Expanded(key, sched) && Buffers(input, i + SIZE, Padded(len - SIZE), output, o + SIZE, len - SIZE, ivec)
    ensures DecryptRun(d, Given(input, output), output[..], i + SIZE, o + SIZE, ivec[..], len - SIZE)
         == old(DecryptRun(d, Given(input, output), output[..], i, o, ivec[..], len))
  {
    assert Padded(len) == SIZE + Padded(len - SIZE);
    DecryptRunStep(d, Given(input, output), output[..], i, o, ivec[..], len);
    BuffersOn(input, i, Padded(len), output, o, len, ivec);
    hide Deciphered, DecryptRun, Padded, XorBytes, Spliced;
    assert Source(Given(input, output), output[..])[i..i + SIZE] == input[i..i + SIZE];
    DecryptBlock(box, input, i, output, o, key, ivec, sched, d);
  }

  method DecryptTail(box: Box, input: array<U8>, i: nat, len: nat, output: array<U8>, o: nat, key: AesKey, ivec: array<U8>,
                     ghost sched: Expansion, ghost d: Bytes -> Bytes)
    requires len < SIZE && Deciphers(d, box, sched) && Expanded(key, sched)
    requires Buffers(input, i, Padded(len), output, o, len, ivec)
    modifies output, ivec
    ensures Buffered(output[..], ivec[..]) == old(DecryptRun(d, Given(input, output), output[..], i, o, ivec[..], len))
  {
    hide Deciphered, XorBytes;
    if len != 0 {
      assert Source(Given(input, output), output[..])[i..i + SIZE] == input[i..i + SIZE] && ivec[..][..len] == ivec[..len];
      DecryptPiece(box, input, i, output, o, len, key, ivec, sched, d);
    }
  }

  method DecryptBlocks(box: Box, input: array<U8>, inAt: nat, output: array<U8>, outAt: nat, length: nat, key: AesKey,
                       ivec: array<U8>, ghost sched: Expansion, ghost d: Bytes -> Bytes)
    requires Buffers(input, inAt, Padded(length), output, outAt, length, ivec)
    requires Expanded(key, sched) && Deciphers(d, box, sched)
    modifies output, ivec
    ensures Buffered(output[..], ivec[..]) == old(DecryptRun(d, Given(input, output), output[..], inAt, outAt, ivec[..], length))
  {
    hide DecryptRun;
    ghost var final := DecryptRun(d, Given(input, output), output[..], inAt, outAt, ivec[..], length);
    var len: nat, i: nat, o: nat := length, inAt, outAt;
    while len >= SIZE
      invariant Expanded(key, sched) && Buffers(input, i, Padded(len), output, o, len, ivec)
      invariant DecryptRun(d, Given(input, output), output[..], i, o, ivec[..], len) == final
    {
      DecryptTurn(box, input, i, len, output, o, key, ivec, sched, d);
      len, i, o := len - SIZE, i + SIZE, o + SIZE;
    }
    DecryptTail(box, input, i, len, output, o, key, ivec, sched, d);
  }

  method CbcDecrypt(box: Box, input: array<U8>, inAt: nat, output: array<U8>, outAt: nat, length: nat, key: AesKey,
                    ivec: array<U8>, ghost sched: Expansion, ghost d: Bytes -> Bytes)
    requires Buffers(input, inAt, Padded(length), output, outAt, length, ivec)
    requires Expanded(key, sched) && Deciphers(d, box, sched)
    modifies output, ivec
    ensures Buffered(output[..], ivec[..]) == old(DecryptRun(d, Given(input, output), output[..], inAt, outAt, ivec[..], length))
    ensures (input == output ==> Apart(inAt, Padded(length), outAt)) ==>
              Leaves(Decrypt(d, old(ivec[..]), old(input[inAt..inAt + Padded(length)]), length), old(output[..]), outAt, length,
                     output[..], ivec[..])
  {
    hide DecryptRun;
    if input == output ==> Apart(inAt, Padded(length), outAt) {
      DecryptRunIs(d, Given(input, output), output[..], inAt, outAt, ivec[..], length);
      assert Source(Given(input, output), output[..])[inAt..inAt + Padded(length)] == input[inAt..inAt + Padded(length)];
    }
    DecryptBlocks(box, input, inAt, output, outAt, length, key, ivec, sched, d);
  }

  // ----- Both -----

  /** The block ciphers that AES_cbc_encrypt chains, under any expanded key. */
  lemma {:induction false} KeyCiphers(box: Box, sched: Expansion)
    requires sched.Valid()
    ensures Enciphers(Encipher(box, sched.Keys()), box, sched) && Deciphers(Decipher(box, sched.Keys()), box, sched)
  {
  }

  method AesCbcEncrypt(box: Box, input: array<U8>, inAt: nat, output: array<U8>, outAt: nat, length: nat, key: AesKey,
                       ivec: array<U8>, enc: bool, ghost sched: Expansion, ghost e: Bytes -> Bytes, ghost d: Bytes -> Bytes)
    requires Expanded(key, sched)
    requires enc ==> Enciphers(e, box, sched) && Buffers(input, inAt, length, output, outAt, Padded(length), ivec)
    requires !enc ==> Deciphers(d, box, sched) && Buffers(input, inAt, Padded(length), output, outAt, length, ivec)
    modifies output, ivec
    ensures enc ==> Buffered(output[..], ivec[..]) == old(EncryptRun(e, Given(input, output), output[..], inAt, outAt, ivec[..], length))
    ensures enc && (input == output ==> Apart(inAt, length, outAt)) ==>
              Leaves(Encrypt(e, old(ivec[..]), old(input[inAt..inAt + length])), old(output[..]), outAt, Padded(length),
                     output[..], ivec[..])
    ensures !enc ==> Buffered(output[..], ivec[..]) == old(DecryptRun(d, Given(input, output), output[..], inAt, outAt, ivec[..], length))
    ensures !enc && (input == output ==> Apart(inAt, Padded(length), outAt)) ==>
              Leaves(Decrypt(d, old(ivec[..]), old(input[inAt..inAt + Padded(length)]), length), old(output[..]), outAt, length,
                     output[..], ivec[..])
  {
    if enc {
      CbcEncrypt(box, input, inAt, output, outAt, length, key, ivec, sched, e);
    } else {
      CbcDecrypt(box, input, inAt, output, outAt, length, key, ivec, sched, d);
    }
  }

  /** The n bytes of the result have been written at `at` and nothing else has changed but the vector. */
  ghost predicate Leaves(r: Chained, before: Bytes, at: nat, n: nat, out: Bytes, iv: Bytes) {
    |r.out| == n && at + n <= |before| && out == Spliced(before, at, r.out) && iv == r.iv
  }

  /** For every AES key, vector and message of any length: decrypting under the schedule of
      AES_set_decrypt_key what was encrypted under that of AES_set_encrypt_key gives back the message. */
  lemma {:induction false} AesCbcRoundTrip(box: Box, key: seq<Column>, iv: Bytes, msg: Bytes)
    requires Inverts(box) && AesKeySchedule.KeyLength(|key|) && |iv| == SIZE
    ensures var keys := AesKeySchedule.Schedule(box, key);
            var e, d := Encipher(box, keys), Decipher(box, InverseKeys(Aes(box), keys));
            && Undoes(d, e) && |Encrypt(e, iv, msg).out| == Padded(|msg|)
            && Decrypt(d, iv, Encrypt(e, iv, msg).out, |msg|).out == msg
  {
    var keys := AesKeySchedule.Schedule(box, key);
    DecipherUndoes(box, keys);
    CbcMode.RoundTrip(Encipher(box, keys), Decipher(box, InverseKeys(Aes(box), keys)), iv, msg);
  }
}
