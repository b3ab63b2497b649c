/** AES_encrypt and AES_decrypt: the loops that take two table-driven rounds a turn, against the
    cipher and the equivalent inverse cipher of FIPS 197. */
module AesBlock {
  import opened AesField
  import opened AesWord
  import opened AesCipher
  import opened AesTables
  import opened RoundCipher
  import opened Splicing

  const BLOCK_SIZE := 16
  const MAX_ROUNDS := 14

  function KeyWords(rk: seq<U32>, r: nat): Words
    requires 4 * r + 3 < |rk|
  {
    Words(rk[4 * r], rk[4 * r + 1], rk[4 * r + 2], rk[4 * r + 3])
  }

  function KeyGroups(rk: seq<U32>, n: nat): (groups: seq<Words>)
    requires 4 * n + 3 < |rk|
    ensures |groups| == n + 1
    ensures forall r :: 0 <= r <= n ==> groups[r] == KeyWords(rk, r)
  {
    seq(n + 1, r requires 0 <= r <= n => KeyWords(rk, r))
  }

  /** The round keys held in the first 4 (n + 1) words. */
  function RoundKeys(rk: seq<U32>, n: nat): (keys: seq<Block>)
    requires 4 * n + 3 < |rk|
    ensures |keys| == n + 1
    ensures forall r :: 0 <= r <= n ==> keys[r] == State(KeyWords(rk, r))
  {
    View(State, KeyGroups(rk, n))
  }

  /** AES_KEY. */
  class AesKey {
    const rdKey: array<U32>
    var rounds: nat

    constructor ()
      ensures fresh(rdKey) && rdKey.Length == 4 * (MAX_ROUNDS + 1)
    {
      rdKey := new U32[4 * (MAX_ROUNDS + 1)];
      rounds := 0;
    }

    /** A schedule has been expanded into this key. */
    predicate Valid()
      reads this
    {
      rdKey.Length == 4 * (MAX_ROUNDS + 1) && rounds in {10, 12, 14}
    }

    function Keys(): (keys: seq<Block>)
      requires Valid()
      reads this, rdKey
      ensures |keys| == rounds + 1
    {
      RoundKeys(rdKey[..], rounds)
    }
  }

  // ----- Bytes of a block -----

  function ToBlock(b: seq<U8>): Block
    requires |b| == BLOCK_SIZE
  {
    Block(Column(b[0], b[1], b[2], b[3]), Column(b[4], b[5], b[6], b[7]),
          Column(b[8], b[9], b[10], b[11]), Column(b[12], b[13], b[14], b[15]))
  }

  function ColumnBytes(c: Column): seq<U8> { [c.b0, c.b1, c.b2, c.b3] }

  function FromBlock(s: Block): (b: seq<U8>)
    ensures |b| == BLOCK_SIZE && ToBlock(b) == s
  {
    ColumnBytes(s.c0) + ColumnBytes(s.c1) + ColumnBytes(s.c2) + ColumnBytes(s.c3)
  }

  lemma {:induction false} BytesBack(b: seq<U8>)
    requires |b| == BLOCK_SIZE
    ensures FromBlock(ToBlock(b)) == b
  {
  }

  /** Sixteen bytes put through the cipher of FIPS 197 section 5.1 under the given round keys. */
  function Enciphered(box: Box, keys: seq<Block>, b: seq<U8>): (r: seq<U8>)
    requires |keys| >= 2 && |b| == BLOCK_SIZE
    ensures |r| == BLOCK_SIZE
  {
    FromBlock(Cipher(Aes(box), ToBlock(b), keys))
  }

  /** The same for the equivalent inverse cipher of section 5.3.5. */
  function Deciphered(box: Box, keys: seq<Block>, b: seq<U8>): (r: seq<U8>)
    requires |keys| >= 2 && |b| == BLOCK_SIZE
    ensures |r| == BLOCK_SIZE
  {
    FromBlock(EqInvCipher(Aes(box), ToBlock(b), keys))
  }

  /** For every block and every key schedule, deciphering undoes enciphering. */
  lemma {:induction false} DecipheredBack(box: Box, keys: seq<Block>, b: seq<U8>)
    requires Inverts(box) && |keys| >= 2 && |b| == BLOCK_SIZE
    ensures Deciphered(box, InverseKeys(Aes(box), keys), Enciphered(box, keys, b)) == b
  {
    AesLaws(box);
    DecryptUndoesEncrypt(Aes(box), ToBlock(b), keys);
    BytesBack(b);
  }

  // ----- The round loops -----

  function EncryptCode(box: Box): Code<Words> {
    Code(XorWords, (s, k) => XorWords(TableRound(box, s), k), (s, k) => XorWords(TableFinal(box, s), k))
  }

  function DecryptCode(box: Box): Code<Words> {
    Code(XorWords, (s, k) => XorWords(InvTableRound(box, s), k), (s, k) => XorWords(InvTableFinal(box, s), k))
  }

  lemma {:induction false} EncryptImplements(box: Box)
    ensures Implements(EncryptCode(box), State, Aes(box))
  {
    forall s, k
      ensures State(XorWords(s, k)) == AddRoundKey(State(s), State(k))
    {
      StateXor(s, k);
    }
    forall s, k
      ensures State(XorWords(TableRound(box, s), k)) == Round(Aes(box), State(s), State(k))
    {
      TableRoundIsRound(box, s, k);
    }
    forall s, k
      ensures State(XorWords(TableFinal(box, s), k)) == FinalRound(Aes(box), State(s), State(k))
    {
      TableFinalIsFinal(box, s, k);
    }
  }

  lemma {:induction false} DecryptImplements(box: Box)
    ensures Implements(DecryptCode(box), State, Inverse(Aes(box)))
  {
    forall s, k
      ensures State(XorWords(s, k)) == AddRoundKey(State(s), State(k))
    {
      StateXor(s, k);
    }
    forall s, k
      ensures State(XorWords(InvTableRound(box, s), k)) == Round(Inverse(Aes(box)), State(s), State(k))
    {
      InvTableRoundIsRound(box, s, k);
    }
    forall s, k
      ensures State(XorWords(InvTableFinal(box, s), k)) == FinalRound(Inverse(Aes(box)), State(s), State(k))
    {
      InvTableFinalIsFinal(box, s, k);
    }
  }

  method LoadWords(input: array<U8>, at: nat) returns (w: Words)
    requires at + BLOCK_SIZE <= input.Length
    ensures State(w) == ToBlock(input[at..at + BLOCK_SIZE])
  {
    ghost var c := ToBlock(input[at..at + BLOCK_SIZE]);
    PutGet(c.c0);
    PutGet(c.c1);
    PutGet(c.c2);
    PutGet(c.c3);
    w := Words(GetU32(Column(input[at], input[at + 1], input[at + 2], input[at + 3])),
               GetU32(Column(input[at + 4], input[at + 5], input[at + 6], input[at + 7])),
               GetU32(Column(input[at + 8], input[at + 9], input[at + 10], input[at + 11])),
               GetU32(Column(input[at + 12], input[at + 13], input[at + 14], input[at + 15])));
  }

  method StoreColumn(output: array<U8>, at: nat, c: Column)
    requires at + 4 <= output.Length
    modifies output
    ensures output[..] == Spliced(old(output[..]), at, ColumnBytes(c))
  {
    output[at] := c.b0;
    output[at + 1] := c.b1;
    output[at + 2] := c.b2;
    output[at + 3] := c.b3;
  }

  lemma {:induction false} SpliceColumns(bytes: seq<U8>, at: nat, a: seq<U8>, b: seq<U8>, c: seq<U8>, d: seq<U8>)
    requires |a| == |b| == |c| == |d| == 4 && at + BLOCK_SIZE <= |bytes|
    ensures Spliced(Spliced(Spliced(Spliced(bytes, at, a), at + 4, b), at + 8, c), at + 12, d)
         == Spliced(bytes, at, a + b + c + d)
  {
    SpliceTwice(bytes, at, a, b);
    SpliceTwice(bytes, at, a + b, c);
    SpliceTwice(bytes, at, a + b + c, d);
  }

  method StoreWords(output: array<U8>, at: nat, w: Words)
    requires at + BLOCK_SIZE <= output.Length
    modifies output
    ensures output[..] == Spliced(old(output[..]), at, FromBlock(State(w)))
  {
    var s := State(w);
    SpliceColumns(output[..], at, ColumnBytes(s.c0), ColumnBytes(s.c1), ColumnBytes(s.c2), ColumnBytes(s.c3));
    StoreColumn(output, at, s.c0);
    StoreColumn(output, at + 4, s.c1);
    StoreColumn(output, at + 8, s.c2);
    StoreColumn(output, at + 12, s.c3);
  }

  method EncryptWords(box: Box, w: Words, key: AesKey) returns (s: Words)
    requires key.Valid()
    ensures State(s) == Cipher(Aes(box), State(w), key.Keys())
  {
    EncryptImplements(box);
    s := RunRounds(EncryptCode(box), w, KeyGroups(key.rdKey[..], key.rounds), key.rounds, State, Aes(box));
  }

  /** One block. The input is read before any output is written, so the two may overlap. */
  method AesEncrypt(box: Box, input: array<U8>, inAt: nat, output: array<U8>, outAt: nat, key: AesKey)
    requires inAt + BLOCK_SIZE <= input.Length && outAt + BLOCK_SIZE <= output.Length && key.Valid()
    modifies output
    ensures key.rdKey[..] == old(key.rdKey[..])
    ensures output[..] == Spliced(old(output[..]), outAt, Enciphered(box, old(key.Keys()), old(input[inAt..inAt + BLOCK_SIZE])))
  {
    var w := LoadWords(input, inAt);
    var s := EncryptWords(box, w, key);
    StoreWords(output, outAt, s);
  }

  method DecryptWords(box: Box, w: Words, key: AesKey) returns (s: Words)
    requires key.Valid()
    ensures State(s) == EqInvCipher(Aes(box), State(w), key.Keys())
  {
    DecryptImplements(box);
    s := RunRounds(DecryptCode(box), w, KeyGroups(key.rdKey[..], key.rounds), key.rounds, State, Inverse(Aes(box)));
  }

  method AesDecrypt(box: Box, input: array<U8>, inAt: nat, output: array<U8>, outAt: nat, key: AesKey)
    requires inAt + BLOCK_SIZE <= input.Length && outAt + BLOCK_SIZE <= output.Length && key.Valid()
    modifies output
    ensures key.rdKey[..] == old(key.rdKey[..])
    ensures output[..] == Spliced(old(output[..]), outAt, Deciphered(box, old(key.Keys()), old(input[inAt..inAt + BLOCK_SIZE])))
  {
    var w := LoadWords(input, inAt);
    var s := DecryptWords(box, w, key);
    StoreWords(output, outAt, s);
  }
}
