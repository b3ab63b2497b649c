/** Bytes on a QEMUFile and the big-endian words written to it. */
module Wire {
  import opened Arith

  type Byte = b: nat | b < 256

  datatype Option<+T> = None | Some(value: T)

  /** One past the largest 64-bit word. */
  const WORD_LIMIT: nat := 0x1_0000_0000_0000_0000

  /** The n low bytes of w, most significant first. */
  function PutBe(w: nat, n: nat): (s: seq<Byte>)
    ensures |s| == n
  {
    if n == 0 then [] else PutBe(w / 256, n - 1) + [w % 256]
  }

  function GetBe(s: seq<Byte>): nat {
    if s == [] then 0 else GetBe(s[..|s| - 1]) * 256 + s[|s| - 1]
  }

  function Pow256(n: nat): nat { if n == 0 then 1 else 256 * Pow256(n - 1) }

  lemma {:induction false} BeRoundTrip(w: nat, n: nat)
    requires w < Pow256(n)
    ensures GetBe(PutBe(w, n)) == w
  {
    if n != 0 {
      BeRoundTrip(w / 256, n - 1);
      assert PutBe(w, n)[..n - 1] == PutBe(w / 256, n - 1);
    }
  }

  /** The most significant byte comes first: byte k of n is the digit of 256^(n - 1 - k). */
  lemma {:induction false} BeDigits(w: nat, n: nat, k: nat)
    requires k < n
    ensures Pow256(n - 1 - k) > 0 && PutBe(w, n)[k] == w / Pow256(n - 1 - k) % 256
    decreases n
  {
    if k < n - 1 {
      BeDigits(w / 256, n - 1, k);
      var p := Pow256(n - 2 - k);
      DivTwice(w, p);
    }
  }

  lemma {:induction false} DivTwice(x: nat, b: nat)
    requires b > 0
    ensures x / 256 / b == x / (256 * b)
  {
    var y, t := x / 256, x % 256;
    var q, r := y / b, y % b;
    DivMod(y, b);
    assert x == 256 * y + t && y == q * b + r;
    assert q * (256 * b) == 256 * (q * b);
    DivUnique(x, 256 * b, q, 256 * r + t);
  }

  function PutWord(w: nat): (s: seq<Byte>)
    ensures |s| == 8
  {
    PutBe(w, 8)
  }

  /** A value read off the front of a stream, and what is left of the stream. */
  datatype Got<+T> = Short | Got(value: T, rest: seq<Byte>)

  function GetWord(s: seq<Byte>): Got<nat> {
    if |s| < 8 then Short else Got(GetBe(s[..8]), s[8..])
  }

  /** A word cut off by the end of the stream reads as if zero bytes followed. */
  function GetCutWord(s: seq<Byte>): nat
    requires |s| < 8
  {
    GetBe(s + seq(8 - |s|, _ => 0))
  }

  function GetByte(s: seq<Byte>): Got<Byte> {
    if s == [] then Short else Got(s[0], s[1..])
  }

  function GetBuffer(s: seq<Byte>, n: nat): Got<seq<Byte>> {
    if |s| < n then Short else Got(s[..n], s[n..])
  }

  /** A C string is what precedes the first NUL. */
  function CString(s: seq<Byte>): (c: seq<Byte>)
    ensures |c| <= |s|
  {
    if s == [] || s[0] == 0 then [] else [s[0]] + CString(s[1..])
  }

  /** A length byte followed by that many bytes, as written for idstr and device_name. */
  function PutName(id: seq<Byte>): seq<Byte>
    requires |id| < 256
  {
    [|id|] + id
  }

  function GetName(s: seq<Byte>): Got<seq<Byte>> {
    match GetByte(s)
    case Short => Short
    case Got(n, rest) =>
      match GetBuffer(rest, n)
      case Short => Short
      case Got(id, rest') => Got(CString(id), rest')
  }

  /** A name that fits the `char[256]` holding it. */
  ghost predicate ValidName(id: seq<Byte>) {
    |id| < 256 && forall i :: 0 <= i < |id| ==> id[i] != 0
  }

  lemma GetPutWord(w: nat, rest: seq<Byte>)
    requires w < WORD_LIMIT
    ensures GetWord(PutWord(w) + rest) == Got(w, rest)
  {
    assert Pow256(8) == WORD_LIMIT;
    BeRoundTrip(w, 8);
    assert (PutWord(w) + rest)[..8] == PutWord(w);
    assert (PutWord(w) + rest)[8..] == rest;
  }

  lemma {:induction false} PutGetBe(s: seq<Byte>)
    ensures PutBe(GetBe(s), |s|) == s && GetBe(s) < Pow256(|s|)
  {
    if s != [] {
      PutGetBe(s[..|s| - 1]);
      assert s == s[..|s| - 1] + [s[|s| - 1]];
    }
  }

  /** What reads as a word was written as that word. */
  lemma {:induction false} PutGetWord(s: seq<Byte>)
    requires |s| >= 8
    ensures GetBe(s[..8]) < WORD_LIMIT && s == PutWord(GetBe(s[..8])) + s[8..]
  {
    PutGetBe(s[..8]);
    assert Pow256(8) == WORD_LIMIT;
  }

  lemma GetPutBuffer(x: seq<Byte>, rest: seq<Byte>)
    ensures GetBuffer(x + rest, |x|) == Got(x, rest)
  {
    assert (x + rest)[..|x|] == x;
    assert (x + rest)[|x|..] == rest;
  }

  lemma {:induction false} CStringSame(s: seq<Byte>)
    requires forall i :: 0 <= i < |s| ==> s[i] != 0
    ensures CString(s) == s
  {
    if s != [] {
      CStringSame(s[1..]);
      assert s == [s[0]] + s[1..];
    }
  }

  /** A length byte and its bytes are read as the name they hold, which ends at the first NUL. */
  lemma {:induction false} GetRawName(raw: seq<Byte>, rest: seq<Byte>)
    requires |raw| < 256
    ensures GetName(PutName(raw) + rest) == Got(CString(raw), rest)
  {
    assert (PutName(raw) + rest)[1..] == raw + rest;
    GetPutBuffer(raw, rest);
  }

  /** And whatever reads as a name is such bytes. */
  lemma {:induction false} RawNameOf(s: seq<Byte>) returns (raw: seq<Byte>)
    requires GetName(s).Got?
    ensures |raw| < 256 && s == PutName(raw) + GetName(s).rest && GetName(s).value == CString(raw)
  {
    raw := s[1..][..s[0]];
    assert s == [s[0]] + s[1..];
  }

  lemma GetPutName(id: seq<Byte>, rest: seq<Byte>)
    requires ValidName(id)
    ensures GetName(PutName(id) + rest) == Got(id, rest)
  {
    var s := PutName(id) + rest;
    assert s[1..] == id + rest;
    GetPutBuffer(id, rest);
    CStringSame(id);
  }
}
