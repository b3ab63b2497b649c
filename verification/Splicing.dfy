/** Overwriting part of a buffer. */
module Splicing {

  /** `data` written at `off`. */
  function Spliced<T>(bytes: seq<T>, off: nat, data: seq<T>): (r: seq<T>)
    requires off + |data| <= |bytes|
    ensures |r| == |bytes|
    ensures forall x :: 0 <= x < |r| ==> r[x] == if off <= x < off + |data| then data[x - off] else bytes[x]
  {
    bytes[..off] + data + bytes[off + |data|..]
  }

  /** Writing in two pieces is writing at once. */
  lemma {:induction false} SpliceTwice<T>(bytes: seq<T>, off: nat, a: seq<T>, b: seq<T>)
    requires off + |a| + |b| <= |bytes|
    ensures Spliced(Spliced(bytes, off, a), off + |a|, b) == Spliced(bytes, off, a + b)
  {
  }

  /** Reading back what was written, and only that is changed: the laws of a flat array. */
  lemma {:induction false} SpliceThenSlice<T>(bytes: seq<T>, off: nat, data: seq<T>)
    requires off + |data| <= |bytes|
    ensures Spliced(bytes, off, data)[off..off + |data|] == data
    ensures Spliced(bytes, off, bytes[off..off + |data|]) == bytes
  {
  }
}
