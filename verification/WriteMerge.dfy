/** Merging a batch of writes before submitting it (multiwrite_merge in block.c). */
module WriteMerge {
  import opened Sectors
  import opened Wire

  const IOV_MAX: nat := 1024

  /** A QEMUIOVector: its segments in order. */
  type Qiov = seq<seq<Byte>>

  function Flatten(q: Qiov): seq<Byte> {
    if q == [] then [] else q[0] + Flatten(q[1..])
  }

  /** qemu_iovec_concat: the leading segments of src, the last one cut to fit, up to size bytes. Nothing is
      copied once size is reached, and empty segments are passed over. */
  function Concat(src: Qiov, size: nat): Qiov {
    if src == [] || size == 0 then []
    else if src[0] == [] then Concat(src[1..], size)
    else if |src[0]| > size then [src[0][..size]]
    else [src[0]] + Concat(src[1..], size - |src[0]|)
  }

  lemma {:induction false} ConcatBytes(src: Qiov, size: nat)
    requires size <= |Flatten(src)|
    ensures Flatten(Concat(src, size)) == Flatten(src)[..size]
  {
    if src == [] || size == 0 {
    } else if src[0] == [] {
      ConcatBytes(src[1..], size);
      assert src[0] + Flatten(src[1..]) == Flatten(src[1..]);
    } else if |src[0]| > size {
      assert Flatten([src[0][..size]]) == src[0][..size] + [];
      assert (src[0] + Flatten(src[1..]))[..size] == src[0][..size];
    } else {
      ConcatBytes(src[1..], size - |src[0]|);
      var rest := Concat(src[1..], size - |src[0]|);
      assert Concat(src, size)[1..] == rest;
      assert (src[0] + Flatten(src[1..]))[..size] == src[0] + Flatten(src[1..])[..size - |src[0]|];
    }
  }

  /** Copying a whole vector keeps its bytes and only drops segments. */
  lemma {:induction false} ConcatWhole(src: Qiov)
    ensures Flatten(Concat(src, |Flatten(src)|)) == Flatten(src)
  {
    ConcatBytes(src, |Flatten(src)|);
    assert Flatten(src)[..|Flatten(src)|] == Flatten(src);
  }

  lemma {:induction false} FlattenAppend(a: Qiov, b: Qiov)
    ensures Flatten(a + b) == Flatten(a) + Flatten(b)
  {
    if a == [] {
      assert a + b == b;
    } else {
      FlattenAppend(a[1..], b);
      assert (a + b)[1..] == a[1..] + b;
      assert a[0] + (Flatten(a[1..]) + Flatten(b)) == a[0] + Flatten(a[1..]) + Flatten(b);
    }
  }

  /** A write of whole sectors. */
  datatype Req = Req(sector: nat, qiov: Qiov)

  function Start(r: Req): nat { r.sector * SECTOR_SIZE }

  function End(r: Req): nat { Start(r) + |Flatten(r.qiov)| }

  predicate Covers(r: Req, x: nat) { Start(r) <= x < End(r) }

  function ByteAt(r: Req, x: nat): Byte
    requires Covers(r, x)
  {
    Flatten(r.qiov)[x - Start(r)]
  }

  /** The byte at address x, initially d, after the writes have been done in order. */
  function After(reqs: seq<Req>, d: Byte, x: nat): Byte {
    if reqs == [] then d
    else if Covers(reqs[|reqs| - 1], x) then ByteAt(reqs[|reqs| - 1], x)
    else After(reqs[..|reqs| - 1], d, x)
  }

  // ----- The merge -----

  /** Exactly sequential or overlapping, and not too many segments. */
  predicate Mergeable(o: Req, r: Req) {
    r.sector * SECTOR_SIZE <= End(o) && |o.qiov| + |r.qiov| + 1 <= IOV_MAX
  }

  function Join(o: Req, r: Req): Req
    requires o.sector <= r.sector
  {
    o.(qiov := Concat(o.qiov, (r.sector - o.sector) * SECTOR_SIZE) + Concat(r.qiov, |Flatten(r.qiov)|))
  }

  ghost predicate Sorted(reqs: seq<Req>) {
    forall i, j :: 0 <= i < j < |reqs| ==> reqs[i].sector <= reqs[j].sector
  }

  function Last<T>(xs: seq<T>): T
    requires xs != []
  {
    xs[|xs| - 1]
  }

  function Step(outs: seq<Req>, r: Req): seq<Req>
    requires outs != [] && Last(outs).sector <= r.sector
  {
    if Mergeable(Last(outs), r) then outs[..|outs| - 1] + [Join(Last(outs), r)] else outs + [r]
  }

  function Merge(reqs: seq<Req>): (outs: seq<Req>)
    requires Sorted(reqs)
    ensures reqs != [] ==> outs != [] && Last(outs).sector <= Last(reqs).sector
  {
    if |reqs| <= 1 then reqs else
      var n := |reqs| - 1;
      Step(Merge(reqs[..n]), reqs[n])
  }

  /** What joining keeps: the first request's bytes up to the second's start, then the second's. */
  lemma {:induction false} JoinBytes(o: Req, r: Req, x: nat)
    requires o.sector <= r.sector && Start(r) <= End(o)
    ensures Start(Join(o, r)) == Start(o) && End(Join(o, r)) == End(r)
    ensures Covers(r, x) ==> Covers(Join(o, r), x) && ByteAt(Join(o, r), x) == ByteAt(r, x)
    ensures Start(o) <= x < Start(r) ==>
              Covers(o, x) && Covers(Join(o, r), x) && ByteAt(Join(o, r), x) == ByteAt(o, x)
  {
    var size := (r.sector - o.sector) * SECTOR_SIZE;
    ConcatBytes(o.qiov, size);
    ConcatWhole(r.qiov);
    FlattenAppend(Concat(o.qiov, size), Concat(r.qiov, |Flatten(r.qiov)|));
  }

  /** However much was joined, the last output ends where the last request does. */
  lemma {:induction false} MergeEnd(reqs: seq<Req>)
    requires Sorted(reqs) && reqs != []
    ensures End(Last(Merge(reqs))) == End(Last(reqs))
  {
    if |reqs| > 1 {
      var n := |reqs| - 1;
      var o := Last(Merge(reqs[..n]));
      if Mergeable(o, reqs[n]) { JoinBytes(o, reqs[n], 0); }
    }
  }

  lemma {:induction false} ConcatFits(src: Qiov, size: nat)
    ensures |Concat(src, size)| <= |src|
  {
    if src != [] && size != 0 && |src[0]| <= size {
      ConcatFits(src[1..], size - |src[0]|);
    }
  }

  /** What the guard on the number of segments is for: the system's limit is never exceeded by merging. */
  lemma {:induction false} MergeFits(reqs: seq<Req>)
    requires Sorted(reqs) && forall i :: 0 <= i < |reqs| ==> |reqs[i].qiov| <= IOV_MAX
    ensures forall i :: 0 <= i < |Merge(reqs)| ==> |Merge(reqs)[i].qiov| <= IOV_MAX
  {
    if |reqs| > 1 {
      var n := |reqs| - 1;
      MergeFits(reqs[..n]);
      var o := Last(Merge(reqs[..n]));
      ConcatFits(o.qiov, (reqs[n].sector - o.sector) * SECTOR_SIZE);
      ConcatFits(reqs[n].qiov, |Flatten(reqs[n].qiov)|);
    }
  }

  // ----- What the merge loses -----

  /** Joining the last of these requests drops address x: the request before it reaches x and the
      last does not. */
  predicate Drops(reqs: seq<Req>, x: nat)
    requires Sorted(reqs) && |reqs| > 1
  {
    var n := |reqs| - 1;
    Mergeable(Last(Merge(reqs[..n])), reqs[n]) && End(reqs[n]) <= x < End(reqs[n - 1])
  }

  /** Some request dropped address x and no later one writes it again. */
  predicate Lost(reqs: seq<Req>, x: nat)
    requires Sorted(reqs)
  {
    |reqs| > 1 && !Covers(reqs[|reqs| - 1], x) && (Drops(reqs, x) || Lost(reqs[..|reqs| - 1], x))
  }

  /** A request that neither writes nor drops x leaves x alone. */
  lemma {:induction false} StepElsewhere(outs: seq<Req>, r: Req, d: Byte, x: nat)
    requires outs != [] && Last(outs).sector <= r.sector && !Covers(r, x)
    requires Mergeable(Last(outs), r) ==> !(End(r) <= x < End(Last(outs)))
    ensures After(Step(outs, r), d, x) == After(outs, d, x)
  {
    var o := Last(outs);
    if Mergeable(o, r) {
      JoinBytes(o, r, x);
      assert Step(outs, r)[..|outs| - 1] == outs[..|outs| - 1];
    } else {
      assert (outs + [r])[..|outs|] == outs;
    }
  }

  lemma {:induction false} StepHere(outs: seq<Req>, r: Req, d: Byte, x: nat)
    requires outs != [] && Last(outs).sector <= r.sector && Covers(r, x)
    ensures After(Step(outs, r), d, x) == ByteAt(r, x)
  {
    if Mergeable(Last(outs), r) { JoinBytes(Last(outs), r, x); }
  }

  /** Every address that is not lost ends up as if the sorted requests had been done one by one. */
  lemma {:induction false} MergeKeeps(reqs: seq<Req>, d: Byte, x: nat)
    requires Sorted(reqs) && !Lost(reqs, x)
    ensures After(Merge(reqs), d, x) == After(reqs, d, x)
  {
    if |reqs| > 1 {
      var n := |reqs| - 1;
      var outs, r := Merge(reqs[..n]), reqs[n];
      if Covers(r, x) {
        StepHere(outs, r, d, x);
      } else {
        MergeEnd(reqs[..n]);
        MergeKeeps(reqs[..n], d, x);
        StepElsewhere(outs, r, d, x);
      }
    }
  }

  /** With ends that do not decrease nothing is ever lost. */
  lemma {:induction false} NoLossWhenEndsSorted(reqs: seq<Req>, x: nat)
    requires Sorted(reqs)
    requires forall i :: 0 < i < |reqs| ==> End(reqs[i - 1]) <= End(reqs[i])
    ensures !Lost(reqs, x)
  {
    if |reqs| > 1 {
      NoLossWhenEndsSorted(reqs[..|reqs| - 1], x);
    }
  }

  /** Write merging preserves the disk effect of requests whose ends do not decrease. */
  lemma {:induction false} MergePreserves(reqs: seq<Req>, d: Byte, x: nat)
    requires Sorted(reqs)
    requires forall i :: 0 < i < |reqs| ==> End(reqs[i - 1]) <= End(reqs[i])
    ensures After(Merge(reqs), d, x) == After(reqs, d, x)
  {
    NoLossWhenEndsSorted(reqs, x);
    MergeKeeps(reqs, d, x);
  }

  // ----- The condition is exact -----

  /** The same write with other data: equal sector and equal segment lengths. */
  ghost predicate SameShape(r: Req, r': Req) {
    && r.sector == r'.sector
    && |r.qiov| == |r'.qiov|
    && forall i :: 0 <= i < |r.qiov| ==> |r.qiov[i]| == |r'.qiov[i]|
  }

  ghost predicate SameShapes(a: seq<Req>, b: seq<Req>) {
    |a| == |b| && forall i :: 0 <= i < |a| ==> SameShape(a[i], b[i])
  }

  lemma {:induction false} ShapeSize(q: Qiov, q': Qiov)
    requires |q| == |q'| && forall i :: 0 <= i < |q| ==> |q[i]| == |q'[i]|
    ensures |Flatten(q)| == |Flatten(q')|
  {
    if q != [] {
      assert forall i :: 0 <= i < |q[1..]| ==> |q[1..][i]| == |q[i + 1]|;
      ShapeSize(q[1..], q'[1..]);
    }
  }

  lemma {:induction false} ShapeConcat(q: Qiov, q': Qiov, size: nat)
    requires |q| == |q'| && forall i :: 0 <= i < |q| ==> |q[i]| == |q'[i]|
    ensures var c, c' := Concat(q, size), Concat(q', size);
            |c| == |c'| && forall i :: 0 <= i < |c| ==> |c[i]| == |c'[i]|
  {
    if q != [] && size != 0 && |q[0]| <= size {
      assert forall i :: 0 <= i < |q[1..]| ==> |q[1..][i]| == |q[i + 1]|;
      ShapeConcat(q[1..], q'[1..], size - |q[0]|);
    }
  }

  lemma {:induction false} ShapeJoin(o: Req, r: Req, o': Req, r': Req)
    requires SameShape(o, o') && SameShape(r, r') && o.sector <= r.sector
    ensures Mergeable(o, r) == Mergeable(o', r') && End(r) == End(r')
    ensures SameShape(Join(o, r), Join(o', r'))
  {
    ShapeSize(o.qiov, o'.qiov);
    ShapeSize(r.qiov, r'.qiov);
    ShapeConcat(o.qiov, o'.qiov, (r.sector - o.sector) * SECTOR_SIZE);
    ShapeConcat(r.qiov, r'.qiov, |Flatten(r.qiov)|);
  }

  lemma {:induction false} ShapeStep(outs: seq<Req>, r: Req, outs': seq<Req>, r': Req)
    requires outs != [] && Last(outs).sector <= r.sector && SameShapes(outs, outs') && SameShape(r, r')
    ensures SameShapes(Step(outs, r), Step(outs', r'))
    ensures Mergeable(Last(outs), r) == Mergeable(Last(outs'), r')
  {
    ShapeJoin(Last(outs), r, Last(outs'), r');
  }

  lemma {:induction false} ShapePrefix(reqs: seq<Req>, reqs': seq<Req>, n: nat)
    requires Sorted(reqs) && SameShapes(reqs, reqs') && n <= |reqs|
    ensures Sorted(reqs') && Sorted(reqs[..n]) && Sorted(reqs'[..n]) && SameShapes(reqs[..n], reqs'[..n])
  {
    forall i, j | 0 <= i < j < |reqs'| ensures reqs'[i].sector <= reqs'[j].sector {
      assert SameShape(reqs[i], reqs'[i]) && SameShape(reqs[j], reqs'[j]);
    }
  }

  lemma {:induction false} ShapeMerge(reqs: seq<Req>, reqs': seq<Req>)
    requires Sorted(reqs) && SameShapes(reqs, reqs')
    ensures Sorted(reqs') && SameShapes(Merge(reqs), Merge(reqs'))
  {
    hide SameShape, Join, Mergeable;
    ShapePrefix(reqs, reqs', |reqs|);
    if |reqs| > 1 {
      var n := |reqs| - 1;
      ShapePrefix(reqs, reqs', n);
      ShapeMerge(reqs[..n], reqs'[..n]);
      ShapeStep(Merge(reqs[..n]), reqs[n], Merge(reqs'[..n]), reqs'[n]);
    }
  }

  /** What is lost depends on the shapes alone. */
  lemma {:induction false} ShapeLost(reqs: seq<Req>, reqs': seq<Req>, x: nat)
    requires Sorted(reqs) && SameShapes(reqs, reqs')
    ensures Sorted(reqs') && Lost(reqs, x) == Lost(reqs', x)
  {
    ShapePrefix(reqs, reqs', |reqs|);
    if |reqs| > 1 {
      var n := |reqs| - 1;
      ShapePrefix(reqs, reqs', n);
      ShapeLost(reqs[..n], reqs'[..n], x);
      ShapeMerge(reqs[..n], reqs'[..n]);
      ShapeStep(Merge(reqs[..n]), reqs[n], Merge(reqs'[..n]), reqs'[n]);
      assert SameShape(reqs[n], reqs'[n]) && SameShape(reqs[n - 1], reqs'[n - 1]);
      ShapeSize(reqs[n].qiov, reqs'[n].qiov);
      ShapeSize(reqs[n - 1].qiov, reqs'[n - 1].qiov);
      hide Merge, Flatten;
    }
  }

  function Paint(r: Req, b: Byte): Req {
    r.(qiov := seq(|r.qiov|, i requires 0 <= i < |r.qiov| => seq(|r.qiov[i]|, _ => b)))
  }

  lemma {:induction false} PaintBytes(q: Qiov, b: Byte)
    requires forall i, j :: 0 <= i < |q| && 0 <= j < |q[i]| ==> q[i][j] == b
    ensures forall k :: 0 <= k < |Flatten(q)| ==> Flatten(q)[k] == b
  {
    if q != [] {
      assert forall i :: 0 <= i < |q[1..]| ==> q[1..][i] == q[i + 1];
      PaintBytes(q[1..], b);
    }
  }

  lemma {:induction false} Painted(r: Req, b: Byte, x: nat)
    ensures SameShape(r, Paint(r, b)) && Covers(r, x) == Covers(Paint(r, b), x)
    ensures Covers(r, x) ==> ByteAt(Paint(r, b), x) == b
  {
    ShapeSize(r.qiov, Paint(r, b).qiov);
    PaintBytes(Paint(r, b).qiov, b);
  }

  /** Ones in the j-th request, zeros in all others. */
  function Mark(reqs: seq<Req>, j: nat): seq<Req> {
    seq(|reqs|, i requires 0 <= i < |reqs| => Paint(reqs[i], if i == j then 1 else 0))
  }

  ghost predicate NoOne(outs: seq<Req>, x: nat) {
    forall k :: 0 <= k < |outs| && Covers(outs[k], x) ==> ByteAt(outs[k], x) == 0
  }

  /** Only the last output that covers x may hold a one there. */
  ghost predicate OneAtMostLast(outs: seq<Req>, x: nat) {
    exists k :: 0 <= k < |outs| && NoOne(outs[..k], x)
                && forall m :: k < m < |outs| ==> !Covers(outs[m], x)
  }

  /** Address x is written last by request j, which alone writes a one there. */
  ghost predicate Marked(reqs: seq<Req>, j: nat, x: nat) {
    && (forall i :: 0 <= i < |reqs| && Covers(reqs[i], x) ==> ByteAt(reqs[i], x) == if i == j then 1 else 0)
    && (forall i :: j < i < |reqs| ==> !Covers(reqs[i], x))
  }

  lemma {:induction false} StepNoOne(outs: seq<Req>, r: Req, x: nat)
    requires outs != [] && Last(outs).sector <= r.sector && NoOne(outs, x)
    requires Covers(r, x) ==> ByteAt(r, x) == 0
    ensures NoOne(Step(outs, r), x)
  {
    var o := Last(outs);
    if Mergeable(o, r) {
      JoinBytes(o, r, x);
      assert Covers(Join(o, r), x) ==> Covers(r, x) || Start(o) <= x < Start(r);
    }
  }

  lemma {:induction false} StepOne(outs: seq<Req>, r: Req, x: nat)
    requires outs != [] && Last(outs).sector <= r.sector && !Covers(r, x) && OneAtMostLast(outs, x)
    ensures OneAtMostLast(Step(outs, r), x)
    ensures Mergeable(Last(outs), r) && End(r) <= x < End(Last(outs)) ==> NoOne(Step(outs, r), x)
  {
    hide Join, Flatten, Concat;
    var k :| 0 <= k < |outs| && NoOne(outs[..k], x) && forall m :: k < m < |outs| ==> !Covers(outs[m], x);
    var o, last := Last(outs), |outs| - 1;
    var outs' := Step(outs, r);
    if Mergeable(o, r) {
      JoinBytes(o, r, x);
      assert outs'[..k] == outs[..k];
      if k < last { assert !Covers(outs[last], x); }
      assert NoOne(outs'[..k], x);
    } else {
      assert outs'[..k] == outs[..k];
    }
  }

  lemma {:induction false} MarkedPrefix(reqs: seq<Req>, j: nat, x: nat, n: nat)
    requires Sorted(reqs) && Marked(reqs, j, x) && n < |reqs|
    ensures Sorted(reqs[..n]) && Marked(reqs[..n], j, x)
    ensures Covers(reqs[n], x) ==> n <= j && ByteAt(reqs[n], x) == if n == j then 1 else 0
  {
  }

  lemma {:induction false} MarkedMerge(reqs: seq<Req>, j: nat, x: nat)
    requires Sorted(reqs) && Marked(reqs, j, x)
    ensures |reqs| <= j ==> NoOne(Merge(reqs), x)
    ensures |reqs| > j ==> OneAtMostLast(Merge(reqs), x)
    ensures |reqs| > j && Lost(reqs, x) ==> NoOne(Merge(reqs), x)
  {
    if |reqs| == 1 {
      assert NoOne(Merge(reqs)[..0], x);
    } else if |reqs| > 1 {
      var n := |reqs| - 1;
      MarkedPrefix(reqs, j, x, n);
      MarkedMerge(reqs[..n], j, x);
      MergeEnd(reqs[..n]);
      MarkedStep(Merge(reqs[..n]), reqs[n], n, j, x, Lost(reqs[..n], x));
    }
  }

  lemma {:induction false} MarkedStep(outs: seq<Req>, r: Req, n: nat, j: nat, x: nat, lost: bool)
    requires outs != [] && Last(outs).sector <= r.sector
    requires Covers(r, x) ==> n <= j && ByteAt(r, x) == if n == j then 1 else 0
    requires n <= j ==> NoOne(outs, x)
    requires n > j ==> OneAtMostLast(outs, x) && (lost ==> NoOne(outs, x))
    ensures n < j ==> NoOne(Step(outs, r), x)
    ensures n >= j ==> OneAtMostLast(Step(outs, r), x)
    ensures n >= j && !Covers(r, x) && (lost || (Mergeable(Last(outs), r) && End(r) <= x < End(Last(outs)))) ==>
              NoOne(Step(outs, r), x)
  {
    if n < j {
      StepNoOne(outs, r, x);
    } else if n == j {
      StepMark(outs, r, x);
      if !Covers(r, x) { StepNoOne(outs, r, x); }
    } else {
      StepOne(outs, r, x);
      if lost { StepNoOne(outs, r, x); }
    }
  }

  lemma {:induction false} StepMark(outs: seq<Req>, r: Req, x: nat)
    requires outs != [] && Last(outs).sector <= r.sector && NoOne(outs, x)
    ensures OneAtMostLast(Step(outs, r), x)
  {
    var outs' := Step(outs, r);
    assert outs'[..|outs'| - 1] == if Mergeable(Last(outs), r) then outs[..|outs| - 1] else outs;
    assert NoOne(outs'[..|outs'| - 1], x);
  }

  lemma {:induction false} NoOneAfter(outs: seq<Req>, x: nat)
    requires NoOne(outs, x)
    ensures After(outs, 0, x) == 0
  {
    if outs != [] {
      NoOneAfter(outs[..|outs| - 1], x);
    }
  }

  lemma {:induction false} MarkedAfter(reqs: seq<Req>, j: nat, x: nat)
    requires Marked(reqs, j, x) && j < |reqs| && Covers(reqs[j], x)
    ensures After(reqs, 0, x) == 1
  {
    if j < |reqs| - 1 {
      MarkedAfter(reqs[..|reqs| - 1], j, x);
    }
  }

  lemma {:induction false} LostIsCovered(reqs: seq<Req>, x: nat) returns (j: nat)
    requires Sorted(reqs) && Lost(reqs, x)
    ensures j < |reqs| && Covers(reqs[j], x) && forall i :: j < i < |reqs| ==> !Covers(reqs[i], x)
  {
    var n := |reqs| - 1;
    if Drops(reqs, x) {
      j := n - 1;
      assert Covers(reqs[n - 1], x);
    } else {
      j := LostIsCovered(reqs[..n], x);
    }
  }

  /** The merge does what the sorted requests do, whatever data of these shapes they carry and
      whatever the disk held before. */
  ghost predicate MergesFaithfully(reqs: seq<Req>)
    requires Sorted(reqs)
  {
    forall reqs', d, x {:trigger SameShapes(reqs, reqs'), After(reqs', d, x)} ::
      SameShapes(reqs, reqs') && Sorted(reqs') ==> After(Merge(reqs'), d, x) == After(reqs', d, x)
  }

  /** Exactly when merging is faithful: every address that a contained request makes the merge drop
      is written again by a later request. */
  lemma {:induction false} MergeExact(reqs: seq<Req>)
    requires Sorted(reqs)
    ensures MergesFaithfully(reqs) <==> forall x :: !Lost(reqs, x)
  {
    if forall x :: !Lost(reqs, x) {
      forall reqs', d, x | SameShapes(reqs, reqs') && Sorted(reqs')
        ensures After(Merge(reqs'), d, x) == After(reqs', d, x)
      {
        ShapeLost(reqs, reqs', x);
        MergeKeeps(reqs', d, x);
      }
    } else {
      var x :| Lost(reqs, x);
      var j := LostIsCovered(reqs, x);
      var reqs' := Mark(reqs, j);
      forall i | 0 <= i < |reqs|
        ensures SameShape(reqs[i], reqs'[i]) && Covers(reqs[i], x) == Covers(reqs'[i], x)
        ensures Covers(reqs[i], x) ==> ByteAt(reqs'[i], x) == if i == j then 1 else 0
      {
        Painted(reqs[i], if i == j then 1 else 0, x);
      }
      assert SameShapes(reqs, reqs');
      ShapeLost(reqs, reqs', x);
      MarkedMerge(reqs', j, x);
      NoOneAfter(Merge(reqs'), x);
      MarkedAfter(reqs', j, x);
      assert After(Merge(reqs'), 0, x) != After(reqs', 0, x);
    }
  }
}
