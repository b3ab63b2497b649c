/** Copy-on-read as a concurrent protocol over tracked requests (block.c).

Each request runs as a coroutine. It may be interrupted wherever the code waits or does driver
I/O, and the driver moves one sector at a time, so the steps of different requests interleave in
every possible way, including failures part-way through.
*/
module CopyOnRead {
  import opened Lists
  import opened Wire
  import opened Clusters

  /** The contents of one sector. */
  type Data = seq<Byte>

  datatype Kind = Read | Write(data: seq<Data>) | CopyOnRead

  datatype Request = Request(range: Range, kind: Kind)

  /** Where a coroutine is.
      Waiting: in the wait queue of a tracked request. Woken: restarted, about to look again.
      Checking: tracked, about to ask which sectors are allocated.
      Reading: in the driver's read (of the request, or of whole clusters into the bounce buffer).
      WritingBack: in the driver's write of the bounce buffer. Writing: in a guest write.
      Finished: off the tracked list, copy_on_read_in_flight not yet decremented. */
  datatype Phase = Waiting(on: nat) | Woken | Checking | Reading | Filling | WritingBack | Writing | Finished

  /** `buf` holds the sectors read so far, `done` those written so far. */
  datatype Coroutine = Coroutine(req: Request, phase: Phase, buf: map<nat, Data>, done: set<nat>)

  /** One BlockDriverState: overlay sectors over a backing image, the tracked request list, and
      the coroutines in flight. */
  datatype Device = Device(cluster: nat, base: nat -> Data, overlay: map<nat, Data>,
                           tracked: seq<nat>, inFlight: nat, cos: map<nat, Coroutine>)

  function View(s: Device, x: nat): Data {
    if x in s.overlay then s.overlay[x] else s.base(x)
  }

  function Region(s: Device, r: Request): Range {
    RoundToClusters(s.cluster, r.range)
  }

  predicate IsCor(co: Coroutine) { co.req.kind.CopyOnRead? }

  predicate TrackedPhase(p: Phase) {
    p.Checking? || p.Reading? || p.Filling? || p.WritingBack? || p.Writing?
  }

  // ----- wait_for_overlapping_requests -----

  /** The first request on the list that overlaps the given range. */
  function FirstOverlap(tracked: seq<nat>, cos: map<nat, Coroutine>, r: Range): Option<nat>
    requires forall i :: i in tracked ==> i in cos
  {
    if tracked == [] then None
    else if Overlaps(cos[tracked[0]].req.range, r) then Some(tracked[0])
    else FirstOverlap(tracked[1..], cos, r)
  }

  lemma {:induction false} FirstOverlapFinds(tracked: seq<nat>, cos: map<nat, Coroutine>, r: Range)
    requires forall i :: i in tracked ==> i in cos
    ensures match FirstOverlap(tracked, cos, r)
            case Some(i) => i in tracked && Overlaps(cos[i].req.range, r)
            case None => forall i :: i in tracked ==> !Overlaps(cos[i].req.range, r)
  {
    if tracked != [] && !Overlaps(cos[tracked[0]].req.range, r) {
      FirstOverlapFinds(tracked[1..], cos, r);
    }
  }

  /** It is the first: none before it on the list overlaps. */
  lemma {:induction false} FirstOverlapIsFirst(tracked: seq<nat>, cos: map<nat, Coroutine>, r: Range) returns (n: nat)
    requires (forall i :: i in tracked ==> i in cos) && FirstOverlap(tracked, cos, r).Some?
    ensures n < |tracked| && FirstOverlap(tracked, cos, r) == Some(tracked[n]) && Overlaps(cos[tracked[n]].req.range, r)
    ensures forall m :: 0 <= m < n ==> !Overlaps(cos[tracked[m]].req.range, r)
  {
    if Overlaps(cos[tracked[0]].req.range, r) {
      n := 0;
    } else {
      n := FirstOverlapIsFirst(tracked[1..], cos, r);
      n := n + 1;
    }
  }

  /** The list walk of wait_for_overlapping_requests. */
  method ScanTracked(tracked: seq<nat>, cos: map<nat, Coroutine>, r: Range) returns (hit: Option<nat>)
    requires forall i :: i in tracked ==> i in cos
    ensures hit == FirstOverlap(tracked, cos, r)
  {
    var n := 0;
    while n < |tracked|
      invariant 0 <= n <= |tracked|
      invariant FirstOverlap(tracked[n..], cos, r) == FirstOverlap(tracked, cos, r)
    {
      assert tracked[n..][1..] == tracked[n + 1..];
      if Overlaps(cos[tracked[n]].req.range, r) {
        return Some(tracked[n]);
      }
      n := n + 1;
    }
    return None;
  }

  // ----- Steps -----

  datatype Step =
    | Submit(id: nat, req: Request)        // a request arrives; it looks at the list if a copy-on-read is in flight
    | Resume(id: nat)                      // a woken request looks at the list again, in any case
    | Check(id: nat, present: bool)      // bdrv_co_is_allocated answers
    | ReadSector(id: nat, x: nat)          // the driver reads a sector into the buffer
    | Filled(id: nat)                      // the bounce buffer is complete
    | WriteBack(id: nat, x: nat)           // the driver writes a bounce-buffer sector
    | WriteSector(id: nat, x: nat)         // the driver writes a sector of a guest write
    | End(id: nat, ok: bool)               // tracked_request_end, after success or failure
    | Decrement(id: nat)                   // copy_on_read_in_flight--

  /** Wait for the given request, or become tracked. */
  function Proceed(s: Device, id: nat, hit: Option<nat>): Device
    requires id in s.cos
  {
    var co := s.cos[id];
    match hit
    case Some(i) => s.(cos := s.cos[id := co.(phase := Waiting(i))])
    case None =>
      var phase := match co.req.kind
                   case Read => Reading
                   case Write(_) => Writing
                   case CopyOnRead => Checking;
      s.(tracked := [id] + s.tracked, cos := s.cos[id := co.(phase := phase)])
  }

  /** The tracked request to wait for, if any. */
  function Overlapping(s: Device, id: nat): Option<nat>
    requires id in s.cos && forall i :: i in s.tracked ==> i in s.cos
  {
    FirstOverlap(s.tracked, s.cos, Region(s, s.cos[id].req))
  }

  /** Which sectors a coroutine's driver read covers. */
  function ReadRange(s: Device, co: Coroutine): Range {
    if co.phase.Filling? then Region(s, co.req) else co.req.range
  }

  /** Everything the request was for has been read or written. */
  predicate Complete(s: Device, co: Coroutine) {
    var r := if co.phase.WritingBack? then Region(s, co.req) else co.req.range;
    match co.phase
    case Reading => forall x | r.start <= x < r.start + r.count :: x in co.buf
    case WritingBack => forall x | r.start <= x < r.start + r.count :: x in co.done
    case Writing => forall x | r.start <= x < r.start + r.count :: x in co.done
    case _ => false
  }

  predicate Enabled(s: Device, step: Step) {
    match step
    case Submit(id, req) =>
      id !in s.cos && (req.kind.Write? ==> |req.kind.data| == req.range.count)
    case Resume(id) => id in s.cos && s.cos[id].phase.Woken?
    case Check(id, present) =>
      id in s.cos && s.cos[id].phase.Checking?
      && (present ==> forall x | s.cos[id].req.range.start <= x
                                   < s.cos[id].req.range.start + s.cos[id].req.range.count :: x in s.overlay)
    case ReadSector(id, x) =>
      id in s.cos && (s.cos[id].phase.Reading? || s.cos[id].phase.Filling?)
      && var r := ReadRange(s, s.cos[id]); r.start <= x < r.start + r.count
    case Filled(id) =>
      id in s.cos && s.cos[id].phase.Filling?
      && var r := Region(s, s.cos[id].req);
         forall x | r.start <= x < r.start + r.count :: x in s.cos[id].buf
    case WriteBack(id, x) =>
      id in s.cos && s.cos[id].phase.WritingBack? && x in s.cos[id].buf
    case WriteSector(id, x) =>
      id in s.cos && s.cos[id].phase.Writing? && s.cos[id].req.kind.Write?
      && 0 <= x - s.cos[id].req.range.start < |s.cos[id].req.kind.data|
    case End(id, ok) => id in s.cos && TrackedPhase(s.cos[id].phase) && (ok ==> Complete(s, s.cos[id]))
    case Decrement(id) => id in s.cos && s.cos[id].phase.Finished?
  }

  function Apply(s: Device, step: Step): Device
    requires forall i :: i in s.tracked ==> i in s.cos
    requires Enabled(s, step)
  {
    match step
    case Submit(id, req) =>
      var s' := Arrive(s, id, req);
      Proceed(s', id, if s'.inFlight == 0 then None else Overlapping(s', id))
    case Resume(id) => Proceed(s, id, Overlapping(s, id))
    case Check(id, present) =>
      s.(cos := s.cos[id := s.cos[id].(phase := if present then Reading else Filling)])
    case ReadSector(id, x) =>
      s.(cos := s.cos[id := s.cos[id].(buf := s.cos[id].buf[x := View(s, x)])])
    case Filled(id) => s.(cos := s.cos[id := s.cos[id].(phase := WritingBack)])
    case WriteBack(id, x) =>
      s.(overlay := s.overlay[x := s.cos[id].buf[x]], cos := s.cos[id := s.cos[id].(done := s.cos[id].done + {x})])
    case WriteSector(id, x) =>
      s.(overlay := s.overlay[x := s.cos[id].req.kind.data[x - s.cos[id].req.range.start]],
         cos := s.cos[id := s.cos[id].(done := s.cos[id].done + {x})])
    case End(id, _) =>
      s.(tracked := Remove(s.tracked, id), cos := AfterEnd(s.cos, id))
    case Decrement(id) =>
      s.(cos := s.cos - {id}, inFlight := if s.inFlight > 0 then s.inFlight - 1 else 0)
  }

  /** The request's wait queue is restarted; a copy-on-read still has its count to give back. */
  function AfterEnd(cos: map<nat, Coroutine>, id: nat): (r: map<nat, Coroutine>)
    requires id in cos
    ensures forall i :: i in r <==> i in cos && (i != id || IsCor(cos[id]))
    ensures forall i :: i in r ==> r[i] == cos[i].(phase :=
              if i == id then Finished else if cos[i].phase == Waiting(id) then Woken else cos[i].phase)
  {
    map i | i in cos && (i != id || IsCor(cos[id])) :: cos[i].(phase :=
      if i == id then Finished else if cos[i].phase == Waiting(id) then Woken else cos[i].phase)
  }

  function Remove(xs: seq<nat>, x: nat): (ys: seq<nat>)
    ensures forall y :: y in ys ==> y in xs
  {
    if xs == [] then [] else if xs[0] == x then xs[1..] else [xs[0]] + Remove(xs[1..], x)
  }

  lemma {:induction false} RemoveDistinct(xs: seq<nat>, x: nat)
    requires Distinct(xs)
    ensures Distinct(Remove(xs, x))
    ensures forall y :: y in Remove(xs, x) <==> y in xs && y != x
  {
    if xs != [] {
      assert xs == [xs[0]] + xs[1..];
      assert xs[0] !in xs[1..];
      if xs[0] != x {
        RemoveDistinct(xs[1..], x);
        assert xs[0] !in Remove(xs[1..], x);
      }
    }
  }

  // ----- The invariant -----

  function CorIds(s: Device): set<nat> { set i | i in s.cos && IsCor(s.cos[i]) }

  ghost predicate Consistent(s: Device) {
    && Distinct(s.tracked)
    && (forall i :: i in s.tracked <==> i in s.cos && TrackedPhase(s.cos[i].phase))
    && s.inFlight == |CorIds(s)|
    && (forall i :: i in s.cos && s.cos[i].phase.Waiting? ==> s.cos[i].phase.on in s.tracked)
  }

  ghost predicate ValidPhase(co: Coroutine) {
    && (co.req.kind.Write? ==> |co.req.kind.data| == co.req.range.count)
    && (co.phase.Writing? ==> co.req.kind.Write?) && (co.phase.Reading? ==> !co.req.kind.Write?)
    && (co.phase.Checking? || co.phase.Filling? || co.phase.WritingBack? || co.phase.Finished? ==> IsCor(co))
  }

  /** No two tracked requests share a cluster if one of them is copy-on-read. */
  ghost predicate Serialised(s: Device) {
    forall i, j :: i in s.tracked && j in s.tracked && i != j && i in s.cos && j in s.cos && IsCor(s.cos[i]) ==>
      Disjoint(Region(s, s.cos[i].req), Region(s, s.cos[j].req))
  }

  /** A bounce buffer holds what the guest sees. */
  ghost predicate BufferCurrent(s: Device, co: Coroutine) {
    co.phase.Filling? || co.phase.WritingBack? ==>
      forall x :: x in co.buf ==> Region(s, co.req).Contains(x) && co.buf[x] == View(s, x)
  }

  ghost predicate FreshBuffer(co: Coroutine) {
    && (co.phase.Waiting? || co.phase.Woken? || co.phase.Checking? ==> co.buf == map[])
    && (!co.phase.WritingBack? && !co.phase.Writing? && !co.phase.Finished? ==> co.done == {})
  }

  ghost predicate WholeBuffer(s: Device, co: Coroutine) {
    co.phase.WritingBack? ==> forall x :: Region(s, co.req).Contains(x) ==> x in co.buf
  }

  ghost predicate Good(s: Device, co: Coroutine) {
    ValidPhase(co) && BufferCurrent(s, co) && FreshBuffer(co) && WholeBuffer(s, co)
  }

  ghost predicate AllGood(s: Device) {
    forall i :: i in s.cos ==> Good(s, s.cos[i])
  }

  ghost predicate Inv(s: Device) {
    Consistent(s) && Serialised(s) && AllGood(s)
  }

  /** A coroutine is as good on another device that looks the same to the guest. */
  lemma {:induction false} SameView(s: Device, s': Device, co: Coroutine)
    requires Good(s, co) && s'.cluster == s.cluster && forall x :: View(s', x) == View(s, x)
    ensures Good(s', co)
  {
  }

  // ----- Every step keeps the invariant, and only guest writes change what the guest sees -----

  /** A sector that holds d, after the step: only a guest write writes to it. */
  function Written(s: Device, step: Step, x: nat, d: Data): Data
    requires Enabled(s, step)
  {
    if step.WriteSector? && step.x == x then s.cos[step.id].req.kind.data[x - s.cos[step.id].req.range.start] else d
  }

  lemma {:induction false} WaitGood(s: Device, co: Coroutine, on: nat)
    requires Good(s, co) && co.phase.Woken?
    ensures Good(s, co.(phase := Waiting(on)))
  {
  }

  lemma {:induction false} WaitKeeps(s: Device, id: nat, on: nat)
    requires Inv(s) && id in s.cos && s.cos[id].phase.Woken? && on in s.tracked
    ensures Inv(s.(cos := s.cos[id := s.cos[id].(phase := Waiting(on))]))
  {
    hide Good, Region, Serialised, CorIds;
    WaitGood(s, s.cos[id], on);
    var s' := s.(cos := s.cos[id := s.cos[id].(phase := Waiting(on))]);
    WaitConsistent(s, id, on);
    OneChanged(s, s', id, s.cos[id].(phase := Waiting(on)));
    StillSerialised(s, s');
  }

  lemma {:induction false} WaitConsistent(s: Device, id: nat, on: nat)
    requires Consistent(s) && id in s.cos && s.cos[id].phase.Woken? && on in s.tracked
    ensures Consistent(s.(cos := s.cos[id := s.cos[id].(phase := Waiting(on))]))
  {
    var s' := s.(cos := s.cos[id := s.cos[id].(phase := Waiting(on))]);
    assert CorIds(s') == CorIds(s);
  }

  lemma {:induction false} TrackSerialised(s: Device, id: nat, co: Coroutine)
    requires Serialised(s) && id in s.cos && co.req == s.cos[id].req && id !in s.tracked && (forall j :: j in s.tracked ==> j in s.cos)
    requires forall j :: j in s.tracked && (IsCor(co) || IsCor(s.cos[j])) ==>
               Disjoint(Region(s, co.req), Region(s, s.cos[j].req))
    ensures Serialised(s.(tracked := [id] + s.tracked, cos := s.cos[id := co]))
  {
    hide Region;
    var s' := s.(tracked := [id] + s.tracked, cos := s.cos[id := co]);
    forall i, j | i in s'.tracked && j in s'.tracked && i != j && i in s'.cos && j in s'.cos && IsCor(s'.cos[i])
      ensures Disjoint(Region(s', s'.cos[i].req), Region(s', s'.cos[j].req))
    {
      SameRegion(s, s', s'.cos[i].req);
      SameRegion(s, s', s'.cos[j].req);
    }
  }

  lemma {:induction false} SameRegion(s: Device, s': Device, r: Request)
    requires s'.cluster == s.cluster
    ensures Region(s', r) == Region(s, r)
  {
  }

  /** Changing one coroutine, into one that is as good, leaves all of them good. */
  lemma {:induction false} OneChanged(s: Device, s': Device, id: nat, co: Coroutine)
    requires AllGood(s) && Good(s, co) && s'.cluster == s.cluster && s'.cos == s.cos[id := co]
    requires forall x :: View(s', x) == View(s, x)
    ensures AllGood(s')
  {
    hide Good, View;
    forall i | i in s'.cos
      ensures Good(s', s'.cos[i])
    {
      assert Good(s, if i == id then co else s.cos[i]);
      SameView(s, s', s'.cos[i]);
    }
  }

  lemma {:induction false} TrackKeeps(s: Device, id: nat, phase: Phase)
    requires Inv(s) && id in s.cos && s.cos[id].phase.Woken?
    requires TrackedPhase(phase) && Good(s, s.cos[id].(phase := phase))
    requires forall j :: j in s.tracked && (IsCor(s.cos[id]) || IsCor(s.cos[j])) ==>
               Disjoint(Region(s, s.cos[id].req), Region(s, s.cos[j].req))
    ensures Inv(s.(tracked := [id] + s.tracked, cos := s.cos[id := s.cos[id].(phase := phase)]))
  {
    hide Good, Serialised, Region, AllGood;
    var co := s.cos[id].(phase := phase);
    var s' := s.(tracked := [id] + s.tracked, cos := s.cos[id := co]);
    assert CorIds(s') == CorIds(s);
    assert id !in s.tracked;
    OneChanged(s, s', id, co);
    TrackSerialised(s, id, co);
  }

  lemma {:induction false} ProceedKeeps(s: Device, id: nat, hit: Option<nat>)
    requires Inv(s) && id in s.cos && s.cos[id].phase.Woken?
    requires hit == Overlapping(s, id) || (hit == None && s.inFlight == 0)
    ensures Inv(Proceed(s, id, hit))
    ensures Proceed(s, id, hit).overlay == s.overlay && Proceed(s, id, hit).base == s.base
  {
    hide Serialised, Region, Good;
    var co := s.cos[id];
    FirstOverlapFinds(s.tracked, s.cos, Region(s, co.req));
    match hit
    case Some(i) => WaitKeeps(s, id, i);
    case None =>
      forall j | j in s.tracked && (IsCor(co) || IsCor(s.cos[j]))
        ensures Disjoint(Region(s, co.req), Region(s, s.cos[j].req))
      {
        assert (if IsCor(co) then id else j) in CorIds(s);
        NoSharedCluster(s, id, j);
      }
      StartGood(s, co, Proceed(s, id, hit).cos[id].phase);
      TrackKeeps(s, id, Proceed(s, id, hit).cos[id].phase);
  }

  lemma {:induction false} StartGood(s: Device, co: Coroutine, phase: Phase)
    requires Good(s, co) && co.phase.Woken?
    requires phase == match co.req.kind { case Read => Reading case Write(_) => Writing case CopyOnRead => Checking }
    ensures Good(s, co.(phase := phase))
  {
  }

  lemma {:induction false} NoSharedCluster(s: Device, id: nat, j: nat)
    requires id in s.cos && j in s.cos && !Overlaps(s.cos[j].req.range, Region(s, s.cos[id].req))
    ensures Disjoint(Region(s, s.cos[id].req), Region(s, s.cos[j].req))
  {
    NoOverlapNoSharedCluster(s.cluster, s.cos[id].req.range, s.cos[j].req.range);
  }

  function Arrive(s: Device, id: nat, req: Request): Device {
    s.(cos := s.cos[id := Coroutine(req, Woken, map[], {})],
       inFlight := s.inFlight + if req.kind.CopyOnRead? then 1 else 0)
  }

  lemma {:induction false} ArriveKeeps(s: Device, id: nat, req: Request)
    requires Inv(s) && Enabled(s, Submit(id, req))
    ensures Inv(Arrive(s, id, req))
  {
    hide Good, Serialised, AllGood, CorIds;
    var s' := Arrive(s, id, req);
    ArriveCount(s, id, req);
    assert id !in s.tracked;
    StillSerialised(s, s');
    WokenGood(s, req);
    OneChanged(s, s', id, Coroutine(req, Woken, map[], {}));
    assert id !in CorIds(s) by { NotACor(s, id); }
  }

  lemma {:induction false} NotACor(s: Device, id: nat)
    requires id !in s.cos
    ensures id !in CorIds(s)
  {
  }

  lemma {:induction false} WokenGood(s: Device, req: Request)
    requires req.kind.Write? ==> |req.kind.data| == req.range.count
    ensures Good(s, Coroutine(req, Woken, map[], {}))
  {
  }

  lemma {:induction false} ArriveCount(s: Device, id: nat, req: Request)
    requires id !in s.cos
    ensures CorIds(Arrive(s, id, req)) == CorIds(s) + (if req.kind.CopyOnRead? then {id} else {})
  {
  }

  /** Dropping requests from the list keeps it serialised. */
  lemma {:induction false} StillSerialised(s: Device, s': Device)
    requires Serialised(s) && s'.cluster == s.cluster
    requires forall i :: i in s'.tracked ==> i in s.tracked && i in s.cos
    requires forall i :: i in s'.tracked && i in s'.cos ==> s'.cos[i].req == s.cos[i].req
    ensures Serialised(s')
  {
    forall i, j | i in s'.tracked && j in s'.tracked && i != j && i in s'.cos && j in s'.cos && IsCor(s'.cos[i])
      ensures Disjoint(Region(s', s'.cos[i].req), Region(s', s'.cos[j].req))
    {
      assert Disjoint(Region(s, s.cos[i].req), Region(s, s.cos[j].req));
    }
  }

  /** Moving one coroutine between tracked phases, or filling its buffer. */
  lemma {:induction false} LocalKeeps(s: Device, id: nat, co: Coroutine)
    requires Inv(s) && id in s.cos && TrackedPhase(s.cos[id].phase) && TrackedPhase(co.phase)
    requires co.req == s.cos[id].req && Good(s, co)
    ensures Inv(s.(cos := s.cos[id := co]))
  {
    hide Good, Serialised, AllGood;
    var s' := s.(cos := s.cos[id := co]);
    assert CorIds(s') == CorIds(s);
    OneChanged(s, s', id, co);
    StillSerialised(s, s');
  }

  lemma {:induction false} WriteBackKeeps(s: Device, id: nat, x: nat)
    requires Inv(s) && Enabled(s, WriteBack(id, x))
    ensures Inv(Apply(s, WriteBack(id, x)))
    ensures forall y :: View(Apply(s, WriteBack(id, x)), y) == View(s, y)
  {
    hide Good, Region, Serialised, CorIds, View;
    var s' := Apply(s, WriteBack(id, x));
    WrittenSame(s, s', id);
    StillSerialised(s, s');
    BackSame(s, id, x);
    OneChanged(s, s', id, s'.cos[id]);
  }

  /** A bounce-buffer sector is what the guest sees already, so nothing it sees changes. */
  lemma {:induction false} BackSame(s: Device, id: nat, x: nat)
    requires Inv(s) && Enabled(s, WriteBack(id, x))
    ensures Good(s, Apply(s, WriteBack(id, x)).cos[id])
    ensures forall y :: View(Apply(s, WriteBack(id, x)), y) == View(s, y)
  {
    hide Consistent, Serialised;
    assert Good(s, s.cos[id]);
  }

  /** A request that has written a sector counts as before. */
  lemma {:induction false} WrittenSame(s: Device, s': Device, id: nat)
    requires id in s.cos && id in s'.cos && s'.tracked == s.tracked && s'.inFlight == s.inFlight
    requires s'.cos == s.cos[id := s.cos[id].(done := s'.cos[id].done)] && Consistent(s)
    ensures Consistent(s')
  {
    assert CorIds(s') == CorIds(s);
  }

  lemma {:induction false} WriteSectorKeeps(s: Device, id: nat, x: nat)
    requires Inv(s) && Enabled(s, WriteSector(id, x))
    ensures Inv(Apply(s, WriteSector(id, x)))
  {
    hide Good, Region, Serialised, CorIds, View;
    var s' := Apply(s, WriteSector(id, x));
    WrittenSame(s, s', id);
    StillSerialised(s, s');
    forall i | i in s'.cos
      ensures Good(s', s'.cos[i])
    {
      WriteSectorGood(s, id, x, i);
    }
  }

  /** No bounce buffer holds a sector of another request's cluster. */
  lemma {:induction false} WriteSectorGood(s: Device, id: nat, x: nat, i: nat)
    requires Inv(s) && Enabled(s, WriteSector(id, x)) && i in s.cos
    ensures Good(Apply(s, WriteSector(id, x)), Apply(s, WriteSector(id, x)).cos[i])
  {
    hide CorIds, Distinct, Region, BufferCurrent, WholeBuffer;
    assert Good(s, s.cos[id]) && Good(s, s.cos[i]);
    RegionHas(s, s.cos[id].req, x);
    if i != id {
      if s.cos[i].phase.Filling? || s.cos[i].phase.WritingBack? {
        assert i in s.tracked && id in s.tracked && IsCor(s.cos[i]);
        assert Disjoint(Region(s, s.cos[i].req), Region(s, s.cos[id].req));
      }
      ElsewhereGood(s, Apply(s, WriteSector(id, x)), s.cos[i], x);
    } else {
      WriterGood(s, Apply(s, WriteSector(id, x)), s.cos[id], x);
    }
  }

  lemma {:induction false} RegionHas(s: Device, r: Request, x: nat)
    requires r.range.Contains(x)
    ensures Region(s, r).Contains(x)
  {
    RoundCovers(s.cluster, r.range);
  }

  lemma {:induction false} ElsewhereGood(s: Device, s': Device, co: Coroutine, x: nat)
    requires Good(s, co) && s'.cluster == s.cluster && s'.base == s.base && forall y :: y != x ==> View(s', y) == View(s, y)
    requires co.phase.Filling? || co.phase.WritingBack? ==> !Region(s, co.req).Contains(x)
    ensures Good(s', co)
  {
    hide View;
  }

  lemma {:induction false} WriterGood(s: Device, s': Device, co: Coroutine, x: nat)
    requires Good(s, co) && co.phase.Writing?
    ensures Good(s', co.(done := co.done + {x}))
  {
  }

  lemma {:induction false} EndKeeps(s: Device, id: nat, ok: bool)
    requires Inv(s) && Enabled(s, End(id, ok))
    ensures Inv(Apply(s, End(id, ok)))
  {
    hide Good, Region, Serialised, Remove, AfterEnd;
    var s' := Apply(s, End(id, ok));
    EndTracked(s, s', id, ok);
    EndCount(s, s', id, ok);
    forall i | i in s'.cos
      ensures Good(s', s'.cos[i])
    {
      EndGood(s, s', id, ok, i);
    }
    StillSerialised(s, s');
  }

  lemma {:induction false} EndTracked(s: Device, s': Device, id: nat, ok: bool)
    requires Inv(s) && Enabled(s, End(id, ok)) && s' == Apply(s, End(id, ok))
    ensures Distinct(s'.tracked) && s'.cluster == s.cluster
    ensures forall i :: i in s'.tracked <==> i in s'.cos && TrackedPhase(s'.cos[i].phase)
    ensures forall i :: i in s'.tracked ==> i in s.tracked && i in s.cos
    ensures forall i :: i in s'.tracked && i in s'.cos ==> s'.cos[i].req == s.cos[i].req
  {
    hide Good, Region, Serialised, AllGood, CorIds;
    RemoveDistinct(s.tracked, id);
  }

  lemma {:induction false} EndCount(s: Device, s': Device, id: nat, ok: bool)
    requires Inv(s) && Enabled(s, End(id, ok)) && s' == Apply(s, End(id, ok))
    ensures CorIds(s') == CorIds(s)
  {
  }

  lemma {:induction false} EndGood(s: Device, s': Device, id: nat, ok: bool, i: nat)
    requires Inv(s) && Enabled(s, End(id, ok)) && s' == Apply(s, End(id, ok)) && i in s'.cos
    ensures Good(s', s'.cos[i])
  {
    assert Good(s, s.cos[i]) && s'.cos[i].req == s.cos[i].req;
    assert s'.cos[i] == s.cos[i] || s'.cos[i].phase.Woken? || s'.cos[i].phase.Finished?;
    if s'.cos[i] == s.cos[i] { SameView(s, s', s.cos[i]); }
  }

  lemma {:induction false} DecrementKeeps(s: Device, id: nat)
    requires Inv(s) && Enabled(s, Decrement(id))
    ensures Inv(Apply(s, Decrement(id)))
  {
    var s' := Apply(s, Decrement(id));
    assert Good(s, s.cos[id]);
    assert id in CorIds(s);
    assert CorIds(s') == CorIds(s) - {id};
    forall i | i in s'.cos
      ensures Good(s', s'.cos[i])
    {
      assert Good(s, s.cos[i]);
      SameView(s, s', s.cos[i]);
    }
  }

  /** What a request does on its own: asking what is allocated, reading, completing its bounce buffer. */
  lemma {:induction false} OwnStepKeeps(s: Device, step: Step)
    requires Inv(s) && Enabled(s, step) && (step.Check? || step.ReadSector? || step.Filled?)
    ensures Inv(Apply(s, step)) && Apply(s, step).overlay == s.overlay && Apply(s, step).base == s.base
  {
    hide Serialised, CorIds, FirstOverlap, Remove, AfterEnd;
    assert Good(s, s.cos[step.id]);
    LocalKeeps(s, step.id, Apply(s, step).cos[step.id]);
  }

  /** The invariant is kept by every step, and what the guest sees changes only where a guest
      write writes. */
  lemma {:induction false} StepKeeps(s: Device, step: Step)
    requires Inv(s) && Enabled(s, step)
    ensures Inv(Apply(s, step))
    ensures forall x :: View(Apply(s, step), x) == Written(s, step, x, View(s, x))
  {
    hide Serialised, CorIds, AllGood, FirstOverlap, Remove, AfterEnd;
    match step
    case Submit(id, req) =>
      ArriveKeeps(s, id, req);
      var s' := Arrive(s, id, req);
      ProceedKeeps(s', id, if s'.inFlight == 0 then None else Overlapping(s', id));
    case Resume(id) => ProceedKeeps(s, id, Overlapping(s, id));
    case Check(_, _) => OwnStepKeeps(s, step);
    case ReadSector(_, _) => OwnStepKeeps(s, step);
    case Filled(_) => OwnStepKeeps(s, step);
    case WriteBack(id, x) => WriteBackKeeps(s, id, x);
    case WriteSector(id, x) => WriteSectorKeeps(s, id, x);
    case End(id, ok) => EndKeeps(s, id, ok);
    case Decrement(id) => DecrementKeeps(s, id);
  }

  // ----- Whole runs -----

  ghost predicate CanRun(s: Device, steps: seq<Step>)
    requires Inv(s)
    decreases |steps|
  {
    steps == [] || (Enabled(s, steps[0]) && (StepKeeps(s, steps[0]); CanRun(Apply(s, steps[0]), steps[1..])))
  }

  ghost function Run(s: Device, steps: seq<Step>): Device
    requires Inv(s) && CanRun(s, steps)
    decreases |steps|
  {
    if steps == [] then s else
      StepKeeps(s, steps[0]);
      Run(Apply(s, steps[0]), steps[1..])
  }

  /** The disk a guest without copy-on-read would see: its own writes, in order. */
  ghost function Replay(s: Device, steps: seq<Step>, x: nat, d: Data): Data
    requires Inv(s) && CanRun(s, steps)
    decreases |steps|
  {
    if steps == [] then d else
      StepKeeps(s, steps[0]);
      Replay(Apply(s, steps[0]), steps[1..], x, Written(s, steps[0], x, d))
  }

  /** Copy-on-read is transparent: after any interleaving of any requests the guest sees exactly
      the effect of its own writes. No copy-on-read has changed a sector or undone a newer write. */
  lemma {:induction false} Transparent(s: Device, steps: seq<Step>, x: nat)
    requires Inv(s) && CanRun(s, steps)
    ensures Inv(Run(s, steps))
    ensures View(Run(s, steps), x) == Replay(s, steps, x, View(s, x))
    decreases |steps|
  {
    if steps != [] {
      StepKeeps(s, steps[0]);
      Transparent(Apply(s, steps[0]), steps[1..], x);
    }
  }

  /** A copy-on-read that has written its bounce buffer back hands the guest, for every sector it
      asked for, what the guest-visible disk holds. */
  lemma {:induction false} CopyOnReadReturnsView(s: Device, id: nat, x: nat)
    requires Inv(s) && id in s.cos && s.cos[id].phase.WritingBack? && s.cos[id].req.range.Contains(x)
    ensures x in s.cos[id].buf && s.cos[id].buf[x] == View(s, x)
  {
    RoundCovers(s.cluster, s.cos[id].req.range);
    assert Good(s, s.cos[id]);
    assert Region(s, s.cos[id].req).Contains(x);
  }

  /** No wait cycles: a waiting request waits on a tracked one, tracked requests never wait, and
      the request it waits on is not its own. So some request can always move. */
  lemma {:induction false} NoDeadlock(s: Device)
    requires Inv(s)
    ensures forall i :: i in s.cos && s.cos[i].phase.Waiting? ==>
              var on := s.cos[i].phase.on;
              on in s.tracked && on != i && on in s.cos && !s.cos[on].phase.Waiting? && Enabled(s, End(on, false))
    ensures s.cos != map[] ==> exists step :: Enabled(s, step) && !step.Submit?
  {
    hide Good, Region, Serialised, AllGood, CorIds;
    if s.cos != map[] {
      var i :| i in s.cos;
      match s.cos[i].phase
      case Waiting(on) => assert Enabled(s, End(on, false));
      case Woken => assert Enabled(s, Resume(i));
      case Finished => assert Enabled(s, Decrement(i));
      case _ => assert Enabled(s, End(i, false));
    }
  }

  /** A device with nothing in flight satisfies the invariant. */
  lemma {:induction false} InitiallyConsistent(s: Device)
    requires s.tracked == [] && s.cos == map[] && s.inFlight == 0
    ensures Inv(s)
  {
    assert CorIds(s) == {};
  }
}
