/** The buffered, rate-limited migration file (buffered_file.c). */
module BufferedFile {
  import opened Wire

  const EAGAIN: int := -11
  const EINVAL: int := -22

  /** A QEMUFileBuffered with its file's error, the answers of its backend, how many of them it has given,
      and the bytes it has taken. */
  datatype File = File(frozen: bool, bytesXfer: nat, xferLimit: nat, buffer: seq<Byte>, error: int,
                       script: nat -> int, calls: nat, delivered: seq<Byte>)

  /** The backend's next answer to an offer of n bytes: a count it takes, EAGAIN, or an error. */
  function Answer(f: File, n: nat): int {
    if f.script(f.calls) > n then n else f.script(f.calls)
  }

  /** put_buffer of the backend. */
  function Offer(f: File, data: seq<Byte>): File {
    var ret := Answer(f, |data|);
    f.(calls := f.calls + 1, delivered := f.delivered + if ret > 0 then data[..ret] else [])
  }

  /** buffered_flush: offer the buffer until it is empty, the backend is not ready, or it fails. */
  function FlushLoop(f: File): File
    decreases |f.buffer|
  {
    if f.buffer == [] then f else
      var ret := Answer(f, |f.buffer|);
      var f' := Offer(f, f.buffer);
      if ret == EAGAIN then f'.(frozen := true)
      else if ret <= 0 then f'.(error := ret)
      else FlushLoop(f'.(buffer := f.buffer[ret..]))
  }

  function Flush(f: File): File {
    if f.error != 0 then f else FlushLoop(f)
  }

  datatype PutResult = PutResult(file: File, rest: seq<Byte>, failed: bool)

  /** The loop of buffered_put_buffer: offer the data itself while under the rate limit. */
  function PutLoop(f: File, data: seq<Byte>): PutResult
    decreases |data|
  {
    if f.frozen || data == [] || f.bytesXfer > f.xferLimit then PutResult(f, data, false) else
      var ret := Answer(f, |data|);
      var f' := Offer(f, data);
      if ret == EAGAIN then PutResult(f'.(frozen := true), data, false)
      else if ret <= 0 then PutResult(f'.(error := ret), data, true)
      else PutLoop(f'.(bytesXfer := f.bytesXfer + ret), data[ret..])
  }

  /** buffered_put_buffer: flush what is buffered, offer the new data, buffer what is left. */
  function Put(f: File, data: seq<Byte>): File {
    if f.error != 0 then f else
      var r := PutLoop(Flush(f.(frozen := false)), data);
      if r.failed then r.file else r.file.(buffer := r.file.buffer + r.rest)
  }

  /** The put is answered with an error other than one recorded before. */
  ghost predicate PutFails(f: File, data: seq<Byte>) { PutLoop(Flush(f.(frozen := false)), data).failed }

  /** The loop of buffered_close has ended. */
  predicate Done(f: File) { f.error != 0 || f.buffer == [] }

  /** The loop of buffered_close after at most k turns. The wait for the backend to become ready again is not
      modelled; it changes nothing here. */
  function CloseAfter(f: File, k: nat): File
    decreases k
  {
    if k == 0 || Done(f) then f else CloseAfter(Flush(f), k - 1)
  }

  /** buffered_rate_tick. With an error recorded, the close that follows does not turn at all. */
  function Tick(f: File): File {
    if f.error != 0 || f.frozen then f else Flush(f.(bytesXfer := 0))
  }

  // ----- Conservation -----

  /** A backend that never answers zero. */
  ghost predicate NoZero(script: nat -> int) { forall i: nat :: script(i) != 0 }

  /** Everything that has been put and not been lost, in order. */
  function Stream(f: File): seq<Byte> { f.delivered + f.buffer }

  /** A flush never loses or reorders bytes by itself; and if the backend never answers zero, it leaves
      nothing behind unless it fails or freezes. */
  lemma {:induction false} FlushKeepsStream(f: File)
    ensures var r := FlushLoop(f);
            && Stream(r) == Stream(f) && |r.delivered| >= |f.delivered| && (f.error == 0 ==> r.error <= 0)
            && r.script == f.script && r.bytesXfer == f.bytesXfer && r.xferLimit == f.xferLimit
            && (NoZero(f.script) && f.error == 0 && r.error == 0 && r.buffer != [] ==> r.frozen)
    decreases |f.buffer|
  {
    if f.buffer != [] {
      var ret := Answer(f, |f.buffer|);
      var f' := Offer(f, f.buffer);
      if ret != EAGAIN && ret > 0 {
        assert f.delivered + f.buffer[..ret] + f.buffer[ret..] == f.delivered + f.buffer by {
          assert f.buffer[..ret] + f.buffer[ret..] == f.buffer;
        }
        FlushKeepsStream(f'.(buffer := f.buffer[ret..]));
      } else {
        assert f'.delivered == f.delivered;
      }
    }
  }

  lemma {:induction false} TakenTogether(before: seq<Byte>, data: seq<Byte>, ret: nat, n: nat)
    requires ret <= n <= |data|
    ensures before + data[..ret] + data[ret..][..n - ret] == before + data[..n] && data[ret..][n - ret..] == data[n..]
  {
    assert data[..ret] + data[ret..][..n - ret] == data[..n];
  }

  /** The first `n` bytes of the data have been delivered, and the rest is left. */
  ghost predicate Took(f: File, data: seq<Byte>, r: PutResult, n: nat) {
    && n <= |data| && r.rest == data[n..] && r.file.delivered == f.delivered + data[..n] && r.file.buffer == f.buffer
    && (r.failed ==> r.rest != []) && (!r.failed ==> r.file.error == f.error)
  }

  lemma {:induction false} TookNone(f: File, data: seq<Byte>, r: PutResult)
    requires r.rest == data && r.file.delivered == f.delivered && r.file.buffer == f.buffer
    requires (r.failed ==> data != []) && (!r.failed ==> r.file.error == f.error)
    ensures Took(f, data, r, 0)
  {
    assert f.delivered + data[..0] == f.delivered;
  }

  lemma {:induction false} TookMore(f: File, data: seq<Byte>, ret: nat, next: File, r: PutResult, n: nat)
    requires ret <= |data| && next.delivered == f.delivered + data[..ret] && next.buffer == f.buffer && next.error == f.error
    requires Took(next, data[ret..], r, n)
    ensures Took(f, data, r, ret + n)
  {
    TakenTogether(f.delivered, data, ret, ret + n);
  }

  /** The put loop delivers a prefix of the data and leaves the buffer alone. */
  lemma {:induction false} PutLoopTakes(f: File, data: seq<Byte>)
    ensures var r := PutLoop(f, data); |r.rest| <= |data| && Took(f, data, r, |data| - |r.rest|)
    decreases |data|
  {
    hide Took;
    var r := PutLoop(f, data);
    if f.frozen || data == [] || f.bytesXfer > f.xferLimit {
      TookNone(f, data, r);
    } else {
      var ret := Answer(f, |data|);
      var f' := Offer(f, data);
      if ret != EAGAIN && ret > 0 {
        var next := f'.(bytesXfer := f.bytesXfer + ret);
        PutLoopTakes(next, data[ret..]);
        TookMore(f, data, ret, next, r, |data| - ret - |r.rest|);
      } else {
        assert f'.delivered == f.delivered;
        TookNone(f, data, r);
      }
    }
  }

  lemma {:induction false} StreamsJoin(d: seq<Byte>, b: seq<Byte>, e: seq<Byte>, k: nat)
    requires k <= |e| && (b == [] || k == 0)
    ensures d + e[..k] + (b + e[k..]) == d + b + e
  {
    assert e[..k] + e[k..] == e;
    if b == [] {
      assert d + e[..k] + ([] + e[k..]) == d + (e[..k] + e[k..]);
    }
  }

  /** A backend that never answers zero: the put loop fails with an error, and forgets none. */
  lemma {:induction false} PutLoopErrors(f: File, data: seq<Byte>)
    ensures var r := PutLoop(f, data);
            && r.file.script == f.script
            && (NoZero(f.script) && (r.failed || f.error != 0) ==> r.file.error != 0)
    decreases |data|
  {
    if !(f.frozen || data == [] || f.bytesXfer > f.xferLimit) {
      var ret := Answer(f, |data|);
      if ret != EAGAIN && ret > 0 {
        PutLoopErrors(Offer(f, data).(bytesXfer := f.bytesXfer + ret), data[ret..]);
      }
    }
  }

  lemma {:induction false} PutConserves(f: File, data: seq<Byte>)
    requires NoZero(f.script)
    ensures var r := Put(f, data);
            && r.script == f.script
            && (r.error == 0 ==> f.error == 0 && Stream(r) == Stream(f) + data)
  {
    hide FlushLoop, PutLoop;
    if f.error == 0 {
      FlushKeepsStream(f.(frozen := false));
      var f1 := Flush(f.(frozen := false));
      PutLoopTakes(f1, data);
      PutLoopErrors(f1, data);
      var r := PutLoop(f1, data);
      if !r.failed && f1.error == 0 {
        Frozen(f1, data);
        StreamsJoin(f1.delivered, f1.buffer, data, |data| - |r.rest|);
      }
    }
  }

  /** Nothing is put into a frozen file. */
  lemma {:induction false} Frozen(f: File, data: seq<Byte>)
    ensures f.frozen ==> PutLoop(f, data) == PutResult(f, data, false)
  {
  }

  lemma {:induction false} CloseConserves(f: File, k: nat)
    requires NoZero(f.script)
    ensures var r := CloseAfter(f, k);
            && r.script == f.script
            && (r.error == 0 ==> f.error == 0 && Stream(r) == Stream(f))
            && (r.error == 0 && Done(r) ==> r.delivered == Stream(f))
    decreases k
  {
    hide FlushLoop;
    if k == 0 || Done(f) {
      assert f.delivered + [] == f.delivered;
    } else {
      FlushKeepsStream(f);
      CloseConserves(Flush(f), k - 1);
    }
  }

  lemma {:induction false} TickConserves(f: File)
    requires NoZero(f.script)
    ensures Tick(f).script == f.script
    ensures Tick(f).error == 0 ==> f.error == 0 && Stream(Tick(f)) == Stream(f)
  {
    hide FlushLoop;
    FlushKeepsStream(f.(bytesXfer := 0));
  }

  /** A tick of a file that is neither frozen nor failed starts the count again and flushes until the buffer is
      drained or an answer stops it; any other tick does nothing. */
  lemma {:induction false} TickFlushes(f: File) returns (j: nat)
    ensures f.error == 0 && !f.frozen ==> Tick(f).bytesXfer == 0 && FlushEnded(f.(bytesXfer := 0), Tick(f), j)
    ensures f.error != 0 || f.frozen ==> Tick(f) == f
  {
    j := FlushEnds(f.(bytesXfer := 0));
  }

  /** Nothing is delivered or buffered any more once an error is recorded. */
  lemma {:induction false} FailedStays(f: File, events: seq<Event>, k: nat)
    requires f.error != 0
    ensures Run(f, events) == f && Flush(f) == f && CloseAfter(f, k) == f
    decreases |events|
  {
    if events != [] {
      FailedStays(f, events[1..], k);
    }
  }

  // ----- The rate limit -----

  /** What buffered_rate_limit answers: an error, 1 to stop, or 0 to go on. */
  function RateAnswer(f: File): int { if f.error != 0 then f.error else if f.frozen || f.bytesXfer > f.xferLimit then 1 else 0 }

  /** A rate is set for a second, and limits a tenth of one; while an error is recorded nothing is set. */
  lemma {:induction false} LimitSet(f: File, rate: nat)
    ensures var r := Step(f, SetLimit(rate));
            && r.(xferLimit := f.xferLimit) == f
            && (if f.error == 0 then 10 * r.xferLimit <= rate < 10 * r.xferLimit + 10 else r.xferLimit == f.xferLimit)
  {
  }

  /** While the answer is 0 and nothing is buffered, the backend is offered what is put, whole; once it is 1 for the
      limit, nothing is. */
  lemma {:induction false} AnswerMeans(f: File, data: seq<Byte>)
    requires f.error == 0 && !f.frozen && data != [] && f.buffer == []
    ensures RateAnswer(f) == 0 <==> Put(f, data).calls > f.calls
    ensures RateAnswer(f) == 1 ==> Put(f, data) == f.(buffer := data)
  {
    if RateAnswer(f) == 0 {
      OffersOnce(f, data);
    } else {
      assert f.buffer + data == data;
    }
  }

  lemma {:induction false} OffersOnce(f: File, data: seq<Byte>)
    ensures PutLoop(f, data).file.calls >= f.calls
    ensures !(f.frozen || data == [] || f.bytesXfer > f.xferLimit) ==> PutLoop(f, data).file.calls > f.calls
    decreases |data|
  {
    if !(f.frozen || data == [] || f.bytesXfer > f.xferLimit) {
      var ret := Answer(f, |data|);
      if ret != EAGAIN && ret > 0 {
        OffersOnce(Offer(f, data).(bytesXfer := f.bytesXfer + ret), data[ret..]);
      }
    }
  }

  /** What a put charges is what it delivers of its own data, and it goes over the limit by one answer at most. */
  lemma {:induction false} PutCharges(f: File, data: seq<Byte>, m: nat)
    requires forall i: nat :: f.script(i) <= m
    ensures var r := PutLoop(f, data);
            && r.file.bytesXfer == f.bytesXfer + |data| - |r.rest| && r.file.xferLimit == f.xferLimit && r.file.script == f.script
            && (r.file.bytesXfer <= f.bytesXfer || r.file.bytesXfer <= f.xferLimit + m)
    decreases |data|
  {
    if !(f.frozen || data == [] || f.bytesXfer > f.xferLimit) {
      var ret := Answer(f, |data|);
      if ret != EAGAIN && ret > 0 {
        PutCharges(Offer(f, data).(bytesXfer := f.bytesXfer + ret), data[ret..], m);
      }
    }
  }

  /** Over every run: if the limit is never set above `limit` and no answer takes more than m bytes, no more than
      limit + m bytes of what is put are delivered before a tick starts the count again. */
  lemma {:induction false} RateBound(f: File, events: seq<Event>, limit: nat, m: nat)
    requires f.xferLimit <= limit && f.bytesXfer <= limit + m && forall i: nat :: f.script(i) <= m
    requires forall i :: 0 <= i < |events| && events[i].SetLimit? ==> events[i].limit <= 10 * limit
    ensures Run(f, events).bytesXfer <= limit + m
    decreases |events|
  {
    hide FlushLoop, PutLoop;
    if events != [] {
      var e, next := events[0], Step(f, events[0]);
      if e.PutData? {
        FlushKeepsStream(f.(frozen := false));
        PutCharges(Flush(f.(frozen := false)), e.data, m);
      } else if e.RateTick? {
        FlushKeepsStream(f.(bytesXfer := 0));
      }
      RateBound(next, events[1..], limit, m);
    }
  }

  datatype Event = PutData(data: seq<Byte>) | RateTick | SetLimit(limit: nat)

  function Step(f: File, e: Event): File {
    match e
    case PutData(data) => Put(f, data)
    case RateTick => Tick(f)
    case SetLimit(limit) => if f.error != 0 then f else f.(xferLimit := limit / 10)
  }

  function Run(f: File, events: seq<Event>): File
    decreases |events|
  {
    if events == [] then f else Run(Step(f, events[0]), events[1..])
  }

  /** All bytes put, in order. */
  function PutBytes(events: seq<Event>): seq<Byte> {
    if events == [] then [] else
      (if events[0].PutData? then events[0].data else []) + PutBytes(events[1..])
  }

  lemma {:induction false} StepConserves(f: File, e: Event)
    requires NoZero(f.script)
    ensures var r := Step(f, e);
            && r.script == f.script
            && (r.error == 0 ==> f.error == 0 && Stream(r) == Stream(f) + PutBytes([e]))
  {
    hide Put, Tick, Stream;
    assert PutBytes([e]) == (if e.PutData? then e.data else []) + PutBytes([]);
    match e
    case PutData(data) => PutConserves(f, data);
    case RateTick => TickConserves(f);
    case SetLimit(limit) => SameStream(f, f.(xferLimit := limit / 10));
  }

  lemma {:induction false} SameStream(f: File, g: File)
    requires f.delivered == g.delivered && f.buffer == g.buffer
    ensures Stream(f) == Stream(g)
  {
  }

  /** Over every run, whatever short writes, EAGAIN answers, rate-limit stops, ticks and limit
      changes occur: while no error is recorded, what has been delivered followed by what is buffered
      is what was put, in order; and a close that ends without an error has delivered it all. */
  lemma {:induction false} StreamConserved(f: File, events: seq<Event>, k: nat)
    requires NoZero(f.script)
    ensures var r := Run(f, events);
            && r.script == f.script
            && (r.error == 0 ==> f.error == 0 && Stream(r) == Stream(f) + PutBytes(events))
            && (Done(CloseAfter(r, k)) && CloseAfter(r, k).error == 0 ==>
                  CloseAfter(r, k).delivered == Stream(f) + PutBytes(events))
    decreases |events|
  {
    hide Step, CloseAfter, Done, Stream;
    if events == [] {
      assert Stream(f) + [] == Stream(f);
    } else {
      var f1 := Step(f, events[0]);
      StepConserves(f, events[0]);
      StreamConserved(f1, events[1..], k);
      PutBytesFirst(events);
      assert Stream(f) + PutBytes([events[0]]) + PutBytes(events[1..]) == Stream(f) + PutBytes(events);
    }
    CloseConserves(Run(f, events), k);
  }

  lemma {:induction false} PutBytesFirst(events: seq<Event>)
    requires events != []
    ensures PutBytes(events) == PutBytes([events[0]]) + PutBytes(events[1..])
  {
    assert [events[0]][1..] == [];
    assert PutBytes([events[0]]) == (if events[0].PutData? then events[0].data else []) + [];
  }

  // ----- When the close ends -----

  predicate Fails(answer: int) { answer < 0 && answer != EAGAIN }

  /** What the backend is ready to take in n calls. */
  function Supply(script: nat -> int, at: nat, n: nat): nat
    decreases n
  {
    if n == 0 then 0 else (if script(at) > 0 then script(at) else 0) + Supply(script, at + 1, n - 1)
  }

  lemma {:induction false} SupplyAdds(script: nat -> int, at: nat, m: nat, n: nat)
    ensures Supply(script, at, m + n) == Supply(script, at, m) + Supply(script, at + m, n)
    decreases m
  {
    if m != 0 {
      SupplyAdds(script, at + 1, m - 1, n);
    }
  }

  /** r is what flushing has made of f, which had nothing wrong: how much is left, and whether a failure was met. */
  ghost predicate Flushed(f: File, r: File) {
    && r.script == f.script && r.calls >= f.calls
    && (var taken := Supply(f.script, f.calls, r.calls - f.calls);
        |r.buffer| == if taken >= |f.buffer| then 0 else |f.buffer| - taken)
    && (r.error == 0 ==> forall i :: f.calls <= i < r.calls ==> !Fails(f.script(i)))
    && (r.error != 0 ==> r.calls > f.calls && Fails(f.script(r.calls - 1)))
  }

  lemma {:induction false} FlushCounts(f: File)
    requires f.error == 0
    ensures Flushed(f, FlushLoop(f)) && (f.buffer != [] ==> FlushLoop(f).calls > f.calls)
    decreases |f.buffer|
  {
    if f.buffer != [] {
      var ret := Answer(f, |f.buffer|);
      if ret != EAGAIN && ret > 0 {
        var next := Offer(f, f.buffer).(buffer := f.buffer[ret..]);
        FlushCounts(next);
        FlushedNext(f, next, FlushLoop(next));
      } else {
        assert Supply(f.script, f.calls, 1) == Supply(f.script, f.calls + 1, 0) == 0;
      }
    }
  }

  /** After an answer that takes something. */
  lemma {:induction false} FlushedNext(f: File, next: File, r: File)
    requires f.buffer != [] && f.script(f.calls) > 0 && next.script == f.script && next.calls == f.calls + 1
    requires |next.buffer| == |f.buffer| - Answer(f, |f.buffer|) && Flushed(next, r)
    ensures Flushed(f, r)
  {
    assert Supply(f.script, f.calls, r.calls - f.calls) == f.script(f.calls) + Supply(f.script, next.calls, r.calls - next.calls);
  }

  lemma {:induction false} FlushedThen(f: File, mid: File, r: File)
    requires Flushed(f, mid) && mid.error == 0 && mid.buffer != [] && Flushed(mid, r)
    ensures Flushed(f, r)
  {
    SupplyAdds(f.script, f.calls, mid.calls - f.calls, r.calls - mid.calls);
  }

  lemma {:induction false} CloseCounts(f: File, k: nat)
    requires f.error == 0
    ensures var r := CloseAfter(f, k); Flushed(f, r) && (Done(r) || r.calls >= f.calls + k)
    decreases k
  {
    hide FlushLoop, Flushed;
    if k == 0 || Done(f) {
      NothingFlushed(f);
    } else {
      var mid := Flush(f);
      FlushCounts(f);
      if Done(mid) {
        assert CloseAfter(mid, k - 1) == mid;
      } else {
        CloseCounts(mid, k - 1);
        FlushedThen(f, mid, CloseAfter(mid, k - 1));
      }
    }
  }

  lemma {:induction false} NothingFlushed(f: File)
    requires f.error == 0
    ensures Flushed(f, f)
  {
  }

  /** The m-th answer is a failure, or the answers before it are ready to take all that is buffered. */
  ghost predicate EndsBy(f: File, m: nat) {
    Fails(f.script(f.calls + m)) || Supply(f.script, f.calls, m) >= |f.buffer|
  }

  /** A close started without an error ends exactly if the backend some time fails, or is ready to take in all
      as many bytes as are buffered. A backend that only answers zero and EAGAIN keeps it turning for ever. */
  lemma {:induction false} CloseEndsIff(f: File)
    requires f.error == 0
    ensures (exists k: nat :: Done(CloseAfter(f, k)))
       <==> (exists m: nat :: EndsBy(f, m))
  {
    hide CloseAfter;
    if k: nat :| Done(CloseAfter(f, k)) {
      CloseCounts(f, k);
      var r := CloseAfter(f, k);
      var m := r.calls - f.calls;
      assert EndsBy(f, if r.error != 0 then m - 1 else m);
    }
    if m: nat :| EndsBy(f, m) {
      CloseCounts(f, m + 1);
      var r := CloseAfter(f, m + 1);
      if !Done(r) {
        SupplyAdds(f.script, f.calls, m, r.calls - f.calls - m);
      }
      assert Done(r);
    }
  }

  // ----- Why the backend must not answer zero -----

  /** A zero answer is recorded as error 0, that is, as no error: the rest of the data is dropped and
      nobody is told. */
  lemma {:induction false} ZeroLosesData(f: File, data: seq<Byte>)
    requires f.error == 0 && f.buffer == [] && f.bytesXfer <= f.xferLimit && data != []
    requires f.script(f.calls) == 0
    ensures Put(f, data).error == 0 && Stream(Put(f, data)) == Stream(f)
  {
    assert f.delivered + [] == f.delivered;
  }

  /** A zero answer to the flush lets new data overtake what is buffered. */
  lemma {:induction false} ZeroReorders(f: File, data: seq<Byte>)
    requires f.error == 0 && f.buffer != [] && f.bytesXfer <= f.xferLimit && data != []
    requires f.script(f.calls) == 0 && f.script(f.calls + 1) >= |data|
    ensures Put(f, data).error == 0
    ensures Put(f, data).delivered == f.delivered + data && Put(f, data).buffer == f.buffer
  {
    var f1 := Flush(f.(frozen := false));
    assert f1 == f.(frozen := false, calls := f.calls + 1) by { assert f.delivered + [] == f.delivered; }
    assert data[..|data|] == data && data[|data|..] == [];
    var f2 := Offer(f1, data).(bytesXfer := f1.bytesXfer + |data|);
    assert PutLoop(f1, data) == PutLoop(f2, []) == PutResult(f2, [], false);
    assert f.buffer + [] == f.buffer;
  }

  // ----- Exactly when one put is faithful, for a backend that may answer zero -----

  /** What may be put before the rate limit is exceeded. */
  function Room(f: File): int { f.xferLimit - f.bytesXfer }

  ghost predicate AllPositive(script: nat -> int, at: nat, n: nat) { forall i :: at <= i < at + n ==> script(i) > 0 }

  /** Just j answers take n bytes. */
  ghost predicate DrainsIn(script: nat -> int, at: nat, n: nat, j: nat) {
    AllPositive(script, at, j) && Supply(script, at, j) >= n && (j > 0 ==> Supply(script, at, j - 1) < n)
  }

  /** After j answers that take less than n bytes, the next takes nothing. */
  ghost predicate StopsAt(script: nat -> int, at: nat, n: nat, j: nat) {
    AllPositive(script, at, j) && Supply(script, at, j) < n && script(at + j) <= 0
  }

  /** The same within a limit of `room` bytes, which stops a put once it is exceeded. */
  ghost predicate PutStopsAt(script: nat -> int, at: nat, n: nat, room: int, j: nat) {
    StopsAt(script, at, n, j) && Supply(script, at, j) <= room
  }

  ghost predicate StopsByZero(script: nat -> int, at: nat, n: nat, room: int) {
    exists j: nat :: PutStopsAt(script, at, n, room, j) && script(at + j) == 0
  }

  ghost predicate StopsByError(script: nat -> int, at: nat, n: nat, room: int) {
    exists j: nat :: PutStopsAt(script, at, n, room, j) && Fails(script(at + j))
  }

  /** The flush of a put of n bytes is over with its j-th answer, and a zero does harm: it drops data of the
      put, or it ends the flush and lets data overtake what is buffered. */
  ghost predicate HarmAfter(f: File, n: nat, j: nat) {
    var script, at, room := f.script, f.calls, Room(f);
    || (DrainsIn(script, at, |f.buffer|, j) && StopsByZero(script, at + j, n, room))
    || (&& StopsAt(script, at, |f.buffer|, j) && script(at + j) != EAGAIN
        && (|| StopsByZero(script, at + j + 1, n, room)
            || (&& script(at + j) == 0 && n > 0 && room >= 0 && script(at + j + 1) > 0
                && !StopsByError(script, at + j + 1, n, room))))
  }

  /** Stated over the backend's answers and the lengths alone. */
  ghost predicate ZerosHarmless(f: File, n: nat) { forall j: nat :: !HarmAfter(f, n, j) }

  lemma {:induction false} SupplyGrows(script: nat -> int, at: nat, j: nat, k: nat)
    requires j <= k
    ensures Supply(script, at, j) <= Supply(script, at, k)
  {
    SupplyAdds(script, at, j, k - j);
  }

  lemma {:induction false} NotBefore(script: nat -> int, at: nat, n: nat, j: nat, k: nat)
    requires j < k && AllPositive(script, at, k) && Supply(script, at, k - 1) < n
    ensures !DrainsIn(script, at, n, j) && !StopsAt(script, at, n, j)
  {
    assert script(at + j) > 0;
    SupplyGrows(script, at, j, k - 1);
  }

  /** The flush is over in one way only. */
  lemma {:induction false} OverOnce(script: nat -> int, at: nat, n: nat, j: nat, k: nat)
    requires DrainsIn(script, at, n, j) || StopsAt(script, at, n, j)
    requires DrainsIn(script, at, n, k) || StopsAt(script, at, n, k)
    ensures j == k
  {
    if j < k {
      SupplyGrows(script, at, k - 1, k);
      NotBefore(script, at, n, j, k);
    } else if k < j {
      SupplyGrows(script, at, j - 1, j);
      NotBefore(script, at, n, k, j);
    }
  }

  /** How the flush of f ends in r: drained, or stopped after j answers. */
  ghost predicate FlushEnded(f: File, r: File, j: nat) {
    && r.script == f.script && r.bytesXfer == f.bytesXfer && r.xferLimit == f.xferLimit
    && if r.buffer == [] then
         DrainsIn(f.script, f.calls, |f.buffer|, j) && r.calls == f.calls + j && r.error == f.error && r.frozen == f.frozen
       else
         && StopsAt(f.script, f.calls, |f.buffer|, j) && r.calls == f.calls + j + 1
         && (if f.script(f.calls + j) == EAGAIN then r.error == f.error && r.frozen
             else r.error == f.script(f.calls + j) && r.frozen == f.frozen)
  }

  /** The first answer takes part of the buffer. */
  lemma {:induction false} LaterEnd(f: File, next: File, r: File, i: nat)
    requires 0 < f.script(f.calls) < |f.buffer| && |next.buffer| == |f.buffer| - f.script(f.calls) && next.calls == f.calls + 1
    requires next == f.(buffer := next.buffer, calls := next.calls, delivered := next.delivered) && FlushEnded(next, r, i)
    ensures FlushEnded(f, r, i + 1)
  {
    assert Supply(f.script, f.calls, i + 1) == f.script(f.calls) + Supply(f.script, f.calls + 1, i);
    assert Supply(f.script, f.calls, 0) == 0;
    if i > 0 {
      assert Supply(f.script, f.calls, i) == f.script(f.calls) + Supply(f.script, f.calls + 1, i - 1);
    }
  }

  /** The first answer takes the whole buffer, or nothing of it. */
  lemma {:induction false} EndsAtOnce(f: File)
    requires f.buffer != [] ==> f.script(f.calls) <= 0 || f.script(f.calls) >= |f.buffer|
    ensures FlushEnded(f, FlushLoop(f), if f.buffer != [] && f.script(f.calls) > 0 then 1 else 0)
  {
    assert Supply(f.script, f.calls, 0) == 0;
    assert Supply(f.script, f.calls + 1, 0) == 0;
  }

  lemma {:induction false} FlushEnds(f: File) returns (j: nat)
    ensures FlushEnded(f, FlushLoop(f), j)
    decreases |f.buffer|
  {
    hide FlushEnded;
    if f.buffer != [] && 0 < f.script(f.calls) < |f.buffer| {
      var next := Offer(f, f.buffer).(buffer := f.buffer[f.script(f.calls)..]);
      var i := FlushEnds(next);
      LaterEnd(f, next, FlushLoop(f), i);
      j := i + 1;
    } else {
      EndsAtOnce(f);
      j := if f.buffer != [] && f.script(f.calls) > 0 then 1 else 0;
    }
  }

  /** What a put that is stopped by an answer makes of it. */
  ghost predicate StoppedBy(f: File, data: seq<Byte>, r: PutResult, answer: int) {
    r.failed == (answer != EAGAIN) && r.file.error == if r.failed then answer else f.error
  }

  /** A put into a file that is not frozen is stopped by the answer that stops it. */
  lemma {:induction false} PutByStop(f: File, data: seq<Byte>, j: nat)
    requires !f.frozen && PutStopsAt(f.script, f.calls, |data|, Room(f), j)
    ensures StoppedBy(f, data, PutLoop(f, data), f.script(f.calls + j))
    ensures |PutLoop(f, data).rest| == |data| <==> j == 0
    decreases j
  {
    StopMeans(f.script, f.calls, |data|, Room(f), j);
    if j > 0 {
      TakesPart(f, |data|, j);
      var ret := f.script(f.calls);
      var next := Offer(f, data).(bytesXfer := f.bytesXfer + ret);
      PutByStop(next, data[ret..], j - 1);
      hide PutStopsAt;
      PutLoopTakes(next, data[ret..]);
    }
  }

  lemma {:induction false} TakesPart(f: File, n: nat, j: nat)
    requires j > 0 && PutStopsAt(f.script, f.calls, n, Room(f), j)
    ensures var ret := f.script(f.calls);
            0 < ret < n && PutStopsAt(f.script, f.calls + 1, n - ret, Room(f) - ret, j - 1)
  {
    assert f.script(f.calls) > 0;
    assert Supply(f.script, f.calls, j) == f.script(f.calls) + Supply(f.script, f.calls + 1, j - 1);
  }

  /** A put that no answer stops does not fail. */
  lemma {:induction false} PutByEnd(f: File, data: seq<Byte>)
    requires f.frozen || forall j: nat :: !PutStopsAt(f.script, f.calls, |data|, Room(f), j)
    ensures var r := PutLoop(f, data);
            && !r.failed && r.file.error == f.error
            && (|r.rest| == |data| <==> f.frozen || data == [] || f.bytesXfer > f.xferLimit)
    decreases |data|
  {
    if !(f.frozen || data == [] || f.bytesXfer > f.xferLimit) {
      var ret := Answer(f, |data|);
      assert Supply(f.script, f.calls, 0) == 0;
      assert !PutStopsAt(f.script, f.calls, |data|, Room(f), 0);
      var next := Offer(f, data).(bytesXfer := f.bytesXfer + ret);
      forall j: nat
        ensures !PutStopsAt(next.script, next.calls, |data[ret..]|, Room(next), j)
      {
        LaterStop(f, |data|, ret, j);
      }
      PutByEnd(next, data[ret..]);
      PutLoopTakes(next, data[ret..]);
    }
  }

  lemma {:induction false} LaterStop(f: File, n: nat, ret: nat, j: nat)
    requires 0 < ret <= n && ret == (if f.script(f.calls) > n then n else f.script(f.calls))
    ensures PutStopsAt(f.script, f.calls + 1, n - ret, Room(f) - ret, j) ==> PutStopsAt(f.script, f.calls, n, Room(f), j + 1)
  {
    assert Supply(f.script, f.calls, j + 1) == f.script(f.calls) + Supply(f.script, f.calls + 1, j);
  }

  /** The same file holding other bytes. */
  ghost predicate SameLengths(f: File, g: File) {
    f.(buffer := g.buffer, delivered := g.delivered) == g
    && |f.buffer| == |g.buffer| && |f.delivered| == |g.delivered|
  }

  lemma {:induction false} FlushSameLengths(f: File, g: File)
    requires SameLengths(f, g)
    ensures SameLengths(FlushLoop(f), FlushLoop(g))
    decreases |f.buffer|
  {
    if f.buffer != [] {
      var ret := Answer(f, |f.buffer|);
      if ret != EAGAIN && ret > 0 {
        FlushSameLengths(Offer(f, f.buffer).(buffer := f.buffer[ret..]), Offer(g, g.buffer).(buffer := g.buffer[ret..]));
      }
    }
  }

  lemma {:induction false} PutSameLengths(f: File, g: File, d: seq<Byte>, e: seq<Byte>)
    requires SameLengths(f, g) && |d| == |e|
    ensures var r, q := PutLoop(f, d), PutLoop(g, e);
            SameLengths(r.file, q.file) && |r.rest| == |q.rest| && r.failed == q.failed
    decreases |d|
  {
    if !(f.frozen || d == [] || f.bytesXfer > f.xferLimit) {
      var ret := Answer(f, |d|);
      if ret != EAGAIN && ret > 0 {
        PutSameLengths(Offer(f, d).(bytesXfer := f.bytesXfer + ret), Offer(g, e).(bytesXfer := g.bytesXfer + ret),
                       d[ret..], e[ret..]);
      }
    }
  }

  /** What the loops of a put of n bytes do keeps every byte in place. */
  ghost predicate KeepsBytes(f: File, n: nat) {
    var f1 := Flush(f.(frozen := false));
    var r := PutLoop(f1, seq(n, _ => 0));
    r.file.error != 0 || (!r.failed && (f1.buffer == [] || |r.rest| == n))
  }

  /** What the put loop does after a flush that is over with its j-th answer. */
  lemma {:induction false} PutAfter(f: File, n: nat, f1: File, j: nat)
    requires f.error == 0
    requires !f.frozen && FlushEnded(f, f1, j)
    ensures var r := PutLoop(f1, seq(n, _ => 0));
            (r.file.error != 0 || (!r.failed && (f1.buffer == [] || |r.rest| == n))) <==> !HarmAfter(f, n, j)
  {
    hide PutLoop, DrainsIn, StopsAt;
    var zeros: seq<Byte> := seq(n, _ => 0);
    var room := Room(f1);
    PutLoopTakes(f1, zeros);
    DrainsOrStops(f.script, f.calls, |f.buffer|, j);
    if !f1.frozen && exists k: nat :: PutStopsAt(f1.script, f1.calls, n, room, k) {
      var k: nat :| PutStopsAt(f1.script, f1.calls, n, room, k);
      PutByStop(f1, zeros, k);
      forall i: nat | PutStopsAt(f1.script, f1.calls, n, room, i)
        ensures i == k
      {
        OverOnce(f1.script, f1.calls, n, i, k);
      }
      StopMeans(f1.script, f1.calls, n, room, k);
    } else {
      PutByEnd(f1, zeros);
      if !f1.frozen && n > 0 && room >= 0 {
        NotStopped(f1.script, f1.calls, n, room);
      }
    }
  }

  lemma {:induction false} DrainsOrStops(script: nat -> int, at: nat, n: nat, j: nat)
    ensures !(DrainsIn(script, at, n, j) && StopsAt(script, at, n, j))
  {
  }

  /** A put that is stopped is stopped at once exactly when its first answer takes nothing. */
  lemma {:induction false} StopMeans(script: nat -> int, at: nat, n: nat, room: int, k: nat)
    requires PutStopsAt(script, at, n, room, k)
    ensures n > 0 && room >= 0 && script(at + k) <= 0 && (k == 0 <==> script(at) <= 0)
  {
    assert Supply(script, at, 0) == 0;
    if k > 0 {
      assert script(at) > 0;
    }
  }

  lemma {:induction false} NotStopped(script: nat -> int, at: nat, n: nat, room: int)
    requires n > 0 && room >= 0 && forall k: nat :: !PutStopsAt(script, at, n, room, k)
    ensures script(at) > 0
  {
    assert Supply(script, at, 0) == 0;
    assert !PutStopsAt(script, at, n, room, 0);
  }

  lemma {:induction false} KeepsIffHarmless(f: File, n: nat)
    requires f.error == 0
    ensures KeepsBytes(f, n) <==> ZerosHarmless(f, n)
  {
    hide FlushLoop, PutLoop, DrainsIn, StopsAt, HarmAfter;
    var f0 := f.(frozen := false);
    var j := FlushEnds(f0);
    PutAfter(f0, n, FlushLoop(f0), j);
    forall i: nat
      ensures HarmAfter(f, n, i) == HarmAfter(f0, n, i) && (i != j ==> !HarmAfter(f, n, i))
    {
      HarmOnce(f, n, j, i);
    }
  }

  lemma {:induction false} HarmOnce(f: File, n: nat, j: nat, i: nat)
    requires DrainsIn(f.script, f.calls, |f.buffer|, j) || StopsAt(f.script, f.calls, |f.buffer|, j)
    ensures HarmAfter(f, n, i) == HarmAfter(f.(frozen := false), n, i) && (i != j ==> !HarmAfter(f, n, i))
  {
    hide DrainsIn, StopsAt, StopsByZero, StopsByError;
    if DrainsIn(f.script, f.calls, |f.buffer|, i) || StopsAt(f.script, f.calls, |f.buffer|, i) {
      OverOnce(f.script, f.calls, |f.buffer|, i, j);
    }
  }

  /** A put of n bytes conserves the stream, whatever the bytes are. */
  ghost predicate PutFaithful(f: File, n: nat) {
    forall g, e {:trigger SameLengths(f, g), Put(g, e)} :: SameLengths(f, g) && |e| == n && Put(g, e).error == 0 ==>
      Stream(Put(g, e)) == Stream(g) + e
  }

  /** For every state and every backend, zero answers included, one put is faithful exactly when the
      zeros are harmless. */
  lemma {:induction false} PutFaithfulIff(f: File, n: nat)
    requires f.error == 0
    ensures PutFaithful(f, n) <==> ZerosHarmless(f, n)
  {
    hide ZerosHarmless;
    KeepsIffHarmless(f, n);
    if ZerosHarmless(f, n) {
      forall g, e | SameLengths(f, g) && |e| == n && Put(g, e).error == 0
        ensures Stream(Put(g, e)) == Stream(g) + e
      {
        HarmlessConserves(f, g, e);
      }
    } else {
      var g := f.(buffer := seq(|f.buffer|, _ => 0));
      var e: seq<Byte> := seq(n, _ => 1);
      HarmfulBreaks(f, g, e);
    }
  }

  lemma {:induction false} HarmlessConserves(f: File, g: File, e: seq<Byte>)
    requires f.error == 0 && SameLengths(f, g) && KeepsBytes(f, |e|) && Put(g, e).error == 0
    ensures Stream(Put(g, e)) == Stream(g) + e
  {
    var f0, g0 := f.(frozen := false), g.(frozen := false);
    FlushSameLengths(f0, g0);
    FlushKeepsStream(g0);
    var g1 := Flush(g0);
    PutSameLengths(Flush(f0), g1, seq(|e|, _ => 0), e);
    PutLoopTakes(g1, e);
    var q := PutLoop(g1, e);
    StreamsJoin(g1.delivered, g1.buffer, e, |e| - |q.rest|);
  }

  lemma {:induction false} HarmfulBreaks(f: File, g: File, e: seq<Byte>)
    requires f.error == 0 && !KeepsBytes(f, |e|)
    requires g == f.(buffer := seq(|f.buffer|, _ => 0)) && forall i :: 0 <= i < |e| ==> e[i] == 1
    ensures SameLengths(f, g) && Put(g, e).error == 0 && Stream(Put(g, e)) != Stream(g) + e
  {
    var f0, g0 := f.(frozen := false), g.(frozen := false);
    FlushSameLengths(f0, g0);
    FlushKeepsStream(g0);
    var g1 := Flush(g0);
    PutSameLengths(Flush(f0), g1, seq(|e|, _ => 0), e);
    PutLoopTakes(g1, e);
    var q := PutLoop(g1, e);
    if q.failed {
      assert |Stream(Put(g, e))| < |Stream(g)| + |e|;
    } else {
      var i := |g1.delivered|;
      assert Stream(Put(g, e))[i] == e[0] == 1;
      assert (Stream(g) + e)[i] == Stream(g1)[i] == g1.buffer[0];
      assert Stream(g0)[i] == g0.buffer[i - |g0.delivered|];
    }
  }

  /** The file with the first `offset` bytes of its buffer gone. */
  ghost function Pending(f: File, offset: nat): File
    requires offset <= |f.buffer|
  {
    f.(buffer := f.buffer[offset..])
  }

  lemma {:induction false} FlushNothing(f: File)
    requires f.buffer == []
    ensures FlushLoop(f) == f
  {
  }

  /** One turn of buffered_flush's loop, which moves an offset and leaves the buffer for the end. */
  lemma {:induction false} FlushStep(f: File, offset: nat)
    requires offset < |f.buffer|
    ensures var rest := f.buffer[offset..];
            var ret, f' := Answer(f, |rest|), Offer(f, rest);
            FlushLoop(Pending(f, offset)) ==
            if ret == EAGAIN then Pending(f', offset).(frozen := true)
            else if ret <= 0 then Pending(f', offset).(error := ret)
            else FlushLoop(Pending(f', offset + ret))
  {
    var rest := f.buffer[offset..];
    var ret := Answer(f, |rest|);
    if ret > 0 { assert rest[ret..] == f.buffer[offset + ret..]; }
  }

  /** One turn of the loop of buffered_put_buffer, which moves an offset. */
  lemma {:induction false} PutStep(f: File, data: seq<Byte>, offset: nat)
    requires offset < |data| && !f.frozen && f.bytesXfer <= f.xferLimit
    ensures var rest := data[offset..];
            var ret, f' := Answer(f, |rest|), Offer(f, rest);
            PutLoop(f, rest) ==
            if ret == EAGAIN then PutResult(f'.(frozen := true), rest, false)
            else if ret <= 0 then PutResult(f'.(error := ret), rest, true)
            else PutLoop(f'.(bytesXfer := f.bytesXfer + ret), data[offset + ret..])
  {
    var rest := data[offset..];
    var ret := Answer(f, |rest|);
    if ret > 0 { assert rest[ret..] == data[offset + ret..]; }
  }

  lemma {:induction false} PutEnds(f: File, rest: seq<Byte>)
    requires f.frozen || rest == [] || f.bytesXfer > f.xferLimit
    ensures PutLoop(f, rest) == PutResult(f, rest, false)
  {
  }

  /** The file as the program has it. */
  class QemuFileBuffered {
    var frozen: bool
    var bytesXfer: nat
    var xferLimit: nat
    var buffer: seq<Byte>
    var capacity: nat
    var error: int
    const script: nat -> int
    var calls: nat
    var delivered: seq<Byte>

    ghost function State(): File
      reads this
    {
      File(frozen, bytesXfer, xferLimit, buffer, error, script, calls, delivered)
    }

    /** The buffer never outgrows what is allocated for it. */
    ghost predicate Valid()
      reads this
    {
      |buffer| <= capacity
    }

    constructor (bytesPerSec: nat, script: nat -> int)
      ensures Valid() && State() == File(false, 0, bytesPerSec / 10, [], 0, script, 0, [])
    {
      frozen, bytesXfer, xferLimit, buffer, capacity, error := false, 0, bytesPerSec / 10, [], 0, 0;
      this.script, calls, delivered := script, 0, [];
    }

    method Backend(data: seq<Byte>) returns (ret: int)
      modifies this`calls, this`delivered
      ensures ret == old(Answer(State(), |data|)) && State() == old(Offer(State(), data))
    {
      ret := if script(calls) > |data| then |data| else script(calls);
      calls := calls + 1;
      delivered := delivered + if ret > 0 then data[..ret] else [];
    }

    method Append(data: seq<Byte>)
      requires Valid()
      modifies this`buffer, this`capacity
      ensures Valid() && buffer == old(buffer) + data
    {
      if |data| > capacity - |buffer| {
        capacity := capacity + |data| + 1024;
      }
      buffer := buffer + data;
    }

    method BufferedFlush()
      requires Valid()
      modifies this
      ensures Valid() && State() == Flush(old(State()))
    {
      hide FlushLoop;
      if error != 0 { return; }
      var offset := 0;
      ghost var goal := FlushLoop(State());
      while offset < |buffer|
        invariant 0 <= offset <= |buffer| && Valid() && error == 0
        invariant FlushLoop(Pending(State(), offset)) == goal
      {
        var rest := buffer[offset..];
        FlushStep(State(), offset);
        var ret := Backend(rest);
        if ret == EAGAIN {
          frozen := true;
          break;
        }
        if ret <= 0 {
          error := ret;
          break;
        }
        offset := offset + ret;
      }
      if offset == |buffer| { FlushNothing(Pending(State(), offset)); }
      buffer := buffer[offset..];
    }

    method PutBuffer(data: seq<Byte>) returns (ret: int)
      requires Valid()
      modifies this
      ensures Valid() && State() == Put(old(State()), data)
      ensures ret == if old(error) != 0 then old(error) else if PutFails(old(State()), data) then EINVAL else |data|
    {
      hide PutLoop, FlushLoop;
      if error != 0 { return error; }
      frozen := false;
      BufferedFlush();
      var offset := 0;
      ghost var goal := PutLoop(State(), data);
      while !frozen && offset < |data|
        invariant 0 <= offset <= |data| && Valid()
        invariant PutLoop(State(), data[offset..]) == goal
        decreases |data| - offset
      {
        if bytesXfer > xferLimit { break; }
        var rest := data[offset..];
        PutStep(State(), data, offset);
        var ret := Backend(rest);
        if ret == EAGAIN {
          frozen := true;
          break;
        }
        if ret <= 0 {
          error := ret;
          return EINVAL;
        }
        offset := offset + ret;
        bytesXfer := bytesXfer + ret;
      }
      PutEnds(State(), data[offset..]);
      Append(data[offset..]);
      return |data|;
    }

    /** The loop ends if it ends at all, which CloseEndsIff decides. */
    method BufferedClose(ghost turns: nat)
      requires Valid() && Done(CloseAfter(State(), turns))
      modifies this
      ensures Valid() && State() == CloseAfter(old(State()), turns) && (error != 0 || buffer == [])
    {
      ghost var left, goal := turns, CloseAfter(State(), turns);
      while error == 0 && buffer != []
        invariant Valid() && CloseAfter(State(), left) == goal && Done(goal)
        decreases left
      {
        BufferedFlush();
        left := left - 1;
      }
    }

    method RateLimit() returns (ret: int)
      ensures ret == RateAnswer(State())
    {
      if error != 0 { return error; }
      if frozen { return 1; }
      if bytesXfer > xferLimit { return 1; }
      return 0;
    }

    method SetRateLimit(newRate: nat) returns (limit: nat)
      requires Valid()
      modifies this`xferLimit
      ensures Valid() && State() == Step(old(State()), SetLimit(newRate)) && limit == xferLimit
    {
      if error == 0 {
        xferLimit := newRate / 10;
      }
      return xferLimit;
    }

    method RateTick()
      requires Valid()
      modifies this
      ensures Valid() && State() == Tick(old(State()))
    {
      if error != 0 {
        BufferedClose(0);
        return;
      }
      if frozen { return; }
      bytesXfer := 0;
      BufferedFlush();
    }
  }
}
