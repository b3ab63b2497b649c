/** Submitting a batch of writes: the merge in place, and the completion of the merged requests
    (multiwrite_merge, multiwrite_cb and bdrv_aio_multiwrite in block.c). */
module Multiwrite {
  import opened Wire
  import opened WriteMerge
  import Qsort

  const ENOMEDIUM := -123

  /** A BlockRequest: the write, and the fields the merge must leave alone. */
  datatype BlockRequest = BlockRequest(write: Req, opq: nat, error: int)

  predicate SectorOrder(a: BlockRequest, b: BlockRequest) { a.write.sector <= b.write.sector }

  function WritesOf(rs: seq<BlockRequest>): (ws: seq<Req>)
    ensures |ws| == |rs| && forall i :: 0 <= i < |rs| ==> ws[i] == rs[i].write
  {
    seq(|rs|, i requires 0 <= i < |rs| => rs[i].write)
  }

  /** The i-th request of the sorted batch is joined to the output before it. */
  ghost predicate JoinedAt(ws: seq<Req>, i: nat)
    requires Sorted(ws) && 0 < i < |ws|
  {
    Mergeable(Last(Merge(ws[..i])), ws[i])
  }

  /** qsort on the array. */
  method SortRequests(reqs: array<BlockRequest>)
    modifies reqs
    ensures reqs[..] == Qsort.Sort(old(reqs[..]), SectorOrder)
    ensures Sorted(WritesOf(reqs[..])) && multiset(reqs[..]) == multiset(old(reqs[..]))
  {
    var sorted := Qsort.Sort(reqs[..], SectorOrder);
    Qsort.SortCorrect(reqs[..], SectorOrder);
    assert |sorted| == |multiset(sorted)| == |multiset(reqs[..])| == reqs.Length;
    forall i | 0 <= i < reqs.Length { reqs[i] := sorted[i]; }
    assert reqs[..] == sorted;
  }

  lemma {:induction false} MergeNext(ws: seq<Req>, i: nat)
    requires Sorted(ws) && 0 < i < |ws|
    ensures Merge(ws[..i]) != [] && Last(Merge(ws[..i])).sector <= ws[i].sector
    ensures Merge(ws[..i + 1]) == Step(Merge(ws[..i]), ws[i])
  {
    assert ws[..i + 1][..i] == ws[..i];
  }

  /** What the callback slot of request i is given to release. */
  ghost function Slot(ws: seq<Req>, i: nat): Option<Qiov>
    requires Sorted(ws) && i < |ws|
  {
    if i > 0 && JoinedAt(ws, i) then Some(Last(Merge(ws[..i + 1])).qiov) else None
  }

  ghost function SlotsUpTo(ws: seq<Req>, n: nat): (r: seq<Option<Qiov>>)
    requires Sorted(ws) && n <= |ws|
    ensures |r| == n && forall i :: 0 <= i < n ==> r[i] == Slot(ws, i)
  {
    seq(n, i requires 0 <= i < n => Slot(ws, i))
  }

  /** The first places of the array hold these writes. */
  ghost predicate Holds(rs: seq<BlockRequest>, outs: seq<Req>) {
    |outs| <= |rs| && forall k :: 0 <= k < |outs| ==> rs[k].write == outs[k]
  }

  /** The requests differ at most in what they write. */
  predicate SameBut(a: BlockRequest, b: BlockRequest) { a.opq == b.opq && a.error == b.error }

  /** The loop's invariant: after i of the sorted requests, the places up to outidx hold their
      merge, the places from i on are untouched, and each join is recorded. */
  ghost predicate MergedUpTo(rs: seq<BlockRequest>, sorted: seq<BlockRequest>, i: nat, outidx: nat,
                             free: seq<Option<Qiov>>)
  {
    && |rs| == |sorted| && outidx < i <= |rs| && Sorted(WritesOf(sorted))
    && |Merge(WritesOf(sorted)[..i])| == outidx + 1
    && Holds(rs, Merge(WritesOf(sorted)[..i]))
    && (forall k :: i <= k < |rs| ==> rs[k] == sorted[k])
    && (forall k :: 0 <= k < |rs| ==> SameBut(rs[k], sorted[k]))
    && free == SlotsUpTo(WritesOf(sorted), i)
  }

  /** What one turn stores and where. */
  function TurnResult(rs: seq<BlockRequest>, outidx: nat, i: nat): (seq<BlockRequest>, nat, Option<Qiov>)
    requires outidx < i < |rs| && rs[outidx].write.sector <= rs[i].write.sector
  {
    var o, r := rs[outidx].write, rs[i].write;
    if Mergeable(o, r) then
      (rs[outidx := rs[outidx].(write := Join(o, r))], outidx, Some(Join(o, r).qiov))
    else
      (rs[outidx + 1 := rs[outidx + 1].(write := r)], outidx + 1, None)
  }

  lemma {:induction false} TurnOrdered(rs: seq<BlockRequest>, sorted: seq<BlockRequest>, i: nat, outidx: nat,
                                       free: seq<Option<Qiov>>)
    requires MergedUpTo(rs, sorted, i, outidx, free) && 0 < i < |rs|
    ensures outidx < i && rs[outidx].write.sector <= rs[i].write.sector && |rs| == |sorted|
    ensures Sorted(WritesOf(sorted)) && rs[i].write == WritesOf(sorted)[i]
    ensures Merge(WritesOf(sorted)[..i]) != [] && rs[outidx].write == Last(Merge(WritesOf(sorted)[..i]))
  {
    hide Merge, SlotsUpTo, SameBut;
    MergeNext(WritesOf(sorted), i);
  }

  /** One more slot. */
  lemma {:induction false} TurnSlot(rs: seq<BlockRequest>, sorted: seq<BlockRequest>, i: nat, outidx: nat, free: seq<Option<Qiov>>)
    requires MergedUpTo(rs, sorted, i, outidx, free) && 0 < i < |rs|
    requires outidx < i && rs[outidx].write.sector <= rs[i].write.sector
    ensures Sorted(WritesOf(sorted)) && i < |WritesOf(sorted)|
    ensures TurnResult(rs, outidx, i).2 == Slot(WritesOf(sorted), i)
  {
    hide Merge, SlotsUpTo, SameBut, Mergeable, Join;
    TurnOrdered(rs, sorted, i, outidx, free);
    MergeNext(WritesOf(sorted), i);
  }

  lemma {:induction false} TurnKeeps(rs: seq<BlockRequest>, sorted: seq<BlockRequest>, i: nat, outidx: nat,
                                     free: seq<Option<Qiov>>)
    requires MergedUpTo(rs, sorted, i, outidx, free) && 0 < i < |rs|
    ensures outidx < i && rs[outidx].write.sector <= rs[i].write.sector
    ensures var (rs', outidx', slot) := TurnResult(rs, outidx, i);
            MergedUpTo(rs', sorted, i + 1, outidx', free + [slot])
  {
    hide Merge, Slot, Holds, Mergeable, Join;
    var ws := WritesOf(sorted);
    TurnOrdered(rs, sorted, i, outidx, free);
    TurnSlot(rs, sorted, i, outidx, free);
    MergeNext(ws, i);
    TurnHolds(rs, Merge(ws[..i]), outidx, i);
  }

  lemma {:induction false} TurnHolds(rs: seq<BlockRequest>, outs: seq<Req>, outidx: nat, i: nat)
    requires outidx < i < |rs| && Holds(rs, outs) && |outs| == outidx + 1
    requires rs[outidx].write.sector <= rs[i].write.sector
    ensures var (rs', outidx', slot) := TurnResult(rs, outidx, i);
            Holds(rs', Step(outs, rs[i].write)) && |Step(outs, rs[i].write)| == outidx' + 1
  {
    assert Last(outs) == rs[outidx].write;
  }

  method MergeTurn(reqs: array<BlockRequest>, outidx: nat, i: nat) returns (outidx': nat, slot: Option<Qiov>)
    requires outidx < i < reqs.Length && reqs[outidx].write.sector <= reqs[i].write.sector
    modifies reqs
    ensures (reqs[..], outidx', slot) == TurnResult(old(reqs[..]), outidx, i)
  {
    var o, r := reqs[outidx].write, reqs[i].write;
    if Mergeable(o, r) {
      var joined := Join(o, r);
      reqs[outidx] := reqs[outidx].(write := joined);
      return outidx, Some(joined.qiov);
    } else {
      reqs[outidx + 1] := reqs[outidx + 1].(write := r);
      return outidx + 1, None;
    }
  }

  method MergeSorted(reqs: array<BlockRequest>) returns (count: nat, freeQiov: seq<Option<Qiov>>)
    requires reqs.Length > 0 && Sorted(WritesOf(reqs[..]))
    modifies reqs
    ensures count > 0 && MergedUpTo(reqs[..], old(reqs[..]), reqs.Length, count - 1, freeQiov)
  {
    hide MergedUpTo, TurnResult, Merge;
    ghost var sorted := reqs[..];
    var outidx := 0;
    freeQiov := [None];
    MergeStart(sorted);
    var i := 1;
    while i < reqs.Length
      invariant 0 < i <= reqs.Length && 0 <= outidx
      invariant MergedUpTo(reqs[..], sorted, i, outidx, freeQiov)
    {
      TurnKeeps(reqs[..], sorted, i, outidx, freeQiov);
      var slot;
      outidx, slot := MergeTurn(reqs, outidx, i);
      freeQiov := freeQiov + [slot];
      i := i + 1;
    }
    count := outidx + 1;
  }

  lemma {:induction false} MergeStart(sorted: seq<BlockRequest>)
    requires sorted != [] && Sorted(WritesOf(sorted))
    ensures MergedUpTo(sorted, sorted, 1, 0, [None])
  {
    assert SlotsUpTo(WritesOf(sorted), 1) == [None];
    assert WritesOf(sorted)[..1] == [sorted[0].write];
  }

  /** The array ends up holding, in its first `count` places, the merge of the sorted requests;
      what is not part of the write stays in its place. Each joined vector is recorded in the
      callback slot of the request that was joined, and in no other. */
  method MultiwriteMerge(reqs: array<BlockRequest>) returns (count: nat, freeQiov: seq<Option<Qiov>>)
    requires reqs.Length > 0
    modifies reqs
    ensures var sorted := Qsort.Sort(old(reqs[..]), SectorOrder);
            && |sorted| == reqs.Length && Sorted(WritesOf(sorted))
            && count == |Merge(WritesOf(sorted))| && Holds(reqs[..], Merge(WritesOf(sorted)))
            && (forall k :: 0 <= k < reqs.Length ==> SameBut(reqs[k], sorted[k]))
            && freeQiov == SlotsUpTo(WritesOf(sorted), reqs.Length)
  {
    hide Merge, SlotsUpTo, Qsort.Sort;
    SortRequests(reqs);
    ghost var sorted := reqs[..];
    count, freeQiov := MergeSorted(reqs);
    assert WritesOf(sorted)[..reqs.Length] == WritesOf(sorted);
    assert forall k :: 0 <= k < reqs.Length ==> SameBut(reqs[..][k], sorted[k]);
  }

  /** A request is joined to what is before it exactly if it begins at or before the end of the request that comes
      before it in sorted order, and the two vectors and one more segment fit. */
  lemma {:induction false} JoinedIff(ws: seq<Req>, i: nat)
    requires Sorted(ws) && 0 < i < |ws|
    ensures Merge(ws[..i]) != []
    ensures JoinedAt(ws, i) <==> Start(ws[i]) <= End(ws[i - 1]) && |Last(Merge(ws[..i])).qiov| + |ws[i].qiov| + 1 <= IOV_MAX
  {
    hide Merge, End;
    MergeEnd(ws[..i]);
  }

  ghost function JoinedSlots(ws: seq<Req>): set<nat>
    requires Sorted(ws)
  {
    set i: nat | 0 < i < |ws| && JoinedAt(ws, i)
  }

  /** Each join takes one request out of the batch and fills one slot. */
  lemma {:induction false} SlotsAndRequests(ws: seq<Req>)
    requires Sorted(ws) && ws != []
    ensures |Merge(ws)| + |JoinedSlots(ws)| == |ws|
  {
    var n := |ws| - 1;
    if n == 0 {
      assert JoinedSlots(ws) == {};
    } else {
      SlotsAndRequests(ws[..n]);
      JoinedPrefix(ws, n);
      MergeNext(ws, n);
      assert ws[..n + 1] == ws;
    }
  }

  lemma {:induction false} JoinedPrefix(ws: seq<Req>, n: nat)
    requires Sorted(ws) && 0 < n == |ws| - 1
    ensures JoinedSlots(ws) == JoinedSlots(ws[..n]) + if JoinedAt(ws, n) then {n} else {}
  {
    hide JoinedAt;
    forall i: nat | 0 < i < n ensures JoinedAt(ws[..n], i) == JoinedAt(ws, i) {
      JoinedSame(ws, n, i);
    }
  }

  lemma {:induction false} JoinedSame(ws: seq<Req>, n: nat, i: nat)
    requires Sorted(ws) && 0 < i < n <= |ws|
    ensures JoinedAt(ws[..n], i) == JoinedAt(ws, i)
  {
    hide Merge, Mergeable;
    assert ws[..n][..i] == ws[..i];
  }

  /** A one-sector write inside a three-sector one: the contained request makes the merge drop the third
      sector of the other. */
  lemma {:induction false} ContainedRequestLosesTail()
    ensures var long, short := Req(0, [seq(1536, _ => 1)]), Req(1, [seq(512, _ => 2)]);
            && Sorted([long, short])
            && After([long, short], 0, 1024) == 1
            && After(Merge([long, short]), 0, 1024) == 0
  {
    var long, short := Req(0, [seq(1536, _ => 1)]), Req(1, [seq(512, _ => 2)]);
    var reqs := [long, short];
    assert Flatten(long.qiov) == long.qiov[0] + [];
    assert Flatten(short.qiov) == short.qiov[0] + [];
    assert End(long) == 1536 && End(short) == 1024;
    assert reqs[..1] == [long];
    assert Merge([long]) == [long];
    JoinBytes(long, short, 1024);
    var out := Merge(reqs);
    assert out == [Join(long, short)];
    assert out[..0] == [];
    assert After(reqs, 0, 1024) == After([long], 0, 1024);
  }

  // ----- Completion -----

  /** An entry of the array of callbacks: whom to call, and whether there is a vector to release. */
  datatype Callback = Callback(opq: nat, frees: bool)

  datatype Call = Call(slot: nat, opq: nat, error: int) | Release(slot: nat)

  /** The batch's MultiwriteCB, and the calls and releases made so far. */
  datatype Batch = Batch(error: int, numRequests: nat, callbacks: seq<Callback>, log: seq<Call>, freed: bool)

  /** One callback, followed by the release of its vector. */
  function UserCall(cbs: seq<Callback>, error: int, i: nat): seq<Call>
    requires i < |cbs|
  {
    if cbs[i].frees then [Call(i, cbs[i].opq, error), Release(i)] else [Call(i, cbs[i].opq, error)]
  }

  /** multiwrite_user_cb: every callback in order. */
  function UserCalls(cbs: seq<Callback>, error: int, n: nat): seq<Call>
    requires n <= |cbs|
  {
    if n == 0 then [] else UserCalls(cbs, error, n - 1) + UserCall(cbs, error, n - 1)
  }

  /** multiwrite_cb, for one merged request that finished with ret. */
  function Complete(b: Batch, ret: int): Batch
    requires b.numRequests > 0
  {
    var error := if ret < 0 && b.error == 0 then ret else b.error;
    var b' := b.(error := error, numRequests := b.numRequests - 1);
    if b'.numRequests == 0 then b'.(log := b.log + UserCalls(b.callbacks, error, |b.callbacks|), freed := true)
    else b'
  }

  function CompleteAll(b: Batch, rets: seq<int>): Batch
    requires |rets| <= b.numRequests
    decreases |rets|
  {
    if rets == [] then b else CompleteAll(Complete(b, rets[0]), rets[1..])
  }

  function FirstError(rets: seq<int>): int {
    if rets == [] then 0 else if rets[0] < 0 then rets[0] else FirstError(rets[1..])
  }

  lemma {:induction false} CompletionRuns(b: Batch, rets: seq<int>)
    requires 0 < |rets| <= b.numRequests
    ensures var e := if b.error != 0 then b.error else FirstError(rets);
            CompleteAll(b, rets) ==
            if |rets| < b.numRequests then b.(error := e, numRequests := b.numRequests - |rets|)
            else b.(error := e, numRequests := 0, freed := true,
                    log := b.log + UserCalls(b.callbacks, e, |b.callbacks|))
    decreases |rets|
  {
    if |rets| == 1 {
      assert rets[1..] == [];
    } else {
      CompletionRuns(Complete(b, rets[0]), rets[1..]);
    }
  }

  /** How often an entry occurs in a log. */
  ghost function CallsOf(log: seq<Call>, c: Call): nat {
    if log == [] then 0 else CallsOf(log[..|log| - 1], c) + if log[|log| - 1] == c then 1 else 0
  }

  /** One call for each callback with the batch's error, one release for each joined vector. */
  ghost function Expected(cbs: seq<Callback>, error: int, n: nat, c: Call): nat
    requires n <= |cbs|
  {
    if c.slot < n && (if c.Call? then c.opq == cbs[c.slot].opq && c.error == error else cbs[c.slot].frees) then 1 else 0
  }

  lemma {:induction false} UserCallsOnce(cbs: seq<Callback>, error: int, n: nat, c: Call)
    requires n <= |cbs|
    ensures CallsOf(UserCalls(cbs, error, n), c) == Expected(cbs, error, n, c)
  {
    hide CallsOf, Expected, UserCall;
    if n == 0 {
      NoCalls(cbs, error, c);
    } else {
      UserCallsOnce(cbs, error, n - 1, c);
      UserCallOnce(cbs, error, n - 1, c);
      CallsAppend(UserCalls(cbs, error, n - 1), UserCall(cbs, error, n - 1), c);
      ExpectedStep(cbs, error, n, c);
    }
  }

  lemma {:induction false} NoCalls(cbs: seq<Callback>, error: int, c: Call)
    ensures CallsOf([], c) == 0 == Expected(cbs, error, 0, c)
  {
  }

  lemma {:induction false} ExpectedStep(cbs: seq<Callback>, error: int, n: nat, c: Call)
    requires 0 < n <= |cbs|
    ensures Expected(cbs, error, n, c) == Expected(cbs, error, n - 1, c)
              + if c == Call(n - 1, cbs[n - 1].opq, error) || (cbs[n - 1].frees && c == Release(n - 1)) then 1 else 0
  {
  }

  lemma {:induction false} UserCallOnce(cbs: seq<Callback>, error: int, i: nat, c: Call)
    requires i < |cbs|
    ensures CallsOf(UserCall(cbs, error, i), c)
         == if c == Call(i, cbs[i].opq, error) || (cbs[i].frees && c == Release(i)) then 1 else 0
  {
    var calls := UserCall(cbs, error, i);
    assert CallsOf([Call(i, cbs[i].opq, error)], c) == if c == Call(i, cbs[i].opq, error) then 1 else 0;
    if cbs[i].frees { assert calls[..1] == [Call(i, cbs[i].opq, error)]; }
  }

  lemma {:induction false} CallsAppend(a: seq<Call>, b: seq<Call>, c: Call)
    ensures CallsOf(a + b, c) == CallsOf(a, c) + CallsOf(b, c)
  {
    if b == [] {
      assert a + b == a;
    } else {
      CallsAppend(a, b[..|b| - 1], c);
      assert (a + b)[..|a + b| - 1] == a + b[..|b| - 1];
    }
  }

  /** In whatever order and with whatever results the merged requests finish: nothing is called
      before the last of them, then each original callback is called exactly once, all with the
      first error recorded, and each joined vector is released exactly once. */
  lemma {:induction false} EachCallbackOnce(cbs: seq<Callback>, rets: seq<int>, k: nat, c: Call)
    requires k < |rets|
    ensures var start := Batch(0, |rets|, cbs, [], false);
            && CompleteAll(start, rets[..k]).log == []
            && var end := CompleteAll(start, rets);
            && end.freed && end.numRequests == 0
            && CallsOf(end.log, c) == Expected(cbs, FirstError(rets), |cbs|, c)
  {
    var start := Batch(0, |rets|, cbs, [], false);
    if k > 0 { CompletionRuns(start, rets[..k]); }
    CompletionRuns(start, rets);
    UserCallsOnce(cbs, FirstError(rets), |cbs|, c);
    assert [] + UserCalls(cbs, FirstError(rets), |cbs|) == UserCalls(cbs, FirstError(rets), |cbs|);
  }

  // ----- The whole batch -----

  /** The callbacks are recorded before the requests are sorted, the vectors to release after. */
  function Callbacks(rs: seq<BlockRequest>, slots: seq<Option<Qiov>>): (r: seq<Callback>)
    requires |slots| == |rs|
    ensures |r| == |rs| && forall i :: 0 <= i < |r| ==> r[i] == Callback(rs[i].opq, slots[i].Some?)
  {
    seq(|rs|, i requires 0 <= i < |rs| => Callback(rs[i].opq, slots[i].Some?))
  }

  function SortedWrites(rs: seq<BlockRequest>): (ws: seq<Req>)
    ensures |ws| == |rs| && Sorted(ws)
  {
    Qsort.SortCorrect(rs, SectorOrder);
    var sorted := Qsort.Sort(rs, SectorOrder);
    assert |sorted| == |multiset(sorted)| == |multiset(rs)| == |rs|;
    WritesOf(sorted)
  }

  /** What bdrv_aio_multiwrite sets up for the batch. */
  ghost function Started(rs: seq<BlockRequest>): Batch {
    var ws := SortedWrites(rs);
    Batch(0, |Merge(ws)|, Callbacks(rs, SlotsUpTo(ws, |ws|)), [], false)
  }

  /** For the batch as it is merged: when all of its requests have finished, the callback of each request as it
      was given has been called once, with the first error recorded, and the vector of each join has been
      released once, in the slot that the joined request has in sorted order, and nothing else has been
      called or released. */
  lemma {:induction false} BatchReleases(rs: seq<BlockRequest>, rets: seq<int>, i: nat, opq: nat, error: int)
    requires rs != [] && |rets| == |Merge(SortedWrites(rs))|
    ensures var end := CompleteAll(Started(rs), rets);
            && end.freed
            && CallsOf(end.log, Call(i, opq, error)) == (if i < |rs| && opq == rs[i].opq && error == FirstError(rets) then 1 else 0)
            && CallsOf(end.log, Release(i)) == (if i in JoinedSlots(SortedWrites(rs)) then 1 else 0)
  {
    hide Merge, CompleteAll, CallsOf, FirstError, JoinedAt, SortedWrites;
    var ws := SortedWrites(rs);
    var cbs := Callbacks(rs, SlotsUpTo(ws, |ws|));
    EachCallbackOnce(cbs, rets, 0, Call(i, opq, error));
    EachCallbackOnce(cbs, rets, 0, Release(i));
    if i < |ws| {
      assert cbs[i].frees == Slot(ws, i).Some?;
    }
  }

  /** Whom the entries of a log call, in order. */
  function Called(log: seq<Call>): seq<nat> {
    if log == [] then [] else Called(log[..|log| - 1]) + if log[|log| - 1].Call? then [log[|log| - 1].opq] else []
  }

  function OpaquesOf(rs: seq<BlockRequest>): (r: seq<nat>)
    ensures |r| == |rs| && forall i :: 0 <= i < |r| ==> r[i] == rs[i].opq
  {
    seq(|rs|, i requires 0 <= i < |rs| => rs[i].opq)
  }

  lemma {:induction false} CalledInOrder(cbs: seq<Callback>, error: int, n: nat)
    requires n <= |cbs|
    ensures |Called(UserCalls(cbs, error, n))| == n
    ensures forall i :: 0 <= i < n ==> Called(UserCalls(cbs, error, n))[i] == cbs[i].opq
  {
    hide Called, UserCall;
    if n == 0 {
      assert Called([]) == [] by {
        CalledNone();
      }
    } else {
      CalledInOrder(cbs, error, n - 1);
      CalledOne(UserCalls(cbs, error, n - 1), cbs, error, n - 1);
    }
  }

  lemma {:induction false} CalledNone()
    ensures Called([]) == []
  {
  }

  lemma {:induction false} CalledOne(log: seq<Call>, cbs: seq<Callback>, error: int, i: nat)
    requires i < |cbs|
    ensures Called(log + UserCall(cbs, error, i)) == Called(log) + [cbs[i].opq]
  {
    var called := log + [Call(i, cbs[i].opq, error)];
    assert called[..|log|] == log;
    if cbs[i].frees {
      var released := log + UserCall(cbs, error, i);
      assert released[..|log| + 1] == called;
    }
  }

  /** The sort shows nowhere in what the callers see: they are called back in the order of the requests they gave. */
  lemma {:induction false} CallersInOrder(rs: seq<BlockRequest>, rets: seq<int>)
    requires rs != [] && |rets| == |Merge(SortedWrites(rs))|
    ensures Called(CompleteAll(Started(rs), rets).log) == OpaquesOf(rs)
  {
    hide Merge, SortedWrites, Called, UserCalls;
    var start := Started(rs);
    CompletionRuns(start, rets);
    CalledInOrder(start.callbacks, FirstError(rets), |rs|);
    assert [] + UserCalls(start.callbacks, FirstError(rets), |rs|) == UserCalls(start.callbacks, FirstError(rets), |rs|);
  }

  method FailAll(reqs: array<BlockRequest>)
    modifies reqs
    ensures forall k :: 0 <= k < reqs.Length ==> reqs[k] == old(reqs[k]).(error := ENOMEDIUM)
  {
    for i := 0 to reqs.Length
      invariant forall k :: 0 <= k < i ==> reqs[k] == old(reqs[k]).(error := ENOMEDIUM)
      invariant forall k :: i <= k < reqs.Length ==> reqs[k] == old(reqs[k])
    {
      reqs[i] := reqs[i].(error := ENOMEDIUM);
    }
  }

  /** The requests in the first places of the array are submitted in order. */
  method Submit(reqs: array<BlockRequest>, count: nat) returns (submitted: seq<Req>)
    requires count <= reqs.Length
    ensures |submitted| == count && Holds(reqs[..], submitted)
  {
    submitted := [];
    for i := 0 to count
      invariant |submitted| == i && forall k :: 0 <= k < i ==> submitted[k] == reqs[k].write
    {
      submitted := submitted + [reqs[i].write];
    }
  }

  /** bdrv_aio_multiwrite. Without a medium every request is given the error; otherwise the callbacks are recorded,
      the batch is merged, and what the merged requests share is set up before the first is submitted. */
  method AioMultiwrite(reqs: array<BlockRequest>, medium: bool) returns (ret: int, submitted: seq<Req>, mcb: MultiwriteCb?)
    modifies reqs
    ensures !medium ==> ret == -1 && submitted == [] && mcb == null
    ensures !medium ==> forall k :: 0 <= k < reqs.Length ==> reqs[k] == old(reqs[k]).(error := ENOMEDIUM)
    ensures medium ==> ret == 0 && (mcb == null <==> reqs.Length == 0)
    ensures medium && mcb == null ==> submitted == []
    ensures mcb != null ==> fresh(mcb) && submitted == Merge(SortedWrites(old(reqs[..]))) && mcb.State() == Started(old(reqs[..]))
  {
    hide Qsort.Sort, SlotsUpTo, Merge;
    ret, submitted, mcb := 0, [], null;
    if !medium {
      FailAll(reqs);
      return -1, [], null;
    }
    if reqs.Length == 0 {
      return;
    }
    var given := reqs[..];
    var count, freeQiov := MultiwriteMerge(reqs);
    mcb := new MultiwriteCb(Callbacks(given, freeQiov), count);
    submitted := Submit(reqs, count);
  }

  class MultiwriteCb {
    var error: int
    var numRequests: nat
    var callbacks: seq<Callback>
    var log: seq<Call>
    var freed: bool

    ghost function State(): Batch
      reads this
    {
      Batch(error, numRequests, callbacks, log, freed)
    }

    /** bdrv_aio_multiwrite sets the number of merged requests before submitting the first. */
    constructor (callbacks: seq<Callback>, numRequests: nat)
      ensures State() == Batch(0, numRequests, callbacks, [], false)
    {
      error, this.numRequests, this.callbacks, log, freed := 0, numRequests, callbacks, [], false;
    }

    method UserCb()
      modifies this`log
      ensures log == old(log) + UserCalls(callbacks, error, |callbacks|)
    {
      var i := 0;
      while i < |callbacks|
        invariant 0 <= i <= |callbacks|
        invariant log == old(log) + UserCalls(callbacks, error, i)
      {
        log := log + [Call(i, callbacks[i].opq, error)];
        if callbacks[i].frees {
          log := log + [Release(i)];
        }
        i := i + 1;
      }
    }

    method Cb(ret: int)
      requires numRequests > 0 && !freed
      modifies this
      ensures State() == Complete(old(State()), ret)
    {
      if ret < 0 && error == 0 {
        error := ret;
      }
      numRequests := numRequests - 1;
      if numRequests == 0 {
        UserCb();
        freed := true;
      }
    }
  }
}
