/** The sender of block migration: the loops of block-migration.c. Up to the flush of stage 3, each is proved
    to perform only steps of the machine in BlockMigration, and to end; from there on, to send exactly
    the dirty chunks. */
module BlockSave {
  import opened Allocation
  import opened BlockMigration
  import opened Sectors

  const MAX_IS_ALLOCATED_SEARCH: nat := 65536

  // ----- Skipping unallocated sectors -----

  lemma {:induction false} SkipOn(d: Dev, s: nat, t: nat)
    requires |d.alloc| == |d.disk| && s <= t <= |d.disk| && forall x :: s <= x < t ==> !d.alloc[x]
    ensures FirstAllocated(d, s) == FirstAllocated(d, t)
    decreases t - s
  {
    if s < t {
      SkipOn(d, s + 1, t);
    }
  }

  /** The loop that skips unallocated sectors, however many of them the driver reports at a time. */
  method SkipUnallocated(d: Dev, look: nat) returns (cur: nat)
    requires DevShape(d)
    ensures cur == BulkFrom(d)
  {
    cur := d.cur;
    if d.shared {
      while cur < |d.disk|
        invariant d.cur <= cur <= |d.disk| && FirstAllocated(d, d.cur) == FirstAllocated(d, cur)
        decreases |d.disk| - cur
      {
        var isHere := (x: nat) => x < |d.alloc| && d.alloc[x];
        var present, nr := IsAllocated(isHere, |d.disk|, cur, MAX_IS_ALLOCATED_SEARCH, look);
        forall x: nat | cur <= x < cur + nr
          ensures d.alloc[x] == present
        {
          assert isHere(x) == present;
        }
        if present {
          break;
        }
        SkipOn(d, cur, cur + nr);
        cur := cur + nr;
      }
    }
  }

  /** Over a shared base the bulk phase goes on at the first allocated sector from the cursor on; otherwise at the
      cursor. */
  lemma {:induction false} BulkSkips(d: Dev)
    requires DevShape(d)
    ensures var from := BulkFrom(d);
            && d.cur <= from <= |d.disk| && (!d.shared ==> from == d.cur)
            && (d.shared ==> (forall x :: d.cur <= x < from ==> !d.alloc[x]) && (from < |d.disk| ==> d.alloc[from]))
  {
  }

  /** A bulk step submits the read of the chunk it has come to, which is clean since, and moves to the end of it; past
      the last allocated sector it submits nothing, and the bulk phase of the device is over. */
  lemma {:induction false} BulkSubmits(st: State, i: nat)
    requires Shaped(st) && i < |st.devs| && !st.devs[i].bulkCompleted
    ensures var d, next := st.devs[i], SaveBulk(st, i);
            && |next.devs| == |st.devs|
            && if BulkFrom(d) >= |d.disk| then
                 next.pending == st.pending && next.devs[i] == d.(cur := |d.disk|, bulkCompleted := true)
               else
                 var c := BulkFrom(d) / CHUNK;
                 && |next.pending| == |st.pending| + 1 && Submitted(st, next, i, c)
                 && next.devs[i].cur == (if (c + 1) * CHUNK < |d.disk| then (c + 1) * CHUNK else |d.disk|)
                 && next.devs[i].bulkCompleted == ((c + 1) * CHUNK >= |d.disk|)
  {
    assert DevShape(st.devs[i]);
  }

  // ----- Sending dirty chunks synchronously -----

  function Whole(d: Dev, c: nat): map<nat, int> { map s | 0 <= s < |d.disk| && s / CHUNK == c :: d.disk[s] }

  /** The chunk is read from the disk, sent and clean. */
  function SendNow(st: State, i: nat, c: nat): State
    requires i < |st.devs|
  {
    var d := st.devs[i];
    SetDev(st, i, d.(dest := Load(d.dest, Whole(d, c)), dirty := d.dirty - {c}))
  }

  /** Some of the dirty chunks have been sent, and nothing else has happened. */
  ghost predicate SentSome(a: Dev, b: Dev) {
    && b == a.(dest := b.dest, dirty := b.dirty) && b.dirty <= a.dirty && |b.dest| == |a.dest| == |a.disk|
    && forall s :: 0 <= s < |a.disk| ==>
         b.dest[s] == if s / CHUNK in a.dirty && s / CHUNK !in b.dirty then a.disk[s] else a.dest[s]
  }

  ghost predicate Sending(flushed: State, st: State) {
    && BulkDone(flushed) && flushed.pending == [] && st == flushed.(devs := st.devs) && |st.devs| == |flushed.devs|
    && forall i :: 0 <= i < |st.devs| ==> SentSome(flushed.devs[i], st.devs[i])
  }

  /** What stage 3 makes of the state its flush left: the dirty chunks are sent, the blocks left on blk_list
      are freed. */
  function Closed(flushed: State): State
    requires forall i :: 0 <= i < |flushed.devs| ==> |flushed.devs[i].disk| == |flushed.devs[i].dest|
  {
    flushed.(blks := [],
             devs := seq(|flushed.devs|, i requires 0 <= i < |flushed.devs| =>
               flushed.devs[i].(dest := Finished(flushed.devs[i]), dirty := {})))
  }

  lemma {:induction false} SendingStarts(st: State)
    requires Shaped(st) && BulkDone(st) && st.pending == []
    ensures Sending(st, st)
  {
    forall i | 0 <= i < |st.devs|
      ensures SentSome(st.devs[i], st.devs[i])
    {
      assert DevShape(st.devs[i]);
    }
  }

  /** Sending a dirty chunk leaves one dirty chunk less. */
  lemma {:induction false} SendOne(flushed: State, st: State, i: nat, c: nat)
    requires Sending(flushed, st) && i < |st.devs| && c in st.devs[i].dirty
    ensures Sending(flushed, SendNow(st, i, c)) && Sum(DirtyChunks, SendNow(st, i, c).devs) == Sum(DirtyChunks, st.devs) - 1
    ensures |SendNow(st, i, c).devs| == |st.devs| && (BulkDone(st) ==> BulkDone(SendNow(st, i, c)))
    ensures forall j :: 0 <= j < |st.devs| ==>
              SendNow(st, i, c).devs[j].dirty <= st.devs[j].dirty && SendNow(st, i, c).devs[j].disk == st.devs[j].disk
  {
    var next := SendNow(st, i, c);
    assert SentSome(flushed.devs[i], st.devs[i]);
    assert SentSome(flushed.devs[i], next.devs[i]);
    OneLess(st, i, c);
  }

  lemma {:induction false} OneLess(st: State, i: nat, c: nat)
    requires i < |st.devs| && c in st.devs[i].dirty
    ensures Sum(DirtyChunks, SendNow(st, i, c).devs) == Sum(DirtyChunks, st.devs) - 1
  {
    var next := SendNow(st, i, c);
    SumUpdate(DirtyChunks, st.devs, i, next.devs[i]);
    assert st.devs[i].dirty == next.devs[i].dirty + {c};
  }

  lemma {:induction false} AllSent(flushed: State, st: State)
    requires Sending(flushed, st) && forall i :: 0 <= i < |st.devs| ==> st.devs[i].dirty == {}
    ensures forall i :: 0 <= i < |flushed.devs| ==> |flushed.devs[i].disk| == |flushed.devs[i].dest|
    ensures st.(blks := []) == Closed(flushed)
  {
    forall i | 0 <= i < |flushed.devs|
      ensures |flushed.devs[i].disk| == |flushed.devs[i].dest|
      ensures st.devs[i] == flushed.devs[i].(dest := Finished(flushed.devs[i]), dirty := {})
    {
      assert SentSome(flushed.devs[i], st.devs[i]);
      assert st.devs[i].dest == Finished(flushed.devs[i]);
    }
    assert st.devs == Closed(flushed).devs;
  }

  /** No chunk is in flight without a read pending. */
  lemma {:induction false} Landed(flushed: State, st: State, i: nat)
    requires Sound(flushed) && Sending(flushed, st) && i < |st.devs|
    ensures st.devs[i].inflight == {} && DevShape(st.devs[i])
  {
    assert SentSome(flushed.devs[i], st.devs[i]) && DevShape(flushed.devs[i]);
    forall c: nat
      ensures c !in flushed.devs[i].inflight
    {
      assert InFlight(flushed, i, c);
    }
  }

  /** How many of the n synchronous reads from the k-th on succeed. */
  function Successes(readOk: nat -> bool, k: nat, n: nat): nat
    decreases n
  {
    if n == 0 then 0 else (if readOk(k) then 1 else 0) + Successes(readOk, k + 1, n - 1)
  }

  // ----- The loop of stage 3 -----

  ghost predicate SomeDirty(st: State) { exists i :: 0 <= i < |st.devs| && st.devs[i].dirty != {} }

  /** The first dirty chunk of the first device that has any. */
  ghost predicate FirstDirty(st: State, i: nat, c: nat) {
    && i < |st.devs| && c in st.devs[i].dirty && (forall b :: b in st.devs[i].dirty ==> c <= b)
    && forall j :: 0 <= j < i ==> st.devs[j].dirty == {}
  }

  lemma {:induction false} Least(s: set<nat>) returns (c: nat)
    requires s != {}
    ensures c in s && forall b :: b in s ==> c <= b
    decreases |s|
  {
    var some :| some in s;
    var rest := s - {some};
    c := some;
    if rest != {} {
      var r := Least(rest);
      c := if r < some then r else some;
    }
    assert forall b :: b in s ==> b == some || b in rest;
  }

  lemma {:induction false} SomeFirst(st: State)
    requires SomeDirty(st)
    ensures exists i, c :: FirstDirty(st, i, c)
  {
    var i: nat := 0;
    while st.devs[i].dirty == {}
      invariant i < |st.devs| && forall j :: 0 <= j < i ==> st.devs[j].dirty == {}
      decreases |st.devs| - i
    {
      i := i + 1;
    }
    var c := Least(st.devs[i].dirty);
    assert FirstDirty(st, i, c);
  }

  lemma {:induction false} OnlyFirst(st: State, i: nat, c: nat, i': nat, c': nat)
    requires FirstDirty(st, i, c) && FirstDirty(st, i', c')
    ensures i == i' && c == c'
  {
  }

  /** One turn: the first dirty chunk is read, and sent if that succeeds. */
  ghost function Sync(st: State, ok: bool): State
    requires SomeDirty(st)
  {
    SomeFirst(st);
    var i, c :| FirstDirty(st, i, c);
    if ok then SendNow(st, i, c) else st
  }

  /** The state, and the number of the next synchronous read, after at most k turns. */
  ghost function SyncAfter(st: State, readOk: nat -> bool, n: nat, k: nat): (State, nat)
    decreases k
  {
    if k == 0 || !SomeDirty(st) then (st, n) else SyncAfter(Sync(st, readOk(n)), readOk, n + 1, k - 1)
  }

  lemma {:induction false} SomeOrNone(st: State)
    ensures SomeDirty(st) <==> Sum(DirtyChunks, st.devs) > 0
  {
    if SomeDirty(st) {
      var i :| 0 <= i < |st.devs| && st.devs[i].dirty != {};
      DirtySomewhere(st.devs, i);
    } else {
      DirtyNowhere(st.devs);
    }
  }

  lemma {:induction false} SyncLeaves(st: State, ok: bool)
    requires SomeDirty(st)
    ensures Sum(DirtyChunks, Sync(st, ok).devs) == Sum(DirtyChunks, st.devs) - if ok then 1 else 0
  {
    hide Sum, SendNow;
    SomeFirst(st);
    var i, c :| FirstDirty(st, i, c) && Sync(st, ok) == if ok then SendNow(st, i, c) else st;
    OneLess(st, i, c);
  }

  /** The loop is over after at most k turns if and only if as many of the k reads succeed as chunks are dirty. */
  lemma {:induction false} SyncOverWithin(st: State, readOk: nat -> bool, n: nat, k: nat)
    ensures !SomeDirty(SyncAfter(st, readOk, n, k).0) <==> Successes(readOk, n, k) >= Sum(DirtyChunks, st.devs)
    decreases k
  {
    hide Sum, Sync, SomeDirty;
    SomeOrNone(st);
    if k > 0 && SomeDirty(st) {
      SyncLeaves(st, readOk(n));
      SyncOverWithin(Sync(st, readOk(n)), readOk, n + 1, k - 1);
    }
  }

  /** It ends if and only if enough of all the reads to come succeed. */
  lemma {:induction false} SyncEndsIff(st: State, readOk: nat -> bool, n: nat)
    ensures (exists k: nat :: !SomeDirty(SyncAfter(st, readOk, n, k).0))
       <==> (exists k: nat :: Successes(readOk, n, k) >= Sum(DirtyChunks, st.devs))
  {
    hide SomeDirty, SyncAfter, Successes, Sum;
    if k: nat :| !SomeDirty(SyncAfter(st, readOk, n, k).0) {
      SyncOverWithin(st, readOk, n, k);
    }
    if k: nat :| Successes(readOk, n, k) >= Sum(DirtyChunks, st.devs) {
      SyncOverWithin(st, readOk, n, k);
    }
  }

  predicate NeverOk(n: nat) { false }

  /** One disk of one sector, dirty, that cannot be read: the loop of stage 3 never ends. */
  lemma {:induction false} SyncNeverEnds(n: nat, k: nat)
    ensures var d := Dev(false, [1], [true], [0], {0}, {}, {}, 1, true);
            var st := State([d], [], [], 0, 0);
            SomeDirty(st) && SyncAfter(st, NeverOk, n, k) == (st, n + k)
    decreases k
  {
    var d := Dev(false, [1], [true], [0], {0}, {}, {}, 1, true);
    var st := State([d], [], [], 0, 0);
    assert st.devs[0].dirty != {};
    if k > 0 {
      SyncNeverEnds(n + 1, k - 1);
    }
  }

  class BlkMigState {
    var st: State
    var curDirty: seq<nat>
    var error: bool
    var bulkCompleted: bool
    /** Which pending read is the n-th to complete while the sender waits, and whether it succeeds. */
    const order: nat -> nat
    const outcome: nat -> bool
    var completions: nat
    /** Whether the n-th synchronous read succeeds. */
    const readOk: nat -> bool
    var syncs: nat
    ghost const start: State
    ghost var trace: seq<Step>
    /** In stage 3, the state its flush left. */
    ghost var closing: bool
    ghost var flushed: State

    /** Everything so far has been a run of the machine, followed in stage 3 by synchronous sends. */
    ghost predicate Valid()
      reads this
    {
      && Init(start) && |curDirty| == |st.devs| && (bulkCompleted ==> BulkDone(st))
      && (closing ==> Runs(start, trace, flushed) && Sound(flushed) && Sending(flushed, st))
      && (!closing ==> Runs(start, trace, st) && Sound(st))
    }

    /** init_blk_migration, with dirty tracking switched on. */
    constructor (init: State, order: nat -> nat, outcome: nat -> bool, readOk: nat -> bool)
      requires Init(init)
      ensures Valid() && st == init && trace == [] && !error && !bulkCompleted && !closing
      ensures this.order == order && this.outcome == outcome && this.readOk == readOk
    {
      InitInv(init);
      RunNone(init);
      st, start, trace, error, bulkCompleted := init, init, [], false, false;
      curDirty := seq(|init.devs|, _ => 0);
      closing, flushed, completions, syncs := false, init, 0, 0;
      this.order, this.outcome, this.readOk := order, outcome, readOk;
    }

    /** One step of the machine; steps of the guest and of reads under way are taken here too. */
    method Take(step: Step)
      requires Valid() && !closing && Enabled(st, step)
      modifies this`st, this`trace
      ensures Valid() && st == Apply(old(st), step) && trace == old(trace) + [step]
    {
      hide Apply, Enabled, Runs, Shaped, InFlight, BaseShared, Full, Single;
      RunOn(start, trace, st, step);
      SameDevCount(st, step);
      StepSound(st, step);
      if BulkDone(st) {
        BulkStays(st, step);
      }
      trace := trace + [step];
      st := Apply(st, step);
    }

    /** mig_save_device_bulk; returns whether the device's bulk phase is over. */
    method MigSaveDeviceBulk(i: nat, look: nat) returns (done: bool)
      requires Valid() && !closing && i < |st.devs| && !st.devs[i].bulkCompleted
      modifies this`st, this`trace
      ensures Valid() && st == SaveBulk(old(st), i) && done == st.devs[i].bulkCompleted
    {
      assert DevShape(st.devs[i]);
      var d := st.devs[i];
      var cur := SkipUnallocated(d, look);
      done := cur >= |d.disk| || cur / CHUNK * CHUNK + CHUNK >= |d.disk|;
      Take(Bulk(i));
    }

    /** blk_mig_save_bulked_block: the first device whose bulk phase is not over; false when there is none. */
    method SaveBulkedBlock(look: nat) returns (ret: bool)
      requires Valid() && !closing
      modifies this`st, this`trace
      ensures Valid()
      ensures !ret ==> BulkDone(st) && st == old(st)
      ensures ret ==> exists i :: 0 <= i < |old(st).devs| && FirstUnfinished(old(st), i) && st == SaveBulk(old(st), i)
    {
      var i := 0;
      while i < |st.devs|
        invariant i <= |st.devs| && st == old(st) && trace == old(trace)
        invariant forall j :: 0 <= j < i ==> st.devs[j].bulkCompleted
      {
        if !st.devs[i].bulkCompleted {
          assert DevShape(st.devs[i]) && FirstUnfinished(st, i);
          var done := MigSaveDeviceBulk(i, look);
          return true;
        }
        i := i + 1;
      }
      return false;
    }

    /** The k-th pending read completes; if it is to succeed, it first reads what it has not read yet. */
    method FinishRead(k: nat, ok: bool)
      requires Valid() && !closing && k < |st.pending|
      modifies this`st, this`trace
      ensures Valid() && st.pending == Remove(old(st.pending), k) && SameDevs(old(st.devs), st.devs)
      ensures |st.blks| == |old(st.blks)| + 1
    {
      hide Apply, Runs, InFlight, BaseShared, Single;
      assert BlkShape(st, st.pending[k]);
      var i, c := st.pending[k].dev, st.pending[k].chunk;
      assert DevShape(st.devs[i]);
      var s := c * CHUNK;
      var end := if ok then ChunkEnd(st.devs[i], c) else s;
      while s < end
        invariant c * CHUNK <= s <= end && Valid()
        invariant st.devs == old(st.devs) && st.blks == old(st.blks) && OnlyAt(old(st.pending), st.pending, k, i, c)
        invariant forall x :: c * CHUNK <= x < s ==> x in st.pending[k].data
      {
        if s !in st.pending[k].data {
          SampleAt(st, k, s);
          Take(Sample(k, s));
        }
        s := s + 1;
      }
      assert Remove(st.pending, k) == Remove(old(st.pending), k);
      CompleteAt(st, k, ok);
      Take(Complete(k, ok));
    }

    /** bdrv_drain_all. */
    method DrainAll()
      requires Valid() && !closing
      modifies this`st, this`trace, this`completions
      ensures Valid() && st.pending == [] && SameDevs(old(st.devs), st.devs)
      ensures |st.blks| == |old(st.blks)| + |old(st.pending)| && completions == old(completions) + |old(st.pending)|
    {
      hide Sound, Runs;
      while st.pending != []
        invariant Valid() && SameDevs(old(st.devs), st.devs)
        invariant |st.blks| + |st.pending| == |old(st.blks)| + |old(st.pending)|
        invariant completions + |st.pending| == old(completions) + |old(st.pending)|
        decreases |st.pending|
      {
        FinishRead(order(completions) % |st.pending|, outcome(completions));
        completions := completions + 1;
      }
    }

    /** A dirty chunk that is not in flight: its read is submitted, or it is read and sent at once. Only in
        the second case can it fail here. */
    method SendChunk(i: nat, c: nat, isAsync: bool)
      requires Valid() && BulkDone(st) && i < |st.devs| && c in st.devs[i].dirty && c !in st.devs[i].inflight && isAsync == !closing
      modifies this`st, this`trace, this`error, this`syncs
      ensures Valid() && BulkDone(st) && |st.devs| == |old(st.devs)| && |st.devs[i].disk| == |old(st.devs[i]).disk|
      ensures isAsync ==> |st.pending| + |st.blks| == |old(st.pending)| + |old(st.blks)| + 1 && error == old(error)
      ensures isAsync ==> Submitted(old(st), st, i, c)
      ensures !isAsync ==> st == (if readOk(old(syncs)) then SendNow(old(st), i, c) else old(st)) && trace == old(trace)
      ensures !isAsync ==> syncs == old(syncs) + 1 && error == (old(error) || !readOk(old(syncs)))
    {
      hide Apply, Runs, Sound, Sending, SendNow;
      if isAsync {
        DirtyAt(st, i, c);
        Take(Dirty(i, c));
      } else {
        syncs := syncs + 1;
        if readOk(syncs - 1) {
          SendOne(flushed, st, i, c);
          st := SendNow(st, i, c);
        } else {
          error := true;
        }
      }
    }

    /** The chunk at the cursor, with what is under way for it waited for. */
    method ChunkIsDirty(i: nat, chunk: nat) returns (dirty: bool)
      requires Valid() && i < |st.devs|
      modifies this`st, this`trace, this`completions
      ensures Valid() && SameDevs(old(st.devs), st.devs) && |st.pending| + |st.blks| == |old(st.pending)| + |old(st.blks)|
      ensures closing ==> st == old(st) && trace == old(trace)
      ensures dirty == (chunk in old(st.devs[i]).dirty) == (chunk in st.devs[i].dirty) && chunk !in st.devs[i].inflight
    {
      if closing {
        Landed(flushed, st, i);
      }
      if chunk in st.devs[i].inflight {
        DrainAll();
        assert InFlight(st, i, chunk);
      }
      assert old(st.devs[i]).(inflight := {}) == st.devs[i].(inflight := {});
      dirty := chunk in st.devs[i].dirty;
    }

    /** mig_save_device_dirty. Scans on from the cursor; a dirty chunk is read and sent, or its read is
        submitted, and it is clean again; if the read fails, it stays dirty and the cursor stays on it.
        Returns whether the cursor has reached the end; otherwise c is the chunk. */
    method MigSaveDeviceDirty(i: nat, isAsync: bool) returns (done: bool, c: nat)
      requires Valid() && BulkDone(st) && i < |st.devs| && curDirty[i] % CHUNK == 0 && isAsync == !closing
      modifies this`st, this`trace, this`curDirty, this`completions, this`error, this`syncs
      ensures Valid() && BulkDone(st) && |st.devs| == |old(st.devs)| && curDirty == old(curDirty)[i := curDirty[i]]
      ensures curDirty[i] % CHUNK == 0 && old(curDirty[i]) <= curDirty[i] && done == (curDirty[i] >= |st.devs[i].disk|)
      ensures CleanBetween(old(st.devs[i]).dirty, old(curDirty[i]), curDirty[i])
      ensures done ==> SameDevs(old(st.devs), st.devs) && |st.pending| + |st.blks| == |old(st.pending)| + |old(st.blks)|
      ensures !done ==> curDirty[i] == c * CHUNK && c in old(st.devs[i]).dirty
      ensures isAsync ==> error == old(error)
      ensures !done && isAsync ==> |st.pending| + |st.blks| == |old(st.pending)| + |old(st.blks)| + 1
      ensures !done && isAsync ==> |st.devs| == |old(st.devs)| && Submitted(old(st), st, i, c)
      ensures !isAsync && done ==> st == old(st) && syncs == old(syncs) && error == old(error)
      ensures !isAsync && !done ==> syncs == old(syncs) + 1 && error == (old(error) || !readOk(old(syncs)))
      ensures !isAsync && !done ==> st == if readOk(old(syncs)) then SendNow(old(st), i, c) else old(st)
      ensures !isAsync ==> trace == old(trace)
    {
      hide Apply, Sound, Enabled, Runs, Sending, SendNow;
      var sector := curDirty[i];
      var total := |st.devs[i].disk|;
      done, c := true, 0;
      while sector < total
        invariant Valid() && curDirty == old(curDirty)[i := sector] && sector % CHUNK == 0 && old(curDirty[i]) <= sector
        invariant SameDevs(old(st.devs), st.devs) && |st.pending| + |st.blks| == |old(st.pending)| + |old(st.blks)|
        invariant !isAsync ==> st == old(st) && trace == old(trace)
        invariant error == old(error) && syncs == old(syncs)
        invariant CleanBetween(old(st.devs[i]).dirty, old(curDirty[i]), sector)
        decreases total - sector
      {
        var dirty := ChunkIsDirty(i, sector / CHUNK);
        if dirty {
          done, c := false, sector / CHUNK;
          SameBulk(old(st.devs), st.devs);
          SendChunk(i, c, isAsync);
          break;
        }
        sector := sector + CHUNK;
        curDirty := curDirty[i := sector];
      }
      SameBulk(old(st.devs), st.devs);
    }

    /** flush_blks. The n-th question to the rate limiter is answered by limit(n). */
    method FlushBlks(limit: nat -> bool)
      requires Valid() && !closing
      modifies this`st, this`trace, this`error
      ensures Valid() && st.pending == old(st.pending) && SameButDest(old(st.devs), st.devs)
      ensures |st.blks| <= |old(st.blks)| && st.blks == old(st.blks)[|old(st.blks)| - |st.blks|..]
      ensures st.blks == [] ==> error == old(error)
      ensures error && !old(error) ==> st.blks != [] && !st.blks[0].ok
      ensures st.blks != [] ==> limit(|old(st.blks)| - |st.blks|) || (error && !st.blks[0].ok)
      ensures forall k :: 0 <= k < |old(st.blks)| - |st.blks| ==> !limit(k) && old(st.blks)[k].ok
    {
      hide Apply, Runs, Sound, SameButDest;
      var n := 0;
      SameAs(st.devs);
      while st.blks != []
        invariant Valid() && st.pending == old(st.pending) && SameButDest(old(st.devs), st.devs) && error == old(error)
        invariant n + |st.blks| == |old(st.blks)| && st.blks == old(st.blks)[n..]
        invariant forall k :: 0 <= k < n ==> !limit(k) && old(st.blks)[k].ok
        decreases |st.blks|
      {
        if limit(n) {
          break;
        }
        if !st.blks[0].ok {
          error := true;
          break;
        }
        FlushAt(st);
        SameStill(old(st.devs), st.devs, Apply(st, Flush).devs);
        Take(Flush);
        n := n + 1;
      }
    }

    /** blk_mig_save_dirty_block, synchronous: one dirty chunk of the first device that has one at or
        after its cursor; false exactly when no device has any dirty chunk. */
    method SaveDirtyBlock() returns (ret: bool)
      requires Valid() && closing && BulkDone(st) && Scanned(st.devs, curDirty)
      modifies this`st, this`trace, this`curDirty, this`completions, this`error, this`syncs
      ensures Valid() && BulkDone(st) && Scanned(st.devs, curDirty) && trace == old(trace)
      ensures ret == SomeDirty(old(st))
      ensures ret ==> st == Sync(old(st), readOk(old(syncs)))
      ensures ret ==> syncs == old(syncs) + 1 && error == (old(error) || !readOk(old(syncs)))
      ensures !ret ==> st == old(st) && syncs == old(syncs) && error == old(error)
    {
      hide Sound, Runs, Sum, Sync;
      var i := 0;
      while i < |st.devs|
        invariant i <= |st.devs| && Valid() && st == old(st) && Scanned(st.devs, curDirty)
        invariant trace == old(trace) && syncs == old(syncs) && error == old(error)
        invariant forall j :: 0 <= j < i ==> st.devs[j].dirty == {}
      {
        ghost var cursors := curDirty;
        Landed(flushed, st, i);
        var done, c := MigSaveDeviceDirty(i, false);
        if !done {
          SendOne(flushed, old(st), i, c);
        }
        ScannedOn(old(st).devs, st.devs, cursors, curDirty, i);
        if !done {
          SyncPicks(old(st), old(curDirty), i, c, readOk(old(syncs)));
          return true;
        }
        ScannedAll(st.devs[i], curDirty[i]);
        i := i + 1;
      }
      return false;
    }

    /** blk_mig_save_dirty_block, asynchronous: the read of the first dirty chunk at or after its device's cursor is
        submitted; false exactly when there is none. */
    method SubmitDirtyBlock() returns (ret: bool)
      requires Valid() && !closing && BulkDone(st) && Aligned(curDirty)
      modifies this`st, this`trace, this`curDirty, this`completions, this`error, this`syncs
      ensures Valid() && BulkDone(st) && Aligned(curDirty) && error == old(error)
      ensures |st.pending| + |st.blks| == |old(st.pending)| + |old(st.blks)| + if ret then 1 else 0
      ensures |st.devs| == |curDirty| == |old(st.devs)| == |old(curDirty)| && Onward(old(st.devs), old(curDirty), st.devs, curDirty)
      ensures ret <==> exists i :: 0 <= i < |old(st.devs)| && !CleanFrom(old(st.devs[i]).dirty, old(curDirty[i]))
      ensures !ret ==> forall i :: 0 <= i < |st.devs| ==> CleanFrom(st.devs[i].dirty, old(curDirty[i]))
    {
      hide Apply, Enabled, Sound, Runs;
      var i := 0;
      OnwardSame(st.devs, curDirty);
      while i < |st.devs|
        invariant i <= |st.devs| == |old(st.devs)| == |curDirty| == |old(curDirty)|
        invariant Valid() && BulkDone(st) && Aligned(curDirty) && error == old(error)
        invariant |st.pending| + |st.blks| == |old(st.pending)| + |old(st.blks)|
        invariant SameDevs(old(st.devs), st.devs) && Onward(old(st.devs), old(curDirty), st.devs, curDirty)
        invariant forall j :: i <= j < |curDirty| ==> curDirty[j] == old(curDirty[j])
        invariant forall j :: 0 <= j < i ==> CleanFrom(old(st.devs[j]).dirty, old(curDirty[j]))
        decreases |st.devs| - i
      {
        ghost var st0, cur0 := st, curDirty;
        SameDirty(old(st.devs), st.devs);
        var done, c := MigSaveDeviceDirty(i, true);
        if !done {
          OnwardSubmit(st0, cur0, st, curDirty, i, c);
          OnwardTrans(old(st.devs), old(curDirty), st0.devs, cur0, st.devs, curDirty);
          assert !CleanFrom(old(st.devs[i]).dirty, old(curDirty[i]));
          return true;
        }
        OnwardScan(st0.devs, cur0, st.devs, curDirty, i);
        OnwardTrans(old(st.devs), old(curDirty), st0.devs, cur0, st.devs, curDirty);
        SameTwice(old(st.devs), st0.devs, st.devs);
        assert DevShape(st.devs[i]) by {
          SoundShaped(st);
        }
        SameDirty(old(st.devs), st.devs);
        ScannedToEnd(st.devs[i], old(curDirty[i]), curDirty[i]);
        i := i + 1;
      }
      SameDirty(old(st.devs), st.devs);
      return false;
    }

    /** blk_mig_reset_dirty_cursor. */
    method ResetDirtyCursor()
      requires Valid()
      modifies this`curDirty
      ensures Valid() && Scanned(st.devs, curDirty) && forall i :: 0 <= i < |curDirty| ==> curDirty[i] == 0
    {
      curDirty := seq(|curDirty|, _ => 0);
    }

    /** One turn of the loop of stage 2: first the bulk phase, then dirty chunks. */
    method TransferOne(look: nat) returns (more: bool)
      requires Valid() && !closing && Aligned(curDirty)
      modifies this`st, this`trace, this`curDirty, this`bulkCompleted, this`completions, this`error, this`syncs
      ensures Valid() && Aligned(curDirty) && error == old(error) && st.submitted + st.readDone >= 0
      ensures more ==> Ahead(old(st), old(bulkCompleted), st, bulkCompleted)
      ensures !more ==> Phases(st, bulkCompleted) == Phases(old(st), old(bulkCompleted))
      ensures !more ==> st.submitted + st.readDone == old(st).submitted + old(st).readDone
      ensures |st.devs| == |curDirty| == |old(st.devs)| == |old(curDirty)| && Onward(old(st.devs), old(curDirty), st.devs, curDirty)
      ensures !more ==> bulkCompleted && BulkDone(st) && NothingFrom(st.devs, old(curDirty))
      ensures st.submitted + st.readDone <= old(st).submitted + old(st).readDone + 1
    {
      hide Runs, InFlight, BaseShared, Full, Single, SaveBulk;
      if !bulkCompleted {
        var ret := SaveBulkedBlock(look);
        if ret {
          ghost var i :| 0 <= i < |old(st).devs| && FirstUnfinished(old(st), i) && st == SaveBulk(old(st), i);
          BulkAhead(old(st), i);
          BulkOnward(old(st), i, curDirty);
        } else {
          bulkCompleted := true;
          OnwardSame(st.devs, curDirty);
        }
        more := true;
      } else {
        more := SubmitDirtyBlock();
        NoneUnfinished(old(st).devs);
        NoneUnfinished(st.devs);
      }
    }

    /** The loop of stage 2: it ends, because every turn ends a part of the bulk phase or puts one more block on its
        way; and it ends only when as many blocks are on their way as the rate limit allows, and no more, or the
        bulk phase is over and no chunk from its device's cursor on is dirty. */
    method Transfer(rateLimit: nat, look: nat)
      requires Valid() && !closing && Aligned(curDirty)
      modifies this`st, this`trace, this`curDirty, this`bulkCompleted, this`completions, this`error, this`syncs
      ensures Valid() && error == old(error) && |st.devs| == |old(curDirty)|
      ensures || (st.submitted + st.readDone) * BLOCK_SIZE >= rateLimit
              || (bulkCompleted && BulkDone(st) && NothingFrom(st.devs, old(curDirty)))
      ensures || st.submitted + st.readDone <= old(st).submitted + old(st).readDone
              || (st.submitted + st.readDone - 1) * BLOCK_SIZE < rateLimit
    {
      assert st.submitted + st.readDone >= 0;
      OnwardSame(st.devs, curDirty);
      hide Valid, Phases, Aligned, Onward, NothingFrom, BulkDone;
      var more := true;
      while more && (st.submitted + st.readDone) * BLOCK_SIZE < rateLimit
        invariant Valid() && Aligned(curDirty) && st.submitted + st.readDone >= 0 && error == old(error)
        invariant |st.devs| == |curDirty| == |old(st.devs)| == |old(curDirty)| && Onward(old(st.devs), old(curDirty), st.devs, curDirty)
        invariant !more ==> bulkCompleted && BulkDone(st) && NothingFrom(st.devs, old(curDirty))
        invariant || st.submitted + st.readDone <= old(st).submitted + old(st).readDone
                  || (st.submitted + st.readDone - 1) * BLOCK_SIZE < rateLimit
        decreases Phases(st, bulkCompleted), rateLimit - (st.submitted + st.readDone), more
      {
        ghost var devs, cursors := st.devs, curDirty;
        more := TransferOne(look);
        if !more {
          NothingLeft(old(st.devs), old(curDirty), devs, cursors, st.devs, curDirty);
        }
        OnwardTrans(old(st.devs), old(curDirty), devs, cursors, st.devs, curDirty);
      }
    }

    /** Stage 2 of block_save_live: a flush, the loop from the first sectors on, and another flush. `before` is the
        state between the first flush and the loop, `after` that between the loop and the second flush. If a flush
        finds a failed read, the blocks left on blk_list are freed. */
    method StageTwo(rateLimit: nat, look: nat, limit: nat -> bool, limitAfter: nat -> bool)
      returns (ghost before: State, ghost after: State)
      requires Valid() && !closing && !error
      modifies this
      ensures !error ==> Valid() && !closing
      ensures error ==> Runs(start, trace, flushed) && Sound(flushed) && st == flushed.(blks := [])
      ensures error ==> flushed.blks != [] && !flushed.blks[0].ok
      ensures Flushed(old(st), before, limit)
      ensures (error && flushed == before) || Flushed(after, if error then flushed else st, limitAfter)
      ensures !error ==> || (after.submitted + after.readDone) * BLOCK_SIZE >= rateLimit
                         || (bulkCompleted && BulkDone(st) && !SomeDirty(st))
    {
      hide Runs, Sound, SameButDest, BulkDone;
      FlushBlks(limit);
      before, after := st, st;
      if !error {
        ResetDirtyCursor();
        ghost var cursors := curDirty;
        Transfer(rateLimit, look);
        after := st;
        FlushBlks(limitAfter);
        FlushedDirty(after.devs, st.devs, cursors);
      }
      if error {
        flushed := st;
        st := st.(blks := []);
      }
    }

    /** The loop of stage 3 sends every dirty chunk, first ones first. It ends once as many synchronous reads have
        succeeded as there were dirty chunks, and only then. */
    method SendDirty(ghost enough: nat)
      requires Valid() && closing && BulkDone(st) && Scanned(st.devs, curDirty)
      requires Successes(readOk, syncs, enough) >= Sum(DirtyChunks, st.devs)
      modifies this`st, this`trace, this`curDirty, this`completions, this`error, this`syncs
      ensures Valid() && trace == old(trace) && old(syncs) <= syncs
      ensures (st, syncs) == SyncAfter(old(st), readOk, old(syncs), enough) && !SomeDirty(st)
      ensures error <==> old(error) || exists n :: old(syncs) <= n < syncs && !readOk(n)
    {
      hide Sound, Runs, Sum, Sending, Sync, Successes;
      ghost var left := enough;
      SyncOverWithin(st, readOk, syncs, left);
      var more := true;
      while more
        invariant Valid() && closing && BulkDone(st) && Scanned(st.devs, curDirty) && trace == old(trace) && old(syncs) <= syncs
        invariant SyncAfter(st, readOk, syncs, left) == SyncAfter(old(st), readOk, old(syncs), enough)
        invariant !SomeDirty(SyncAfter(st, readOk, syncs, left).0)
        invariant error <==> old(error) || exists n :: old(syncs) <= n < syncs && !readOk(n)
        invariant !more ==> !SomeDirty(st)
        decreases left, more
      {
        more := SaveDirtyBlock();
        if more {
          left := left - 1;
        }
      }
    }

    /** Stage 3 of block_save_live, with the guest stopped, its writes completed, the bulk phase over and no
        read pending. Unless the flush finds a failed read, exactly the dirty chunks are sent and the rest
        of blk_list is freed; so if reads have completed in order and every block left was of a dirty
        chunk, as when the rate limit cut nothing short, every destination disk equals its source. */
    method StageThree(limit: nat -> bool, ghost enough: nat) returns (failed: bool)
      requires Valid() && !closing && BulkDone(st) && st.submitted == 0 && !error
      requires forall i :: 0 <= i < |st.devs| ==> st.devs[i].marks == {}
      requires Successes(readOk, syncs, enough) >= Sum(DirtyChunks, st.devs)
      modifies this
      ensures Runs(start, trace, flushed) && Sound(flushed) && SameButDest(old(st.devs), flushed.devs)
      ensures |flushed.blks| <= |old(st.blks)| && flushed.blks == old(st.blks)[|old(st.blks)| - |flushed.blks|..]
      ensures flushed.blks != [] ==> failed || limit(|old(st.blks)| - |flushed.blks|)
      ensures forall k :: 0 <= k < |old(st.blks)| - |flushed.blks| ==> !limit(k) && old(st.blks)[k].ok
      ensures failed ==> error && flushed.blks != [] && !flushed.blks[0].ok && st == flushed.(blks := [])
      ensures !failed ==> st == Closed(flushed) && (error <==> exists n :: old(syncs) <= n < syncs && !readOk(n))
      ensures !failed && InOrderRun(start, trace) && AllLeftoversDirty(flushed) ==> SameDisks(st)
      ensures flushed.blks == [] ==> !failed && AllLeftoversDirty(flushed)
    {
      hide Runs, Sound, Sending, Sum, Closed, Successes, InOrderRun, SameButDest, SyncAfter, Sync;
      NonePending(st);
      FlushBlks(limit);
      flushed := st;
      DestOnly(old(st.devs), st.devs);
      SameSum(old(st.devs), st.devs);
      failed := error;
      if failed {
        st := st.(blks := []);
        return;
      }
      closing := true;
      SoundShaped(st);
      SendingStarts(st);
      ResetDirtyCursor();
      SendDirty(enough);
      AllSent(flushed, st);
      st := st.(blks := []);
      if InOrderRun(start, trace) && AllLeftoversDirty(flushed) {
        ClosedSame(start, trace, flushed);
      }
    }
  }

  /** The chunk a scan from clean cursors stops at is the first dirty one. */
  lemma {:induction false} SyncPicks(st: State, cursors: seq<nat>, i: nat, c: nat, ok: bool)
    requires Scanned(st.devs, cursors) && i < |st.devs| && c in st.devs[i].dirty && cursors[i] <= c * CHUNK
    requires CleanBetween(st.devs[i].dirty, cursors[i], c * CHUNK) && forall j :: 0 <= j < i ==> st.devs[j].dirty == {}
    ensures SomeDirty(st) && Sync(st, ok) == if ok then SendNow(st, i, c) else st
  {
    hide SendNow;
    assert FirstDirty(st, i, c);
    SomeFirst(st);
    var i', c' :| FirstDirty(st, i', c') && Sync(st, ok) == if ok then SendNow(st, i', c') else st;
    OnlyFirst(st, i, c, i', c');
  }

  ghost predicate AllLeftoversDirty(st: State) { forall i :: 0 <= i < |st.devs| ==> LeftoversDirty(st, i) }

  lemma {:induction false} ClosedSame(start: State, trace: seq<Step>, flushed: State)
    requires Init(start) && Runs(start, trace, flushed) && InOrderRun(start, trace) && AllLeftoversDirty(flushed)
    requires BulkDone(flushed) && flushed.pending == []
    requires forall i :: 0 <= i < |flushed.devs| ==> flushed.devs[i].marks == {}
    requires forall i :: 0 <= i < |flushed.devs| ==> |flushed.devs[i].disk| == |flushed.devs[i].dest|
    ensures SameDisks(Closed(flushed))
  {
    MigrationCorrect(start, trace, flushed);
    hide Inv, Finished, Runs, InOrderRun;
    forall i | 0 <= i < |flushed.devs|
      ensures Closed(flushed).devs[i].dest == Closed(flushed).devs[i].disk
    {
      LeftoversFinish(flushed, i);
    }
  }

  lemma {:induction false} SampleAt(st: State, k: nat, s: nat)
    requires Sound(st) && Enabled(st, Sample(k, s))
    ensures Shaped(st)
    ensures var next := Apply(st, Sample(k, s));
            && next.devs == st.devs && next.blks == st.blks && OnlyAt(st.pending, next.pending, k, st.pending[k].dev, st.pending[k].chunk)
            && next.pending[k].data.Keys == st.pending[k].data.Keys + {s}
  {
  }

  lemma {:induction false} CompleteAt(st: State, k: nat, ok: bool)
    requires Sound(st) && Enabled(st, Complete(k, ok))
    ensures Shaped(st)
    ensures var next := Apply(st, Complete(k, ok));
            next.pending == Remove(st.pending, k) && |next.blks| == |st.blks| + 1 && SameDevs(st.devs, next.devs)
  {
  }

  lemma {:induction false} FlushAt(st: State)
    requires Sound(st) && st.blks != [] && st.blks[0].ok
    ensures Shaped(st) && Enabled(st, Flush)
    ensures var next := Apply(st, Flush);
            next.pending == st.pending && next.blks == st.blks[1..] && SameButDest(st.devs, next.devs)
  {
    assert BlkShape(st, st.blks[0]);
  }

  lemma {:induction false} SameAs(a: seq<Dev>)
    ensures SameButDest(a, a)
  {
  }

  lemma {:induction false} SameStill(a: seq<Dev>, b: seq<Dev>, c: seq<Dev>)
    requires SameButDest(a, b) && SameButDest(b, c)
    ensures SameButDest(a, c)
  {
  }

  /** The read of this chunk is under way last, and the chunk, and no other, is clean since. */
  ghost predicate Submitted(before: State, after: State, i: nat, c: nat)
    requires i < |before.devs| == |after.devs|
  {
    && after.pending != [] && after.pending[|after.pending| - 1].dev == i && after.pending[|after.pending| - 1].chunk == c
    && forall j :: 0 <= j < |before.devs| ==>
         after.devs[j].disk == before.devs[j].disk && after.devs[j].dirty == before.devs[j].dirty - if j == i then {c} else {}
  }

  lemma {:induction false} DirtyAt(st: State, i: nat, c: nat)
    requires Sound(st) && Enabled(st, Dirty(i, c))
    ensures Shaped(st)
    ensures var next := Apply(st, Dirty(i, c));
            && BulkDone(next) && |next.devs| == |st.devs| && |next.devs[i].disk| == |st.devs[i].disk|
            && |next.pending| == |st.pending| + 1 && next.blks == st.blks && Submitted(st, next, i, c)
  {
  }

  /** Only the k-th pending read has changed, in what it has read. */
  ghost predicate OnlyAt(p: seq<Blk>, q: seq<Blk>, k: nat, i: nat, c: nat) {
    && k < |p| == |q| && Matches(q[k], i, c)
    && forall j :: 0 <= j < |p| && j != k ==> q[j] == p[j]
  }

  lemma {:induction false} NonePending(st: State)
    requires Sound(st)
    ensures st.submitted == |st.pending|
  {
  }

  lemma {:induction false} SameSum(a: seq<Dev>, b: seq<Dev>)
    requires SameButDest(a, b)
    ensures Sum(DirtyChunks, a) == Sum(DirtyChunks, b)
  {
    if a != [] {
      assert a[0].(dest := []) == b[0].(dest := []);
      assert SameButDest(a[1..], b[1..]);
      SameSum(a[1..], b[1..]);
    }
  }

  lemma {:induction false} DirtySomewhere(devs: seq<Dev>, i: nat)
    requires i < |devs| && devs[i].dirty != {}
    ensures Sum(DirtyChunks, devs) > 0
  {
    if i > 0 {
      DirtySomewhere(devs[1..], i - 1);
    }
  }

  lemma {:induction false} DirtyNowhere(devs: seq<Dev>)
    requires forall i :: 0 <= i < |devs| ==> devs[i].dirty == {}
    ensures Sum(DirtyChunks, devs) == 0
  {
    if devs != [] {
      DirtyNowhere(devs[1..]);
    }
  }

  ghost predicate Aligned(cursors: seq<nat>) { forall i :: 0 <= i < |cursors| ==> cursors[i] % CHUNK == 0 }

  /** No chunk from its device's cursor on is dirty. */
  ghost predicate NothingFrom(devs: seq<Dev>, cursors: seq<nat>)
    requires |devs| == |cursors|
  {
    forall i :: 0 <= i < |devs| ==> CleanFrom(devs[i].dirty, cursors[i])
  }

  lemma {:induction false} NothingLeft(a: seq<Dev>, x: seq<nat>, b: seq<Dev>, y: seq<nat>, c: seq<Dev>, z: seq<nat>)
    requires |a| == |x| == |b| == |y| == |c| == |z| && Onward(a, x, b, y) && Onward(b, y, c, z) && NothingFrom(c, y)
    ensures NothingFrom(c, x)
  {
    forall i | 0 <= i < |c|
      ensures CleanFrom(c[i].dirty, x[i])
    {
      assert CleanFrom(c[i].dirty, y[i]) && CleanBetween(b[i].dirty, x[i], y[i]);
    }
  }

  lemma {:induction false} BulkOnward(st: State, i: nat, cursors: seq<nat>)
    requires Shaped(st) && i < |st.devs| == |cursors| && FirstUnfinished(st, i)
    ensures |SaveBulk(st, i).devs| == |st.devs| && Onward(st.devs, cursors, SaveBulk(st, i).devs, cursors)
  {
  }

  /** A flush has sent the blocks of the queue up to the first rate limit or failed read. */
  ghost predicate Flushed(before: State, after: State, limit: nat -> bool) {
    && after.pending == before.pending && SameButDest(before.devs, after.devs)
    && |after.blks| <= |before.blks| && after.blks == before.blks[|before.blks| - |after.blks|..]
    && (after.blks != [] ==> limit(|before.blks| - |after.blks|) || !after.blks[0].ok)
    && forall k :: 0 <= k < |before.blks| - |after.blks| ==> !limit(k) && before.blks[k].ok
  }

  /** A flush leaves the dirty chunks as they are; from the first sector on, no chunk is none at all. */
  lemma {:induction false} FlushedDirty(a: seq<Dev>, b: seq<Dev>, cursors: seq<nat>)
    requires SameButDest(a, b) && |a| == |cursors| && forall i :: 0 <= i < |cursors| ==> cursors[i] == 0
    ensures |a| == |b| && (NothingFrom(a, cursors) ==> forall i :: 0 <= i < |b| ==> b[i].dirty == {})
    ensures (forall i :: 0 <= i < |a| ==> a[i].bulkCompleted) ==> forall i :: 0 <= i < |b| ==> b[i].bulkCompleted
  {
    DestOnly(a, b);
    if NothingFrom(a, cursors) {
      forall i | 0 <= i < |b|
        ensures b[i].dirty == {}
      {
        assert CleanFrom(a[i].dirty, cursors[i]);
      }
    }
  }

  /** How many parts of the bulk phase are still to end. */
  function Phases(st: State, bulkCompleted: bool): nat { Sum(Unfinished, st.devs) + if bulkCompleted then 0 else 1 }

  /** Either a part of the bulk phase has ended, or one more block is on its way. */
  ghost predicate Ahead(st: State, bulk: bool, next: State, nextBulk: bool) {
    || Phases(next, nextBulk) < Phases(st, bulk)
    || (Phases(next, nextBulk) == Phases(st, bulk) && next.submitted + next.readDone == st.submitted + st.readDone + 1)
  }

  lemma {:induction false} BulkAhead(st: State, i: nat)
    requires Shaped(st) && i < |st.devs| && FirstUnfinished(st, i)
    ensures Ahead(st, false, SaveBulk(st, i), false)
    ensures SaveBulk(st, i).submitted + SaveBulk(st, i).readDone <= st.submitted + st.readDone + 1
  {
    SumUpdate(Unfinished, st.devs, i, SaveBulk(st, i).devs[i]);
  }

  lemma {:induction false} NoneUnfinished(devs: seq<Dev>)
    ensures (forall i :: 0 <= i < |devs| ==> devs[i].bulkCompleted) ==> Sum(Unfinished, devs) == 0
  {
    if devs != [] && forall i :: 0 <= i < |devs| ==> devs[i].bulkCompleted {
      assert forall i :: 0 <= i < |devs[1..]| ==> devs[1..][i] == devs[i + 1];
      NoneUnfinished(devs[1..]);
    }
  }

  lemma {:induction false} DestOnly(a: seq<Dev>, b: seq<Dev>)
    requires SameButDest(a, b)
    ensures |a| == |b|
    ensures forall i :: 0 <= i < |a| ==>
              a[i].marks == b[i].marks && a[i].bulkCompleted == b[i].bulkCompleted && a[i].dirty == b[i].dirty
  {
    forall i | 0 <= i < |a|
      ensures a[i].marks == b[i].marks && a[i].bulkCompleted == b[i].bulkCompleted && a[i].dirty == b[i].dirty
    {
      assert a[i].(dest := []) == b[i].(dest := []);
    }
  }

  /** The devices differ at most in what the destination holds. */
  ghost predicate SameButDest(a: seq<Dev>, b: seq<Dev>) {
    |a| == |b| && forall i :: 0 <= i < |a| ==> a[i].(dest := []) == b[i].(dest := [])
  }

  /** Every cursor has only clean chunks behind it. */
  ghost predicate Scanned(devs: seq<Dev>, cursors: seq<nat>) {
    |cursors| == |devs| && forall i :: 0 <= i < |devs| ==> cursors[i] % CHUNK == 0 && CleanBetween(devs[i].dirty, 0, cursors[i])
  }

  /** No chunk that starts from lo on is dirty. */
  ghost predicate CleanFrom(dirty: set<nat>, lo: nat) { forall c :: c in dirty ==> c * CHUNK < lo }

  /** The cursors have only passed chunks that are clean, and no chunk has become dirty. */
  ghost predicate Onward(devs: seq<Dev>, cursors: seq<nat>, next: seq<Dev>, later: seq<nat>)
    requires |devs| == |cursors| == |next| == |later|
  {
    forall i :: 0 <= i < |devs| ==>
      next[i].dirty <= devs[i].dirty && cursors[i] <= later[i] && CleanBetween(next[i].dirty, cursors[i], later[i])
  }

  lemma {:induction false} OnwardSame(devs: seq<Dev>, cursors: seq<nat>)
    requires |devs| == |cursors|
    ensures Onward(devs, cursors, devs, cursors)
  {
  }

  lemma {:induction false} OnwardTrans(a: seq<Dev>, x: seq<nat>, b: seq<Dev>, y: seq<nat>, c: seq<Dev>, z: seq<nat>)
    requires |a| == |x| == |b| == |y| == |c| == |z| && Onward(a, x, b, y) && Onward(b, y, c, z)
    ensures Onward(a, x, c, z)
  {
  }

  lemma {:induction false} OnwardScan(devs: seq<Dev>, cursors: seq<nat>, next: seq<Dev>, later: seq<nat>, i: nat)
    requires |devs| == |cursors| == |next| == |later| && i < |devs| && SameDevs(devs, next) && later == cursors[i := later[i]]
    requires cursors[i] <= later[i] && CleanBetween(devs[i].dirty, cursors[i], later[i])
    ensures Onward(devs, cursors, next, later)
  {
    SameDirty(devs, next);
  }

  lemma {:induction false} OnwardSubmit(st: State, cursors: seq<nat>, next: State, later: seq<nat>, i: nat, c: nat)
    requires |st.devs| == |cursors| == |next.devs| == |later| && i < |st.devs| && Submitted(st, next, i, c)
    requires later == cursors[i := later[i]] && cursors[i] <= later[i] && CleanBetween(st.devs[i].dirty, cursors[i], later[i])
    ensures Onward(st.devs, cursors, next.devs, later)
  {
  }

  lemma {:induction false} SameDirty(a: seq<Dev>, b: seq<Dev>)
    requires SameDevs(a, b)
    ensures |a| == |b| && forall i :: 0 <= i < |a| ==> a[i].dirty == b[i].dirty && a[i].disk == b[i].disk
  {
    forall i | 0 <= i < |a|
      ensures a[i].dirty == b[i].dirty && a[i].disk == b[i].disk
    {
      assert a[i].(inflight := {}) == b[i].(inflight := {});
    }
  }

  lemma {:induction false} SameTwice(a: seq<Dev>, b: seq<Dev>, c: seq<Dev>)
    requires SameDevs(a, b) && SameDevs(b, c)
    ensures SameDevs(a, c)
  {
  }

  lemma {:induction false} ScannedToEnd(d: Dev, lo: nat, hi: nat)
    requires DevShape(d) && hi >= |d.disk| && CleanBetween(d.dirty, lo, hi)
    ensures CleanFrom(d.dirty, lo)
  {
  }

  /** No chunk that starts from lo on and before hi is dirty. */
  ghost predicate CleanBetween(dirty: set<nat>, lo: nat, hi: nat) {
    forall c :: c in dirty ==> !(lo <= c * CHUNK < hi)
  }

  lemma {:induction false} SameBulk(a: seq<Dev>, b: seq<Dev>)
    ensures SameDevs(a, b) ==> forall i :: 0 <= i < |a| ==> a[i].bulkCompleted == b[i].bulkCompleted && a[i].disk == b[i].disk
  {
    if SameDevs(a, b) {
      forall i | 0 <= i < |a|
        ensures a[i].bulkCompleted == b[i].bulkCompleted && a[i].disk == b[i].disk
      {
        assert a[i].(inflight := {}) == b[i].(inflight := {});
      }
    }
  }

  lemma {:induction false} SameDevCount(st: State, step: Step)
    requires Shaped(st) && Enabled(st, step)
    ensures |Apply(st, step).devs| == |st.devs|
  {
  }

  ghost predicate FirstUnfinished(st: State, i: nat)
    requires i < |st.devs|
  {
    DevShape(st.devs[i]) && !st.devs[i].bulkCompleted && forall j :: 0 <= j < i ==> st.devs[j].bulkCompleted
  }

  lemma {:induction false} ScannedAll(d: Dev, cursor: nat)
    requires DevShape(d) && cursor >= |d.disk| && CleanBetween(d.dirty, 0, cursor)
    ensures d.dirty == {}
  {
  }

  lemma {:induction false} ScannedOn(devs: seq<Dev>, next: seq<Dev>, cursors: seq<nat>, later: seq<nat>, i: nat)
    requires Scanned(devs, cursors) && |next| == |devs| == |later| && i < |devs| && later == cursors[i := later[i]]
    requires later[i] % CHUNK == 0 && CleanBetween(devs[i].dirty, cursors[i], later[i])
    requires forall j :: 0 <= j < |devs| ==> next[j].dirty <= devs[j].dirty
    ensures Scanned(next, later)
  {
  }
}
