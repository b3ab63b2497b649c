/** Live migration of block devices (block-migration.c) as a machine whose steps interleave freely: guest
    writes reach the disk and mark their chunks dirty later, asynchronous reads are submitted, read
    the disk sector by sector and complete, and completed blocks are sent.

The destination's disk is what loading everything sent so far makes of it. Reads complete in any
order; the code is right exactly as long as no two reads of one chunk overtake each other.
*/
module BlockMigration {
  import opened Sectors

  /** A migrated device. `disk` is what the guest sees, `dest` the destination's copy. `marks` are the
      chunks that writes have changed on the disk and not marked dirty yet. */
  datatype Dev = Dev(shared: bool, disk: seq<int>, alloc: seq<bool>, dest: seq<int>, dirty: set<nat>, inflight: set<nat>,
                     marks: set<nat>, cur: nat, bulkCompleted: bool)

  /** A BlkMigBlock: the sectors read so far, and whether the read succeeded. */
  datatype Blk = Blk(dev: nat, chunk: nat, data: map<nat, int>, ok: bool)

  /** The submitted reads, the completed blocks of blk_list, and the counters of block_mig_state. */
  datatype State = State(devs: seq<Dev>, pending: seq<Blk>, blks: seq<Blk>, submitted: int, readDone: int)

  datatype Step =
    | Write(dev: nat, sector: nat, value: int)  // one sector of a guest write reaches the disk
    | Mark(dev: nat, chunk: nat)                // a completing guest write marks a chunk dirty
    | Bulk(dev: nat)                            // mig_save_device_bulk
    | Dirty(dev: nat, chunk: nat)               // mig_save_device_dirty, asynchronous
    | Sample(k: nat, sector: nat)               // the k-th pending read reads a sector
    | Complete(k: nat, ok: bool)                // blk_mig_read_cb
    | Flush                                     // one turn of flush_blks

  // ----- What the steps do -----

  predicate InChunk(d: Dev, s: nat, c: nat) { s < |d.disk| && s / CHUNK == c }

  function SetDev(st: State, i: nat, d: Dev): State
    requires i < |st.devs|
  {
    st.(devs := st.devs[i := d])
  }

  /** The first allocated sector from s on, or the end of the device. */
  function FirstAllocated(d: Dev, s: nat): (r: nat)
    requires |d.alloc| == |d.disk| && s <= |d.disk|
    ensures s <= r <= |d.disk| && (forall x :: s <= x < r ==> !d.alloc[x]) && (r < |d.disk| ==> d.alloc[r])
    decreases |d.disk| - s
  {
    if s < |d.disk| && !d.alloc[s] then FirstAllocated(d, s + 1) else s
  }

  /** Where the bulk phase goes on: with a shared base, unallocated sectors are skipped. */
  function BulkFrom(d: Dev): nat
    requires |d.alloc| == |d.disk| && d.cur <= |d.disk|
  {
    if d.shared then FirstAllocated(d, d.cur) else d.cur
  }

  /** The end of a chunk, cut off at the end of the device. */
  function ChunkEnd(d: Dev, c: nat): nat { if (c + 1) * CHUNK <= |d.disk| then (c + 1) * CHUNK else |d.disk| }

  function Submit(st: State, i: nat, c: nat): State {
    st.(pending := st.pending + [Blk(i, c, map[], true)], submitted := st.submitted + 1)
  }

  function SaveBulk(st: State, i: nat): State
    requires i < |st.devs| && |st.devs[i].alloc| == |st.devs[i].disk| && st.devs[i].cur <= |st.devs[i].disk|
  {
    var d := st.devs[i];
    var from := BulkFrom(d);
    if from >= |d.disk| then SetDev(st, i, d.(cur := |d.disk|, bulkCompleted := true))
    else
      var c := from / CHUNK;
      var end := ChunkEnd(d, c);
      SetDev(Submit(st, i, c), i, d.(dirty := d.dirty - {c}, cur := end, bulkCompleted := end >= |d.disk|))
  }

  predicate BulkDone(st: State) { forall i :: 0 <= i < |st.devs| ==> st.devs[i].bulkCompleted }

  function Load(dest: seq<int>, data: map<nat, int>): (r: seq<int>)
    ensures |r| == |dest|
    ensures forall s :: 0 <= s < |dest| ==> r[s] == if s in data then data[s] else dest[s]
  {
    seq(|dest|, s requires 0 <= s < |dest| => if s in data then data[s] else dest[s])
  }

  predicate Matches(b: Blk, i: nat, c: nat) { b.dev == i && b.chunk == c }

  /** The k-th pending read is the oldest of its chunk. */
  predicate Oldest(p: seq<Blk>, k: nat)
    requires k < |p|
  {
    forall j :: 0 <= j < k ==> !Matches(p[j], p[k].dev, p[k].chunk)
  }

  /** Every sector of the block's chunk has been read. */
  predicate Full(st: State, b: Blk)
    requires b.dev < |st.devs|
  {
    forall s :: 0 <= s < |st.devs[b.dev].disk| && s / CHUNK == b.chunk ==> s in b.data
  }

  predicate Enabled(st: State, step: Step) {
    match step
    case Write(i, s, _) => i < |st.devs| && s < |st.devs[i].disk|
    case Mark(i, c) => i < |st.devs| && c * CHUNK < |st.devs[i].disk|
    case Bulk(i) => i < |st.devs| && !st.devs[i].bulkCompleted
    case Dirty(i, c) => BulkDone(st) && i < |st.devs| && c in st.devs[i].dirty && c !in st.devs[i].inflight
    case Sample(k, s) =>
      && k < |st.pending| && st.pending[k].dev < |st.devs| && s !in st.pending[k].data
      && InChunk(st.devs[st.pending[k].dev], s, st.pending[k].chunk)
    case Complete(k, ok) =>
      k < |st.pending| && st.pending[k].dev < |st.devs| && (ok ==> Full(st, st.pending[k]))
    case Flush => st.blks != [] && st.blks[0].ok && st.blks[0].dev < |st.devs|
  }

  function Remove(p: seq<Blk>, k: nat): seq<Blk>
    requires k < |p|
  {
    p[..k] + p[k + 1..]
  }

  /** blk_mig_read_cb. */
  function Completed(st: State, k: nat, ok: bool): State
    requires k < |st.pending| && st.pending[k].dev < |st.devs|
  {
    var b := st.pending[k];
    var d := st.devs[b.dev];
    SetDev(st.(pending := Remove(st.pending, k), blks := st.blks + [b.(ok := ok)],
               submitted := st.submitted - 1, readDone := st.readDone + 1), b.dev, d.(inflight := d.inflight - {b.chunk}))
  }

  function Apply(st: State, step: Step): State
    requires Enabled(st, step) && Shaped(st)
  {
    match step
    case Write(i, s, v) =>
      var d := st.devs[i];
      SetDev(st, i, d.(disk := d.disk[s := v], alloc := d.alloc[s := true], marks := d.marks + {s / CHUNK}))
    case Mark(i, c) =>
      var d := st.devs[i];
      SetDev(st, i, d.(dirty := d.dirty + {c}, marks := d.marks - {c}))
    case Bulk(i) => SaveBulk(st, i)
    case Dirty(i, c) =>
      var d := st.devs[i];
      SetDev(Submit(st, i, c), i, d.(dirty := d.dirty - {c}, inflight := d.inflight + {c}))
    case Sample(k, s) =>
      var b := st.pending[k];
      st.(pending := st.pending[k := b.(data := b.data[s := st.devs[b.dev].disk[s]])])
    case Complete(k, ok) => Completed(st, k, ok)
    case Flush =>
      var b := st.blks[0];
      var d := st.devs[b.dev];
      SetDev(st.(blks := st.blks[1..], readDone := st.readDone - 1), b.dev, d.(dest := Load(d.dest, b.data)))
  }

  // ----- The invariant -----

  ghost predicate DevShape(d: Dev) {
    && |d.alloc| == |d.disk| == |d.dest| && d.cur <= |d.disk| && (d.cur % CHUNK == 0 || d.cur == |d.disk|)
    && (d.bulkCompleted ==> d.cur == |d.disk|)
    && (forall c :: c in d.dirty ==> c * CHUNK < |d.disk|) && (forall c :: c in d.marks ==> c * CHUNK < |d.disk|)
  }

  /** A block is of a chunk the bulk phase has reached, and holds only sectors of its chunk. */
  ghost predicate BlkShape(st: State, b: Blk) {
    b.dev < |st.devs| && b.chunk * CHUNK < st.devs[b.dev].cur && forall s :: s in b.data ==> s / CHUNK == b.chunk
  }

  ghost predicate Shaped(st: State) {
    && (forall i :: 0 <= i < |st.devs| ==> DevShape(st.devs[i]))
    && (forall k :: 0 <= k < |st.pending| ==> BlkShape(st, st.pending[k]))
    && (forall k :: 0 <= k < |st.blks| ==> BlkShape(st, st.blks[k]))
    && st.submitted == |st.pending| && st.readDone == |st.blks|
  }

  /** The last block of a chunk, or -1. */
  function LastIndex(p: seq<Blk>, i: nat, c: nat): (r: int)
    ensures -1 <= r < |p| && (r >= 0 ==> Matches(p[r], i, c))
    ensures forall k :: r < k < |p| ==> !Matches(p[k], i, c)
  {
    if p == [] then -1
    else if Matches(p[|p| - 1], i, c) then |p| - 1
    else LastIndex(p[..|p| - 1], i, c)
  }

  /** What the destination will end up with for a sector, if nothing more is read: the newest pending read
      has not read the sector or has read what the disk holds; or, with none pending, the newest
      block waiting to be sent holds it; or, with none waiting, the destination does. */
  ghost predicate Covered(st: State, i: nat, s: nat)
    requires i < |st.devs| && s < |st.devs[i].disk| == |st.devs[i].dest|
  {
    var d, c := st.devs[i], s / CHUNK;
    var p, q := LastIndex(st.pending, i, c), LastIndex(st.blks, i, c);
    if p >= 0 then s in st.pending[p].data ==> st.pending[p].data[s] == d.disk[s]
    else if q >= 0 then st.blks[q].ok ==> s in st.blks[q].data && st.blks[q].data[s] == d.disk[s]
    else d.dest[s] == d.disk[s]
  }

  /** Every sector is dirty, about to be marked, not reached by the bulk phase, or covered. */
  ghost predicate Good(st: State, i: nat, s: nat)
    requires i < |st.devs| && s < |st.devs[i].disk| == |st.devs[i].dest|
  {
    var d := st.devs[i];
    s / CHUNK in d.dirty || s / CHUNK in d.marks || s >= d.cur || Covered(st, i, s)
  }

  /** With a shared base, what is neither allocated nor reached is the same on both sides. */
  ghost predicate BaseShared(d: Dev)
    requires |d.alloc| == |d.disk| == |d.dest|
  {
    d.shared ==> forall s :: d.cur <= s < |d.disk| && !d.alloc[s] ==> d.dest[s] == d.disk[s]
  }

  /** A chunk marked in flight has a read pending. */
  ghost predicate InFlight(st: State, i: nat, c: nat)
    requires i < |st.devs|
  {
    c in st.devs[i].inflight ==> LastIndex(st.pending, i, c) >= 0
  }

  /** No two pending reads are of the same chunk. */
  ghost predicate Single(p: seq<Blk>) {
    forall j, k :: 0 <= j < k < |p| ==> !Matches(p[j], p[k].dev, p[k].chunk)
  }

  /** What holds in whatever order the reads complete. Only once the bulk phase is over may a chunk be
      read again while a read of it is pending. */
  ghost predicate Sound(st: State) {
    && Shaped(st)
    && (forall i, c: nat :: 0 <= i < |st.devs| ==> InFlight(st, i, c))
    && (forall i :: 0 <= i < |st.devs| ==> BaseShared(st.devs[i]))
    && (forall k :: 0 <= k < |st.blks| && st.blks[k].ok ==> Full(st, st.blks[k]))
    && (BulkDone(st) || Single(st.pending))
  }

  ghost predicate Inv(st: State) {
    Sound(st) && forall i, s :: 0 <= i < |st.devs| && 0 <= s < |st.devs[i].disk| ==> Good(st, i, s)
  }

  /** A read completes no earlier than the reads of its chunk submitted before it. */
  predicate InOrder(st: State, step: Step) { step.Complete? && step.k < |st.pending| ==> Oldest(st.pending, step.k) }

  // ----- Keeping it -----

  lemma {:induction false} LastUnique(p: seq<Blk>, i: nat, c: nat, r: int)
    requires -1 <= r < |p| && (r >= 0 ==> Matches(p[r], i, c)) && forall k :: r < k < |p| ==> !Matches(p[k], i, c)
    ensures LastIndex(p, i, c) == r
  {
  }

  lemma {:induction false} LastAppend(p: seq<Blk>, b: Blk, i: nat, c: nat)
    ensures LastIndex(p + [b], i, c) == if Matches(b, i, c) then |p| else LastIndex(p, i, c)
  {
    LastUnique(p + [b], i, c, if Matches(b, i, c) then |p| else LastIndex(p, i, c));
  }

  lemma {:induction false} LastUpdate(p: seq<Blk>, k: nat, b: Blk, i: nat, c: nat)
    requires k < |p| && b.dev == p[k].dev && b.chunk == p[k].chunk
    ensures LastIndex(p[k := b], i, c) == LastIndex(p, i, c)
  {
    LastUnique(p[k := b], i, c, LastIndex(p, i, c));
  }

  lemma {:induction false} LastRemove(p: seq<Blk>, k: nat, i: nat, c: nat)
    requires k < |p| && (Oldest(p, k) || !Matches(p[k], i, c))
    ensures var r := LastIndex(p, i, c); LastIndex(Remove(p, k), i, c) == if r == k then -1 else if r > k then r - 1 else r
  {
    var r := LastIndex(p, i, c);
    var q := Remove(p, k);
    forall j | 0 <= j < |q|
      ensures q[j] == if j < k then p[j] else p[j + 1]
    {
    }
    LastUnique(q, i, c, if r == k then -1 else if r > k then r - 1 else r);
  }

  lemma {:induction false} LastTail(p: seq<Blk>, i: nat, c: nat)
    requires p != []
    ensures LastIndex(p[1..], i, c) == if LastIndex(p, i, c) <= 0 then -1 else LastIndex(p, i, c) - 1
  {
    var r := LastIndex(p, i, c);
    LastUnique(p[1..], i, c, if r <= 0 then -1 else r - 1);
  }

  // Each kind of step keeps the invariant, sector by sector.

  lemma {:induction false} WriteGood(st: State, i0: nat, s0: nat, v: int, i: nat, s: nat)
    requires Inv(st) && Enabled(st, Write(i0, s0, v)) && i < |st.devs| && s < |st.devs[i].disk|
    ensures Good(Apply(st, Write(i0, s0, v)), i, s)
  {
    assert Good(st, i, s);
  }

  lemma {:induction false} MarkGood(st: State, i0: nat, c0: nat, i: nat, s: nat)
    requires Inv(st) && Enabled(st, Mark(i0, c0)) && i < |st.devs| && s < |st.devs[i].disk|
    ensures Good(Apply(st, Mark(i0, c0)), i, s)
  {
    assert Good(st, i, s);
  }

  /** A newly submitted read covers its chunk, having read nothing yet. */
  lemma {:induction false} SubmitCovers(st: State, next: State, i0: nat, c0: nat, i: nat, s: nat)
    requires Inv(st) && |next.devs| == |st.devs| && i < |st.devs| && s < |st.devs[i].disk|
    requires next.pending == st.pending + [Blk(i0, c0, map[], true)] && next.blks == st.blks
    requires next.devs[i].disk == st.devs[i].disk && next.devs[i].dest == st.devs[i].dest
    ensures (i == i0 && s / CHUNK == c0) || Covered(st, i, s) ==> Covered(next, i, s)
  {
    LastAppend(st.pending, Blk(i0, c0, map[], true), i, s / CHUNK);
  }

  lemma {:induction false} DirtyGood(st: State, i0: nat, c0: nat, i: nat, s: nat)
    requires Inv(st) && Enabled(st, Dirty(i0, c0)) && i < |st.devs| && s < |st.devs[i].disk|
    ensures Good(Apply(st, Dirty(i0, c0)), i, s)
  {
    assert Good(st, i, s);
    SubmitCovers(st, Apply(st, Dirty(i0, c0)), i0, c0, i, s);
  }

  lemma {:induction false} SampleGood(st: State, k: nat, s0: nat, i: nat, s: nat)
    requires Inv(st) && Enabled(st, Sample(k, s0)) && i < |st.devs| && s < |st.devs[i].disk|
    ensures Good(Apply(st, Sample(k, s0)), i, s)
  {
    assert Good(st, i, s);
    LastUpdate(st.pending, k, Apply(st, Sample(k, s0)).pending[k], i, s / CHUNK);
  }

  lemma {:induction false} FlushGood(st: State, i: nat, s: nat)
    requires Inv(st) && Enabled(st, Flush) && i < |st.devs| && s < |st.devs[i].disk|
    ensures Good(Apply(st, Flush), i, s)
  {
    hide LastIndex, InFlight, BaseShared, Full, Single;
    assert Good(st, i, s);
    LastTail(st.blks, i, s / CHUNK);
  }

  /** The completed read takes its place at the end of the blocks of its chunk. */
  lemma {:induction false} CompleteCovers(st: State, next: State, k: nat, ok: bool, i: nat, s: nat)
    requires i < |st.devs| && s < |st.devs[i].disk| == |st.devs[i].dest| && Covered(st, i, s)
    requires k < |st.pending| && Oldest(st.pending, k)
    requires ok && Matches(st.pending[k], i, s / CHUNK) ==> s in st.pending[k].data
    requires |next.devs| == |st.devs| && next.pending == Remove(st.pending, k)
    requires next.blks == st.blks + [st.pending[k].(ok := ok)]
    requires next.devs[i].disk == st.devs[i].disk && next.devs[i].dest == st.devs[i].dest
    ensures Covered(next, i, s)
  {
    hide LastIndex;
    var c := s / CHUNK;
    LastRemove(st.pending, k, i, c);
    LastAppend(st.blks, st.pending[k].(ok := ok), i, c);
  }

  lemma {:induction false} CompleteGood(st: State, k: nat, ok: bool, i: nat, s: nat)
    requires Inv(st) && Enabled(st, Complete(k, ok)) && Oldest(st.pending, k) && i < |st.devs| && s < |st.devs[i].disk|
    ensures Good(Apply(st, Complete(k, ok)), i, s)
  {
    assert Good(st, i, s);
    if Covered(st, i, s) {
      CompleteCovers(st, Apply(st, Complete(k, ok)), k, ok, i, s);
    }
  }

  /** No block is of a chunk that lies wholly at or after the bulk cursor. */
  lemma {:induction false} NoneBeyond(st: State, i: nat, s: nat)
    requires Shaped(st) && i < |st.devs| && st.devs[i].cur <= s < |st.devs[i].disk|
    ensures LastIndex(st.pending, i, s / CHUNK) == -1 && LastIndex(st.blks, i, s / CHUNK) == -1
  {
    var c := s / CHUNK;
    assert c * CHUNK >= st.devs[i].cur;
    forall k | 0 <= k < |st.pending|
      ensures !Matches(st.pending[k], i, c)
    {
      assert BlkShape(st, st.pending[k]);
    }
    forall k | 0 <= k < |st.blks|
      ensures !Matches(st.blks[k], i, c)
    {
      assert BlkShape(st, st.blks[k]);
    }
  }

  /** What the bulk phase skips is the same on both sides. */
  lemma {:induction false} SkippedCovered(st: State, i: nat, s: nat)
    requires Inv(st) && i < |st.devs| && st.devs[i].shared && st.devs[i].cur <= s < |st.devs[i].disk| && !st.devs[i].alloc[s]
    ensures Covered(st, i, s)
  {
    NoneBeyond(st, i, s);
    assert BaseShared(st.devs[i]);
  }

  lemma {:induction false} BulkGood(st: State, i0: nat, i: nat, s: nat)
    requires Inv(st) && Enabled(st, Bulk(i0)) && i < |st.devs| && s < |st.devs[i].disk|
    ensures Good(Apply(st, Bulk(i0)), i, s)
  {
    hide LastIndex, InFlight, Full, Single;
    assert Good(st, i, s);
    var d := st.devs[i0];
    var from := BulkFrom(d);
    var next := Apply(st, Bulk(i0));
    if i == i0 && d.cur <= s < from {
      SkippedCovered(st, i, s);
    }
    if from < |d.disk| {
      SubmitCovers(st, next, i0, from / CHUNK, i, s);
    }
  }

  // ----- Shape -----

  lemma {:induction false} ShapeOf(st: State, next: State, i0: nat)
    requires Shaped(st) && |next.devs| == |st.devs| && i0 < |st.devs| && next.devs == st.devs[i0 := next.devs[i0]]
    requires DevShape(next.devs[i0]) && next.devs[i0].cur >= st.devs[i0].cur
    requires forall k :: 0 <= k < |next.pending| ==> BlkShape(next, next.pending[k]) || next.pending[k] in st.pending
    requires forall k :: 0 <= k < |next.blks| ==> BlkShape(next, next.blks[k]) || next.blks[k] in st.blks
    requires next.submitted == |next.pending| && next.readDone == |next.blks|
    ensures Shaped(next)
  {
    forall k | 0 <= k < |next.pending|
      ensures BlkShape(next, next.pending[k])
    {
      if next.pending[k] in st.pending {
        var j :| 0 <= j < |st.pending| && st.pending[j] == next.pending[k];
        assert BlkShape(st, st.pending[j]);
      }
    }
    forall k | 0 <= k < |next.blks|
      ensures BlkShape(next, next.blks[k])
    {
      if next.blks[k] in st.blks {
        var j :| 0 <= j < |st.blks| && st.blks[j] == next.blks[k];
        assert BlkShape(st, st.blks[j]);
      }
    }
  }

  lemma {:induction false} BulkShape(st: State, i: nat)
    requires Shaped(st) && Enabled(st, Bulk(i))
    ensures Shaped(Apply(st, Bulk(i)))
  {
    var next := Apply(st, Bulk(i));
    assert DevShape(st.devs[i]);
    ShapeOf(st, next, i);
  }

  lemma {:induction false} DirtyShape(st: State, i: nat, c: nat)
    requires Shaped(st) && Enabled(st, Dirty(i, c))
    ensures Shaped(Apply(st, Dirty(i, c)))
  {
    assert DevShape(st.devs[i]) && st.devs[i].bulkCompleted;
    ShapeOf(st, Apply(st, Dirty(i, c)), i);
  }

  lemma {:induction false} SampleShape(st: State, k: nat, s: nat)
    requires Shaped(st) && Enabled(st, Sample(k, s))
    ensures Shaped(Apply(st, Sample(k, s)))
  {
    var next := Apply(st, Sample(k, s));
    assert BlkShape(st, st.pending[k]);
    assert DevShape(st.devs[st.pending[k].dev]);
    ShapeOf(st, next, st.pending[k].dev);
  }

  lemma {:induction false} CompleteShape(st: State, k: nat, ok: bool)
    requires Shaped(st) && Enabled(st, Complete(k, ok))
    ensures Shaped(Apply(st, Complete(k, ok)))
  {
    var next := Apply(st, Complete(k, ok));
    assert BlkShape(st, st.pending[k]);
    assert DevShape(st.devs[st.pending[k].dev]);
    ShapeOf(st, next, st.pending[k].dev);
  }

  lemma {:induction false} StepShape(st: State, step: Step)
    requires Shaped(st) && Enabled(st, step)
    ensures Shaped(Apply(st, step))
  {
    match step
    case Bulk(i) => BulkShape(st, i);
    case Dirty(i, c) => DirtyShape(st, i, c);
    case Sample(k, s) => SampleShape(st, k, s);
    case Complete(k, ok) => CompleteShape(st, k, ok);
    case Write(i, s, v) =>
      assert DevShape(st.devs[i]);
      ShapeOf(st, Apply(st, step), i);
    case Mark(i, c) =>
      assert DevShape(st.devs[i]);
      ShapeOf(st, Apply(st, step), i);
    case Flush =>
      assert DevShape(st.devs[st.blks[0].dev]);
      ShapeOf(st, Apply(st, step), st.blks[0].dev);
  }

  /** What is sent is of chunks the bulk phase has reached, so the rest of a shared base stays. */
  lemma {:induction false} FlushBase(st: State, i: nat)
    requires Sound(st) && Enabled(st, Flush) && i < |st.devs|
    ensures |Apply(st, Flush).devs| == |st.devs| && BaseShared(Apply(st, Flush).devs[i])
  {
    hide LastIndex, InFlight, Full, Single;
    assert DevShape(st.devs[i]) && BaseShared(st.devs[i]) && BlkShape(st, st.blks[0]);
  }

  lemma {:induction false} StepBase(st: State, step: Step, i: nat)
    requires Sound(st) && Enabled(st, step) && i < |st.devs|
    ensures |Apply(st, step).devs| == |st.devs| && BaseShared(Apply(st, step).devs[i])
  {
    hide LastIndex, InFlight, Full, Single, Load;
    assert DevShape(st.devs[i]) && BaseShared(st.devs[i]);
    match step
    case Flush => FlushBase(st, i);
    case _ =>
  }

  lemma {:induction false} StepGood(st: State, step: Step, i: nat, s: nat)
    requires Inv(st) && Enabled(st, step) && InOrder(st, step) && i < |st.devs| && s < |st.devs[i].disk|
    ensures Good(Apply(st, step), i, s)
  {
    match step
    case Write(i0, s0, v) => WriteGood(st, i0, s0, v, i, s);
    case Mark(i0, c0) => MarkGood(st, i0, c0, i, s);
    case Bulk(i0) => BulkGood(st, i0, i, s);
    case Dirty(i0, c0) => DirtyGood(st, i0, c0, i, s);
    case Sample(k, s0) => SampleGood(st, k, s0, i, s);
    case Complete(k, ok) => CompleteGood(st, k, ok, i, s);
    case Flush => FlushGood(st, i, s);
  }

  lemma {:induction false} CompleteInFlight(st: State, k: nat, ok: bool, i: nat, c: nat)
    requires Sound(st) && Enabled(st, Complete(k, ok)) && i < |st.devs|
    ensures InFlight(Apply(st, Complete(k, ok)), i, c)
  {
    assert InFlight(st, i, c);
    if !Matches(st.pending[k], i, c) {
      LastRemove(st.pending, k, i, c);
    }
  }

  lemma {:induction false} BulkInFlight(st: State, i0: nat, i: nat, c: nat)
    requires Sound(st) && Enabled(st, Bulk(i0)) && i < |st.devs|
    ensures InFlight(Apply(st, Bulk(i0)), i, c)
  {
    hide LastIndex, BaseShared, Full, Single;
    assert InFlight(st, i, c);
    var next := Apply(st, Bulk(i0));
    if next.pending != st.pending {
      LastAppend(st.pending, next.pending[|st.pending|], i, c);
    }
  }

  lemma {:induction false} StepInFlight(st: State, step: Step, i: nat, c: nat)
    requires Sound(st) && Enabled(st, step) && i < |st.devs|
    ensures |Apply(st, step).devs| == |st.devs| && InFlight(Apply(st, step), i, c)
  {
    hide LastIndex, Full, Single, BaseShared;
    assert InFlight(st, i, c);
    var next := Apply(st, step);
    match step
    case Write(_, _, _) =>
    case Mark(_, _) =>
    case Bulk(i0) => BulkInFlight(st, i0, i, c);
    case Dirty(i0, c0) => LastAppend(st.pending, next.pending[|st.pending|], i, c);
    case Sample(k, s) => LastUpdate(st.pending, k, next.pending[k], i, c);
    case Complete(k, ok) => CompleteInFlight(st, k, ok, i, c);
    case Flush =>
  }

  /** The blocks to be sent stay full, for no disk changes its size. */
  lemma {:induction false} StepFull(st: State, step: Step, k: nat)
    requires Sound(st) && Enabled(st, step) && k < |Apply(st, step).blks| && Apply(st, step).blks[k].ok
    ensures Apply(st, step).blks[k].dev < |Apply(st, step).devs| && Full(Apply(st, step), Apply(st, step).blks[k])
  {
    hide LastIndex, InFlight, BaseShared, Single;
    var next := Apply(st, step);
    StepShape(st, step);
    assert BlkShape(next, next.blks[k]);
    SameSizes(st, step, next.blks[k].dev);
    var at := if step.Flush? then k + 1 else k;
    if at < |st.blks| {
      assert next.blks[k] == st.blks[at] && Full(st, st.blks[at]);
    }
  }

  /** The bulk phase submits no read of a chunk it has reached already. */
  lemma {:induction false} BulkSingle(st: State, i0: nat)
    requires Sound(st) && Enabled(st, Bulk(i0))
    ensures Single(Apply(st, Bulk(i0)).pending)
  {
    assert Single(st.pending) && DevShape(st.devs[i0]);
    var from := BulkFrom(st.devs[i0]);
    var next := Apply(st, Bulk(i0));
    if from < |st.devs[i0].disk| {
      NoneBeyond(st, i0, from);
      assert next.pending == st.pending + [Blk(i0, from / CHUNK, map[], true)];
    }
  }

  lemma {:induction false} RemoveSingle(p: seq<Blk>, k: nat)
    requires k < |p| && Single(p)
    ensures Single(Remove(p, k))
  {
    assert forall j :: 0 <= j < |Remove(p, k)| ==> Remove(p, k)[j] == p[if j < k then j else j + 1];
  }

  lemma {:induction false} PendingSingle(st: State, step: Step)
    requires Sound(st) && Enabled(st, step) && Single(st.pending) && !step.Dirty?
    ensures Single(Apply(st, step).pending)
  {
    hide LastIndex, InFlight, BaseShared, Full, Remove;
    match step
    case Bulk(i0) => BulkSingle(st, i0);
    case Complete(k, ok) => RemoveSingle(st.pending, k);
    case _ =>
  }

  /** The bulk phase of a device is over for good. */
  lemma {:induction false} BulkStays(st: State, step: Step)
    requires Shaped(st) && Enabled(st, step) && BulkDone(st)
    ensures BulkDone(Apply(st, step))
  {
  }

  lemma {:induction false} StepSingle(st: State, step: Step)
    requires Sound(st) && Enabled(st, step)
    ensures BulkDone(Apply(st, step)) || Single(Apply(st, step).pending)
  {
    hide Apply, Single, InFlight, BaseShared, Full, Shaped;
    if BulkDone(st) {
      BulkStays(st, step);
    } else {
      PendingSingle(st, step);
    }
  }

  lemma {:induction false} StepSound(st: State, step: Step)
    requires Sound(st) && Enabled(st, step)
    ensures Sound(Apply(st, step))
  {
    hide Apply, Enabled, InFlight, BaseShared, Full, BulkDone, Single;
    var next := Apply(st, step);
    StepShape(st, step);
    forall i, c: nat | 0 <= i < |next.devs|
      ensures InFlight(next, i, c)
    {
      SameSizes(st, step, i);
      StepInFlight(st, step, i, c);
    }
    forall i | 0 <= i < |next.devs|
      ensures BaseShared(next.devs[i])
    {
      SameSizes(st, step, i);
      StepBase(st, step, i);
    }
    forall k | 0 <= k < |next.blks| && next.blks[k].ok
      ensures Full(next, next.blks[k])
    {
      StepFull(st, step, k);
    }
    StepSingle(st, step);
  }

  lemma {:induction false} StepKeeps(st: State, step: Step)
    requires Inv(st) && Enabled(st, step) && InOrder(st, step)
    ensures Inv(Apply(st, step))
  {
    hide Apply, Enabled, Good, Sound;
    SoundShaped(st);
    var next := Apply(st, step);
    StepSound(st, step);
    SoundShaped(next);
    forall i, s | 0 <= i < |next.devs| && 0 <= s < |next.devs[i].disk|
      ensures Good(next, i, s)
    {
      SameSizes(st, step, i);
      StepGood(st, step, i, s);
    }
  }

  lemma {:induction false} SoundShaped(st: State)
    requires Sound(st)
    ensures Shaped(st)
  {
  }

  lemma {:induction false} SameSizes(st: State, step: Step, i: nat)
    requires Shaped(st) && Enabled(st, step) && i < |Apply(st, step).devs|
    ensures |Apply(st, step).devs| == |st.devs| && |Apply(st, step).devs[i].disk| == |st.devs[i].disk|
  {
  }

  // ----- Whole runs -----

  ghost predicate DevInit(d: Dev) {
    && |d.disk| > 0 && |d.alloc| == |d.disk| == |d.dest| && BaseShared(d)
    && d.dirty == {} && d.inflight == {} && d.cur == 0 && !d.bulkCompleted
    && forall c :: c in d.marks ==> c * CHUNK < |d.disk|
  }

  /** As init_blk_migration and set_dirty_tracking leave it; writes may be under way. */
  ghost predicate Init(st: State) {
    && (forall i :: 0 <= i < |st.devs| ==> DevInit(st.devs[i]))
    && st.pending == [] && st.blks == [] && st.submitted == 0 && st.readDone == 0
  }

  ghost predicate Runs(st: State, steps: seq<Step>, end: State)
    decreases |steps|
  {
    if steps == [] then st == end
    else Shaped(st) && Enabled(st, steps[0]) && Runs(Apply(st, steps[0]), steps[1..], end)
  }

  /** The reads of each chunk complete in the order they were submitted. */
  ghost predicate InOrderRun(st: State, steps: seq<Step>)
    decreases |steps|
  {
    steps != [] && Shaped(st) && Enabled(st, steps[0]) ==>
      InOrder(st, steps[0]) && InOrderRun(Apply(st, steps[0]), steps[1..])
  }

  /** No dirty chunk is read again while a read of it is pending. */
  predicate Exclusive(st: State, step: Step) { step.Dirty? ==> LastIndex(st.pending, step.dev, step.chunk) == -1 }

  ghost predicate ExclusiveRun(st: State, steps: seq<Step>)
    decreases |steps|
  {
    steps != [] && Shaped(st) && Enabled(st, steps[0]) ==>
      Exclusive(st, steps[0]) && ExclusiveRun(Apply(st, steps[0]), steps[1..])
  }

  lemma {:induction false} InitInv(st: State)
    requires Init(st)
    ensures Inv(st)
  {
    forall i | 0 <= i < |st.devs|
      ensures DevShape(st.devs[i]) && BaseShared(st.devs[i])
    {
      assert DevInit(st.devs[i]);
    }
    forall i, c: nat | 0 <= i < |st.devs|
      ensures InFlight(st, i, c)
    {
      assert DevInit(st.devs[i]);
    }
    forall i, s | 0 <= i < |st.devs| && 0 <= s < |st.devs[i].disk|
      ensures Good(st, i, s)
    {
      assert DevInit(st.devs[i]);
    }
  }

  lemma {:induction false} RunSound(st: State, steps: seq<Step>, end: State)
    requires Sound(st) && Runs(st, steps, end)
    ensures Sound(end)
    decreases |steps|
  {
    hide Apply, Enabled, Sound;
    if steps != [] {
      StepSound(st, steps[0]);
      RunSound(Apply(st, steps[0]), steps[1..], end);
    }
  }

  lemma {:induction false} RunKeeps(st: State, steps: seq<Step>, end: State)
    requires Inv(st) && Runs(st, steps, end) && InOrderRun(st, steps)
    ensures Inv(end)
    decreases |steps|
  {
    hide Apply, Enabled, Inv, InOrder;
    if steps != [] {
      StepKeeps(st, steps[0]);
      RunKeeps(Apply(st, steps[0]), steps[1..], end);
    }
  }

  lemma {:induction false} RunOn(st: State, steps: seq<Step>, end: State, step: Step)
    requires Runs(st, steps, end) && Shaped(end) && Enabled(end, step)
    ensures Runs(st, steps + [step], Apply(end, step))
    decreases |steps|
  {
    hide Apply, Enabled, Shaped;
    if steps == [] {
      assert (steps + [step])[1..] == [];
    } else {
      RunOn(Apply(st, steps[0]), steps[1..], end, step);
      assert (steps + [step])[1..] == steps[1..] + [step];
    }
  }

  /** If no dirty chunk is read while a read of it is pending, no chunk ever has two reads pending, and so
      no completion can be out of order. */
  lemma {:induction false} ExclusiveInOrder(st: State, steps: seq<Step>, end: State)
    requires Sound(st) && Single(st.pending) && Runs(st, steps, end) && ExclusiveRun(st, steps)
    ensures InOrderRun(st, steps)
    decreases |steps|
  {
    hide InFlight, BaseShared, Full;
    if steps != [] {
      var next := Apply(st, steps[0]);
      StepSound(st, steps[0]);
      if !steps[0].Dirty? {
        PendingSingle(st, steps[0]);
      } else {
        assert next.pending == st.pending + [Blk(steps[0].dev, steps[0].chunk, map[], true)];
      }
      ExclusiveInOrder(next, steps[1..], end);
    }
  }

  /** Nothing is left to mark, read, send or re-send. */
  ghost predicate Settled(st: State) {
    && BulkDone(st) && st.pending == [] && st.blks == []
    && forall i :: 0 <= i < |st.devs| ==> st.devs[i].dirty == {} && st.devs[i].marks == {}
  }

  ghost predicate SameDisks(st: State) { forall i :: 0 <= i < |st.devs| ==> st.devs[i].dest == st.devs[i].disk }

  lemma {:induction false} SettledSame(st: State)
    requires Inv(st) && Settled(st)
    ensures SameDisks(st)
  {
    forall i | 0 <= i < |st.devs|
      ensures st.devs[i].dest == st.devs[i].disk
    {
      assert DevShape(st.devs[i]);
      forall s | 0 <= s < |st.devs[i].disk|
        ensures st.devs[i].dest[s] == st.devs[i].disk[s]
      {
        assert Good(st, i, s);
      }
    }
  }

  /** Whatever the guest writes meanwhile and however the reads interleave: the counters count, and if the
      reads of each chunk complete in order, a migration that has settled leaves every destination disk
      equal to its source. */
  lemma {:induction false} MigrationCorrect(st: State, steps: seq<Step>, end: State)
    requires Init(st) && Runs(st, steps, end)
    ensures Sound(end) && end.readDone == |end.blks| && end.submitted == |end.pending|
    ensures InOrderRun(st, steps) ==> Inv(end) && (Settled(end) ==> SameDisks(end))
  {
    InitInv(st);
    RunSound(st, steps, end);
    if InOrderRun(st, steps) {
      RunKeeps(st, steps, end);
      if Settled(end) {
        SettledSame(end);
      }
    }
  }

  /** With no dirty chunk read while a read of it is pending, that holds for every order of completions. */
  lemma {:induction false} ExclusiveCorrect(st: State, steps: seq<Step>, end: State)
    requires Init(st) && Runs(st, steps, end) && ExclusiveRun(st, steps)
    ensures Inv(end) && (Settled(end) ==> SameDisks(end))
  {
    InitInv(st);
    ExclusiveInOrder(st, steps, end);
    MigrationCorrect(st, steps, end);
  }

  // ----- A bulk phase whose reads are waited for -----

  /** Every pending read is the only one of its chunk, and its chunk is marked in flight. */
  ghost predicate Flagged(st: State) {
    && Single(st.pending)
    && forall k :: 0 <= k < |st.pending| ==>
         st.pending[k].dev < |st.devs| && st.pending[k].chunk in st.devs[st.pending[k].dev].inflight
  }

  lemma {:induction false} FlaggedComplete(st: State, k: nat, ok: bool)
    requires Sound(st) && Flagged(st) && Enabled(st, Complete(k, ok))
    ensures Flagged(Apply(st, Complete(k, ok)))
  {
    hide LastIndex, InFlight, BaseShared, Full;
    var next := Apply(st, Complete(k, ok));
    RemoveSingle(st.pending, k);
    forall j | 0 <= j < |next.pending|
      ensures next.pending[j].dev < |next.devs| && next.pending[j].chunk in next.devs[next.pending[j].dev].inflight
    {
      var i := if j < k then j else j + 1;
      assert next.pending[j] == st.pending[i];
      assert !Matches(st.pending[if i < k then i else k], st.pending[if i < k then k else i].dev, st.pending[if i < k then k else i].chunk);
    }
  }

  /** After the bulk phase the in-flight bits keep it so. */
  lemma {:induction false} FlaggedStep(st: State, step: Step)
    requires Sound(st) && BulkDone(st) && Flagged(st) && Enabled(st, step)
    ensures Exclusive(st, step) && Flagged(Apply(st, step))
  {
    hide InFlight, BaseShared, Full;
    match step
    case Complete(k, ok) => FlaggedComplete(st, k, ok);
    case Dirty(i, c) =>
      assert Apply(st, step).pending == st.pending + [Blk(i, c, map[], true)];
    case _ =>
  }

  lemma {:induction false} FlaggedRun(st: State, steps: seq<Step>, end: State)
    requires Sound(st) && BulkDone(st) && Flagged(st) && Runs(st, steps, end)
    ensures ExclusiveRun(st, steps)
    decreases |steps|
  {
    hide Apply, Enabled, Sound, Flagged, Exclusive, BulkDone;
    if steps != [] {
      FlaggedStep(st, steps[0]);
      StepSound(st, steps[0]);
      BulkStays(st, steps[0]);
      FlaggedRun(Apply(st, steps[0]), steps[1..], end);
    }
  }

  lemma {:induction false} NoDirtyExclusive(st: State, steps: seq<Step>)
    requires forall k :: 0 <= k < |steps| ==> !steps[k].Dirty?
    ensures ExclusiveRun(st, steps)
    decreases |steps|
  {
    hide Apply, Enabled;
    if steps != [] && Shaped(st) && Enabled(st, steps[0]) {
      NoDirtyExclusive(Apply(st, steps[0]), steps[1..]);
    }
  }

  /** If no dirty chunk is read before the bulk phase is over and its reads have completed, the migration is
      right whatever the order of completions. */
  lemma {:induction false} DrainedCorrect(init: State, bulk: seq<Step>, mid: State, rest: seq<Step>, end: State)
    requires Init(init) && Runs(init, bulk, mid) && (forall k :: 0 <= k < |bulk| ==> !bulk[k].Dirty?)
    requires BulkDone(mid) && mid.submitted == 0 && Runs(mid, rest, end)
    ensures Inv(end) && (Settled(end) ==> SameDisks(end))
  {
    NoDirtyExclusive(init, bulk);
    ExclusiveCorrect(init, bulk, mid);
    assert mid.pending == [];
    hide Inv, Runs, Shaped;
    InvSound(mid);
    FlaggedRun(mid, rest, end);
    ExclusiveInOrder(mid, rest, end);
    RunKeeps(mid, rest, end);
    if Settled(end) {
      SettledSame(end);
    }
  }

  lemma {:induction false} InvSound(st: State)
    requires Inv(st)
    ensures Sound(st)
  {
  }

  /** The devices differ at most in which chunks are marked in flight. */
  ghost predicate SameDevs(a: seq<Dev>, b: seq<Dev>) {
    |a| == |b| && forall i :: 0 <= i < |a| ==> a[i].(inflight := {}) == b[i].(inflight := {})
  }

  // ----- Sums over devices -----

  function Sum(f: Dev -> nat, devs: seq<Dev>): nat { if devs == [] then 0 else f(devs[0]) + Sum(f, devs[1..]) }

  lemma {:induction false} SumUpdate(f: Dev -> nat, devs: seq<Dev>, i: nat, d: Dev)
    requires i < |devs|
    ensures Sum(f, devs[i := d]) == Sum(f, devs) - f(devs[i]) + f(d)
  {
    if i == 0 {
      assert devs[0 := d][1..] == devs[1..];
    } else {
      SumUpdate(f, devs[1..], i - 1, d);
      assert devs[i := d][1..] == devs[1..][i - 1 := d];
    }
  }

  function DirtyChunks(d: Dev): nat { |d.dirty| }

  function MarkedChunks(d: Dev): nat { |d.marks| }

  function Unfinished(d: Dev): nat { if d.bulkCompleted then 0 else 1 }

  // ----- Stage 3 -----

  /** The destination's disk at the end of a stage 3 that finds the bulk phase over, the guest stopped and no
      read pending: the dirty chunks are sent, and whatever is still on blk_list is thrown away. */
  function Finished(d: Dev): seq<int>
    requires |d.disk| == |d.dest|
  {
    seq(|d.dest|, s requires 0 <= s < |d.dest| => if s / CHUNK in d.dirty then d.disk[s] else d.dest[s])
  }

  /** Every block left on blk_list is of a chunk that is dirty, and so sent again. */
  predicate LeftoversDirty(st: State, i: nat)
    requires i < |st.devs|
  {
    forall k :: 0 <= k < |st.blks| && st.blks[k].dev == i ==> st.blks[k].chunk in st.devs[i].dirty
  }

  /** The same state with another destination disk. */
  function WithDest(st: State, i: nat, dest: seq<int>): State
    requires i < |st.devs|
  {
    SetDev(st, i, st.devs[i].(dest := dest))
  }

  /** Stage 3 makes the disks equal, whatever the destination held. */
  ghost predicate FinishesSame(st: State, i: nat)
    requires i < |st.devs|
  {
    forall dest | |dest| == |st.devs[i].disk| && Inv(WithDest(st, i, dest)) ::
      Finished(st.devs[i].(dest := dest)) == st.devs[i].disk
  }

  lemma {:induction false} LeftoversFinish(st: State, i: nat)
    requires Inv(st) && i < |st.devs| && BulkDone(st) && st.pending == [] && st.devs[i].marks == {} && LeftoversDirty(st, i)
    ensures Finished(st.devs[i]) == st.devs[i].disk
  {
    var d := st.devs[i];
    assert DevShape(d);
    forall s | 0 <= s < |d.disk|
      ensures Finished(d)[s] == d.disk[s]
    {
      assert Good(st, i, s);
    }
  }

  /** A sector that a block on blk_list is to overwrite may hold anything. */
  lemma {:induction false} StaleSector(st: State, i: nat, k: nat, v: int) returns (s: nat)
    requires Inv(st) && i < |st.devs| && BulkDone(st) && st.pending == []
    requires k < |st.blks| && st.blks[k].dev == i
    ensures s == st.blks[k].chunk * CHUNK && s < |st.devs[i].dest| == |st.devs[i].disk|
    ensures Inv(WithDest(st, i, st.devs[i].dest[s := v]))
  {
    hide LastIndex;
    assert BlkShape(st, st.blks[k]) && DevShape(st.devs[i]);
    s := st.blks[k].chunk * CHUNK;
    var other := WithDest(st, i, st.devs[i].dest[s := v]);
    forall j, c: nat | 0 <= j < |other.devs|
      ensures InFlight(other, j, c)
    {
      assert InFlight(st, j, c);
    }
    assert Sound(other) by {
      assert forall j :: 0 <= j < |st.blks| ==> BlkShape(st, st.blks[j]);
      assert forall j :: 0 <= j < |st.devs| ==> DevShape(st.devs[j]) && BaseShared(st.devs[j]);
    }
    forall j, x | 0 <= j < |other.devs| && 0 <= x < |other.devs[j].disk|
      ensures Good(other, j, x)
    {
      assert Good(st, j, x);
      if j == i && x == s {
        assert Matches(st.blks[k], i, x / CHUNK);
      }
    }
  }

  lemma {:induction false} LeftoversLost(st: State, i: nat, k: nat)
    requires Inv(st) && i < |st.devs| && BulkDone(st) && st.pending == []
    requires k < |st.blks| && st.blks[k].dev == i && st.blks[k].chunk !in st.devs[i].dirty
    ensures !FinishesSame(st, i)
  {
    hide Inv, Finished;
    var s := StaleSector(st, i, k, 0);
    var v := st.devs[i].disk[s] + 1;
    s := StaleSector(st, i, k, v);
    var dest := st.devs[i].dest[s := v];
    FinishedAt(st.devs[i].(dest := dest), s);
  }

  lemma {:induction false} FinishedAt(d: Dev, s: nat)
    requires |d.dest| == |d.disk| && s < |d.disk| && s / CHUNK !in d.dirty
    ensures Finished(d)[s] == d.dest[s]
  {
  }

  lemma {:induction false} LeftoversAlways(st: State, i: nat, dest: seq<int>)
    requires i < |st.devs| && |dest| == |st.devs[i].disk| && Inv(WithDest(st, i, dest))
    requires BulkDone(st) && st.pending == [] && st.devs[i].marks == {} && LeftoversDirty(st, i)
    ensures Finished(st.devs[i].(dest := dest)) == st.devs[i].disk
  {
    hide Inv, Finished;
    LeftoversFinish(WithDest(st, i, dest), i);
  }

  /** Stage 3 makes the disks equal exactly when every block its flush left unsent is of a dirty chunk; so
      always when the flush was not cut short. */
  lemma {:induction false} FinishExact(st: State, i: nat)
    requires Inv(st) && i < |st.devs| && BulkDone(st) && st.pending == [] && st.devs[i].marks == {}
    ensures LeftoversDirty(st, i) <==> FinishesSame(st, i)
    ensures st.blks == [] ==> LeftoversDirty(st, i)
  {
    hide Inv, Finished;
    if LeftoversDirty(st, i) {
      forall dest | |dest| == |st.devs[i].disk| && Inv(WithDest(st, i, dest))
        ensures Finished(st.devs[i].(dest := dest)) == st.devs[i].disk
      {
        LeftoversAlways(st, i, dest);
      }
    } else {
      var k :| 0 <= k < |st.blks| && st.blks[k].dev == i && st.blks[k].chunk !in st.devs[i].dirty;
      LeftoversLost(st, i, k);
    }
  }

  // ----- Inputs on which the code is wrong -----

  /** A disk of one sector, before the bulk phase or after it. */
  function OneSector(disk: int, dest: int, dirty: set<nat>, inflight: set<nat>, marks: set<nat>, reached: bool): Dev {
    Dev(false, [disk], [true], [dest], dirty, inflight, marks, if reached then 1 else 0, reached)
  }

  lemma {:induction false} RunNone(st: State)
    ensures Runs(st, [], st)
  {
  }

  lemma {:induction false} RunStep(st: State, step: Step, next: State, rest: seq<Step>, end: State)
    requires Shaped(st) && Enabled(st, step) && Apply(st, step) == next && Runs(next, rest, end)
    ensures Runs(st, [step] + rest, end)
  {
    assert ([step] + rest)[1..] == rest;
  }

  /** The bulk phase submits a read of the only sector, and it is read. */
  lemma {:induction false} ReadOne(v: int, w: int, rest: seq<Step>, end: State)
    requires Runs(State([OneSector(v, w, {}, {}, {}, true)], [Blk(0, 0, map[0 := v], true)], [], 1, 0), rest, end)
    ensures var st := State([OneSector(v, w, {}, {}, {}, false)], [], [], 0, 0);
            Init(st) && Runs(st, [Bulk(0), Sample(0, 0)] + rest, end)
  {
    hide Runs;
    var st := State([OneSector(v, w, {}, {}, {}, false)], [], [], 0, 0);
    var read := State([OneSector(v, w, {}, {}, {}, true)], [Blk(0, 0, map[], true)], [], 1, 0);
    var sampled := State([OneSector(v, w, {}, {}, {}, true)], [Blk(0, 0, map[0 := v], true)], [], 1, 0);
    assert BulkFrom(st.devs[0]) == 0 && ChunkEnd(st.devs[0], 0) == 1 && st.devs[0].dirty - {0} == {};
    assert Apply(st, Bulk(0)) == read;
    assert Apply(read, Sample(0, 0)) == sampled;
    RunStep(read, Sample(0, 0), sampled, rest, end);
    RunStep(st, Bulk(0), read, [Sample(0, 0)] + rest, end);
    assert [Bulk(0)] + ([Sample(0, 0)] + rest) == [Bulk(0), Sample(0, 0)] + rest;
  }

  /** A flush cut short by the rate limit loses the newest contents of a chunk that is not dirty. */
  lemma {:induction false} CutFlushLosesData()
    ensures var st := State([OneSector(7, 0, {}, {}, {}, false)], [], [], 0, 0);
            var end := State([OneSector(7, 0, {}, {}, {}, true)], [], [Blk(0, 0, map[0 := 7], true)], 0, 1);
            && Init(st) && Runs(st, [Bulk(0), Sample(0, 0)] + [Complete(0, true)], end)
            && BulkDone(end) && !LeftoversDirty(end, 0) && Finished(end.devs[0]) == [0]
  {
    hide Runs;
    var read := State([OneSector(7, 0, {}, {}, {}, true)], [Blk(0, 0, map[0 := 7], true)], [], 1, 0);
    var end := State([OneSector(7, 0, {}, {}, {}, true)], [], [Blk(0, 0, map[0 := 7], true)], 0, 1);
    assert Remove(read.pending, 0) == [] && read.devs[0].inflight - {0} == {};
    assert Apply(read, Complete(0, true)) == end;
    assert Runs(end, [], end) by {
      RunNone(end);
    }
    RunStep(read, Complete(0, true), end, [], end);
    assert [Complete(0, true)] + [] == [Complete(0, true)];
    ReadOne(7, 0, [Complete(0, true)], end);
  }

  /** The run that goes wrong when a read submitted by the bulk phase is overtaken by a read of the same
      chunk, rewritten meanwhile: the older contents are sent last. */
  function Overtaking(): seq<Step> {
    [Write(0, 0, 7), Mark(0, 0), Dirty(0, 0), Sample(1, 0), Complete(1, true), Complete(0, true), Flush, Flush]
  }

  lemma {:induction false} OvertakingLosesData()
    ensures var st := State([OneSector(5, 0, {}, {}, {}, false)], [], [], 0, 0);
            var end := State([OneSector(7, 5, {}, {}, {}, true)], [], [], 0, 0);
            && Init(st) && Runs(st, [Bulk(0), Sample(0, 0)] + Overtaking(), end)
            && Settled(end) && !SameDisks(end)
  {
    hide Runs, Apply;
    var stale, newest := Blk(0, 0, map[0 := 5], true), Blk(0, 0, map[0 := 7], true);
    var end := State([OneSector(7, 5, {}, {}, {}, true)], [], [], 0, 0);
    SendBoth(7, 0, newest, stale);
    ReadAgain(stale, 7, 0, [Flush, Flush], end);
    Rewrite(5, 7, 0, stale, [Sample(1, 0), Complete(1, true), Complete(0, true)] + [Flush, Flush], end);
    assert [Write(0, 0, 7), Mark(0, 0), Dirty(0, 0)] + ([Sample(1, 0), Complete(1, true), Complete(0, true)] + [Flush, Flush])
        == Overtaking();
    ReadOne(5, 0, Overtaking(), end);
    assert end.devs[0].dest[0] == 5 && end.devs[0].disk[0] == 7;
  }

  lemma {:induction false} SendBoth(v: int, w: int, a: Blk, b: Blk)
    requires a.dev == b.dev == 0 && a.chunk == b.chunk == 0 && a.ok && b.ok && a.data.Keys == b.data.Keys == {0}
    ensures Runs(State([OneSector(v, w, {}, {}, {}, true)], [], [a, b], 0, 2), [Flush, Flush],
                 State([OneSector(v, b.data[0], {}, {}, {}, true)], [], [], 0, 0))
  {
    hide Runs;
    var st := State([OneSector(v, w, {}, {}, {}, true)], [], [a, b], 0, 2);
    var one := State([OneSector(v, a.data[0], {}, {}, {}, true)], [], [b], 0, 1);
    var end := State([OneSector(v, b.data[0], {}, {}, {}, true)], [], [], 0, 0);
    assert Load([w], a.data) == [a.data[0]] && Load([a.data[0]], b.data) == [b.data[0]];
    assert Apply(st, Flush) == one && Apply(one, Flush) == end;
    RunNone(end);
    RunStep(one, Flush, end, [], end);
    RunStep(st, Flush, one, [Flush] + [], end);
    assert [Flush] + ([Flush] + []) == [Flush, Flush];
  }

  /** The read submitted last completes first. */
  lemma {:induction false} CompleteBoth(a: Blk, b: Blk, v: int, w: int, rest: seq<Step>, end: State)
    requires a.dev == b.dev == 0 && a.chunk == b.chunk == 0 && a.ok && b.ok && a.data.Keys == b.data.Keys == {0}
    requires Runs(State([OneSector(v, w, {}, {}, {}, true)], [], [b, a], 0, 2), rest, end)
    ensures Runs(State([OneSector(v, w, {}, {0}, {}, true)], [a, b], [], 2, 0), [Complete(1, true), Complete(0, true)] + rest, end)
  {
    hide Runs;
    var st := State([OneSector(v, w, {}, {0}, {}, true)], [a, b], [], 2, 0);
    var one := State([OneSector(v, w, {}, {}, {}, true)], [a], [b], 1, 1);
    var both := State([OneSector(v, w, {}, {}, {}, true)], [], [b, a], 0, 2);
    assert Remove(st.pending, 1) == [a] && {0} - {0} == {} && Remove(one.pending, 0) == [] && one.devs[0].inflight - {0} == {};
    assert Apply(st, Complete(1, true)) == one;
    assert Apply(one, Complete(0, true)) == both;
    RunStep(one, Complete(0, true), both, rest, end);
    RunStep(st, Complete(1, true), one, [Complete(0, true)] + rest, end);
    assert [Complete(1, true)] + ([Complete(0, true)] + rest) == [Complete(1, true), Complete(0, true)] + rest;
  }

  /** The second read of the sector completes before the first. */
  lemma {:induction false} ReadAgain(a: Blk, v: int, w: int, rest: seq<Step>, end: State)
    requires a.dev == 0 && a.chunk == 0 && a.ok && a.data.Keys == {0}
    requires Runs(State([OneSector(v, w, {}, {}, {}, true)], [], [Blk(0, 0, map[0 := v], true), a], 0, 2), rest, end)
    ensures Runs(State([OneSector(v, w, {}, {0}, {}, true)], [a, Blk(0, 0, map[], true)], [], 2, 0),
                 [Sample(1, 0), Complete(1, true), Complete(0, true)] + rest, end)
  {
    hide Runs;
    var st := State([OneSector(v, w, {}, {0}, {}, true)], [a, Blk(0, 0, map[], true)], [], 2, 0);
    var read := State([OneSector(v, w, {}, {0}, {}, true)], [a, Blk(0, 0, map[0 := v], true)], [], 2, 0);
    CompleteBoth(a, Blk(0, 0, map[0 := v], true), v, w, rest, end);
    assert Apply(st, Sample(1, 0)) == read;
    RunStep(st, Sample(1, 0), read, [Complete(1, true), Complete(0, true)] + rest, end);
    assert [Sample(1, 0)] + ([Complete(1, true), Complete(0, true)] + rest)
        == [Sample(1, 0), Complete(1, true), Complete(0, true)] + rest;
  }

  /** A dirty sector: a second read of it is submitted. */
  lemma {:induction false} SubmitAgain(v: int, w: int, a: Blk, rest: seq<Step>, end: State)
    requires a.dev == 0 && a.chunk == 0 && a.ok && a.data.Keys == {0}
    requires Runs(State([OneSector(v, w, {}, {0}, {}, true)], [a, Blk(0, 0, map[], true)], [], 2, 0), rest, end)
    ensures Runs(State([OneSector(v, w, {0}, {}, {}, true)], [a], [], 1, 0), [Dirty(0, 0)] + rest, end)
  {
    hide Runs;
    var marked := State([OneSector(v, w, {0}, {}, {}, true)], [a], [], 1, 0);
    var next := State([OneSector(v, w, {}, {0}, {}, true)], [a, Blk(0, 0, map[], true)], [], 2, 0);
    assert marked.devs[0].dirty - {0} == {} && marked.devs[0].inflight + {0} == {0};
    assert Apply(marked, Dirty(0, 0)) == next;
    RunStep(marked, Dirty(0, 0), next, rest, end);
  }

  /** The sector is rewritten, marked dirty, and a second read of it submitted. */
  lemma {:induction false} Rewrite(u: int, v: int, w: int, a: Blk, rest: seq<Step>, end: State)
    requires a.dev == 0 && a.chunk == 0 && a.ok && a.data.Keys == {0}
    requires Runs(State([OneSector(v, w, {}, {0}, {}, true)], [a, Blk(0, 0, map[], true)], [], 2, 0), rest, end)
    ensures Runs(State([OneSector(u, w, {}, {}, {}, true)], [a], [], 1, 0), [Write(0, 0, v), Mark(0, 0), Dirty(0, 0)] + rest, end)
  {
    hide Runs;
    var st := State([OneSector(u, w, {}, {}, {}, true)], [a], [], 1, 0);
    var written := State([OneSector(v, w, {}, {}, {0}, true)], [a], [], 1, 0);
    var marked := State([OneSector(v, w, {0}, {}, {}, true)], [a], [], 1, 0);
    SubmitAgain(v, w, a, rest, end);
    assert [u][0 := v] == [v] && [true][0 := true] == [true] && st.devs[0].marks + {0} == {0} && {0} - {0} == st.devs[0].marks;
    assert Apply(st, Write(0, 0, v)) == written;
    assert Apply(written, Mark(0, 0)) == marked;
    RunStep(written, Mark(0, 0), marked, [Dirty(0, 0)] + rest, end);
    RunStep(st, Write(0, 0, v), written, [Mark(0, 0)] + ([Dirty(0, 0)] + rest), end);
    assert [Write(0, 0, v)] + ([Mark(0, 0)] + ([Dirty(0, 0)] + rest)) == [Write(0, 0, v), Mark(0, 0), Dirty(0, 0)] + rest;
  }
}
