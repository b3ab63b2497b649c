/** The whole of block migration: the destination's disks of the machine are what block_load makes of the
    byte stream that the sender has written. */
module BlockTransfer {
  import opened BlockMigration
  import opened BlockSave
  import opened Lists
  import opened Sectors
  import opened Wire
  import BlockStream

  /** What a sector holds, as bytes. */
  type Encoding = int -> seq<Byte>

  /** These bytes are a disk of these sectors. */
  ghost predicate Encodes(enc: Encoding, bytes: seq<Byte>, sectors: seq<int>) {
    |bytes| == |sectors| * SECTOR_SIZE && forall s :: 0 <= s < |sectors| ==> BlockStream.SectorAt(bytes, s) == enc(sectors[s])
  }

  /** The receiver has a device of each name, holding these sectors. */
  ghost predicate Mirrors(enc: Encoding, names: seq<BlockStream.Name>, disks: BlockStream.Disks, dests: seq<seq<int>>) {
    && |names| == |dests| && Distinct(names)
    && forall i :: 0 <= i < |names| ==>
         && ValidName(names[i]) && names[i] in disks && Encodes(enc, disks[names[i]], dests[i])
         && |dests[i]| * SECTOR_SIZE < WORD_LIMIT
  }

  /** One blk_send: a chunk of a device and what was read of it. */
  datatype Send = Send(dev: nat, chunk: nat, data: map<nat, int>)

  /** The chunk is on the device, and all of it has been read. */
  ghost predicate Fits(dests: seq<seq<int>>, send: Send) {
    && send.dev < |dests| && send.chunk * CHUNK < |dests[send.dev]|
    && (forall s :: s in send.data ==> s / CHUNK == send.chunk)
    && forall s :: 0 <= s < |dests[send.dev]| && s / CHUNK == send.chunk ==> s in send.data
  }

  /** A record that carries it. What follows the last sector of the device in its buffer may be anything. */
  ghost predicate Carries(enc: Encoding, names: seq<BlockStream.Name>, r: BlockStream.Record, send: Send) {
    && r.Block? && send.dev < |names| && r.name == names[send.dev] && r.sector == send.chunk * CHUNK && |r.data| == BLOCK_SIZE
    && forall s :: s in send.data ==> BlockStream.SectorAt(r.data, s % CHUNK) == enc(send.data[s])
  }

  /** The stream carries these sends in order, with progress reports in between. */
  ghost predicate Stream(enc: Encoding, names: seq<BlockStream.Name>, rs: seq<BlockStream.Record>, sends: seq<Send>)
    decreases |rs|
  {
    if rs == [] then sends == []
    else if rs[0].Progress? then rs[0].percent <= 100 && Stream(enc, names, rs[1..], sends)
    else sends != [] && Carries(enc, names, rs[0], sends[0]) && Stream(enc, names, rs[1..], sends[1..])
  }

  function LoadOne(dests: seq<seq<int>>, send: Send): seq<seq<int>>
    requires send.dev < |dests|
  {
    dests[send.dev := Load(dests[send.dev], send.data)]
  }

  ghost predicate AllFit(dests: seq<seq<int>>, sends: seq<Send>) {
    forall k :: 0 <= k < |sends| ==> Fits(dests, sends[k])
  }

  ghost function LoadAll(dests: seq<seq<int>>, sends: seq<Send>): seq<seq<int>>
    requires AllFit(dests, sends)
    decreases |sends|
  {
    if sends == [] then dests else
      FitLater(dests, sends);
      LoadAll(LoadOne(dests, sends[0]), sends[1..])
  }

  lemma {:induction false} FitLater(dests: seq<seq<int>>, sends: seq<Send>)
    requires AllFit(dests, sends) && sends != []
    ensures Fits(dests, sends[0]) && AllFit(LoadOne(dests, sends[0]), sends[1..])
  {
    assert Fits(dests, sends[0]);
    var next := LoadOne(dests, sends[0]);
    assert forall i :: 0 <= i < |dests| ==> |next[i]| == |dests[i]|;
    forall k | 0 <= k < |sends[1..]|
      ensures Fits(next, sends[1..][k])
    {
      assert Fits(dests, sends[k + 1]);
    }
  }

  // ----- Loading the stream -----

  /** A sector of the chunk is in the record, any other stays. */
  lemma {:induction false} LoadsSector(enc: Encoding, names: seq<BlockStream.Name>, disks: BlockStream.Disks, dests: seq<seq<int>>,
                                       r: BlockStream.Record, send: Send, s: nat)
    requires Mirrors(enc, names, disks, dests) && Carries(enc, names, r, send) && Fits(dests, send)
    requires BlockStream.ValidRecord(disks, r) && s < |dests[send.dev]|
    ensures r.name in BlockStream.Applied(disks, r) && |BlockStream.Applied(disks, r)[r.name]| == |disks[r.name]|
    ensures (s + 1) * SECTOR_SIZE <= |disks[r.name]|
    ensures BlockStream.SectorAt(BlockStream.Applied(disks, r)[r.name], s) == enc(Load(dests[send.dev], send.data)[s])
  {
    assert Encodes(enc, disks[r.name], dests[send.dev]);
    BlockStream.AppliedSectors(disks, r, s);
    if s / CHUNK == send.chunk {
      assert s in send.data && s % CHUNK == s - r.sector;
    }
  }

  lemma {:induction false} RecordValid(enc: Encoding, names: seq<BlockStream.Name>, disks: BlockStream.Disks, dests: seq<seq<int>>,
                                       r: BlockStream.Record, send: Send)
    requires Mirrors(enc, names, disks, dests) && Carries(enc, names, r, send) && Fits(dests, send)
    ensures BlockStream.ValidRecord(disks, r)
  {
    assert Encodes(enc, disks[r.name], dests[send.dev]);
  }

  /** Loading a record does to the bytes what the send does to the sectors. */
  lemma {:induction false} RecordLoads(enc: Encoding, names: seq<BlockStream.Name>, disks: BlockStream.Disks, dests: seq<seq<int>>,
                                       r: BlockStream.Record, send: Send)
    requires Mirrors(enc, names, disks, dests) && Carries(enc, names, r, send) && Fits(dests, send)
    requires BlockStream.ValidRecord(disks, r)
    ensures Mirrors(enc, names, BlockStream.Applied(disks, r), LoadOne(dests, send))
  {
    hide Carries;
    var after, next := BlockStream.Applied(disks, r), LoadOne(dests, send);
    BlockStream.AppliedKeeps(disks, r);
    forall i | 0 <= i < |names|
      ensures Encodes(enc, after[names[i]], next[i])
    {
      if i == send.dev {
        DeviceLoads(enc, names, disks, dests, r, send);
      } else {
        OtherDevice(enc, names, disks, dests, r, send, i);
      }
    }
  }

  lemma {:induction false} DeviceLoads(enc: Encoding, names: seq<BlockStream.Name>, disks: BlockStream.Disks, dests: seq<seq<int>>,
                                       r: BlockStream.Record, send: Send)
    requires Mirrors(enc, names, disks, dests) && Carries(enc, names, r, send) && Fits(dests, send)
    requires BlockStream.ValidRecord(disks, r)
    ensures send.dev < |names| && r.name == names[send.dev] && r.name in BlockStream.Applied(disks, r)
    ensures Encodes(enc, BlockStream.Applied(disks, r)[r.name], Load(dests[send.dev], send.data))
  {
    assert Encodes(enc, disks[r.name], dests[send.dev]);
    BlockStream.AppliedKeeps(disks, r);
    forall s | 0 <= s < |dests[send.dev]|
      ensures BlockStream.SectorAt(BlockStream.Applied(disks, r)[r.name], s) == enc(Load(dests[send.dev], send.data)[s])
    {
      LoadsSector(enc, names, disks, dests, r, send, s);
    }
  }

  lemma {:induction false} OtherDevice(enc: Encoding, names: seq<BlockStream.Name>, disks: BlockStream.Disks, dests: seq<seq<int>>,
                                       r: BlockStream.Record, send: Send, i: nat)
    requires Mirrors(enc, names, disks, dests) && Carries(enc, names, r, send) && Fits(dests, send)
    requires BlockStream.ValidRecord(disks, r) && i < |names| && i != send.dev
    ensures names[i] in BlockStream.Applied(disks, r) && Encodes(enc, BlockStream.Applied(disks, r)[names[i]], dests[i])
  {
    assert names[i] != names[send.dev];
    assert Encodes(enc, disks[names[i]], dests[i]);
  }

  lemma {:induction false} ValidBefore(disks: BlockStream.Disks, r: BlockStream.Record, q: BlockStream.Record)
    requires BlockStream.ValidRecord(disks, r) && BlockStream.ValidRecord(BlockStream.Applied(disks, r), q)
    ensures BlockStream.ValidRecord(disks, q)
  {
    BlockStream.AppliedKeeps(disks, r);
  }

  lemma {:induction false} ValidFirst(disks: BlockStream.Disks, rs: seq<BlockStream.Record>)
    requires rs != [] && BlockStream.ValidRecord(disks, rs[0]) && BlockStream.AllValid(BlockStream.Applied(disks, rs[0]), rs[1..])
    ensures BlockStream.AllValid(disks, rs)
    ensures BlockStream.AppliedAll(disks, rs) == BlockStream.AppliedAll(BlockStream.Applied(disks, rs[0]), rs[1..])
  {
    hide BlockStream.Applied;
    forall k | 0 <= k < |rs|
      ensures BlockStream.ValidRecord(disks, rs[k])
    {
      if k > 0 {
        assert BlockStream.ValidRecord(BlockStream.Applied(disks, rs[0]), rs[1..][k - 1]);
        ValidBefore(disks, rs[0], rs[k]);
      }
    }
  }

  lemma {:induction false} StreamLoadsAll(enc: Encoding, names: seq<BlockStream.Name>, disks: BlockStream.Disks, dests: seq<seq<int>>,
                                          rs: seq<BlockStream.Record>, sends: seq<Send>)
    requires Mirrors(enc, names, disks, dests) && Stream(enc, names, rs, sends) && AllFit(dests, sends)
    ensures BlockStream.AllValid(disks, rs) && Mirrors(enc, names, BlockStream.AppliedAll(disks, rs), LoadAll(dests, sends))
    decreases |rs|
  {
    hide Mirrors, Carries, BlockStream.Applied;
    if rs != [] {
      if rs[0].Progress? {
        ProgressApplies(disks, rs[0]);
        StreamLoadsAll(enc, names, disks, dests, rs[1..], sends);
      } else {
        FitLater(dests, sends);
        RecordValid(enc, names, disks, dests, rs[0], sends[0]);
        RecordLoads(enc, names, disks, dests, rs[0], sends[0]);
        StreamLoadsAll(enc, names, BlockStream.Applied(disks, rs[0]), LoadOne(dests, sends[0]), rs[1..], sends[1..]);
      }
      ValidFirst(disks, rs);
    }
  }

  lemma {:induction false} ProgressApplies(disks: BlockStream.Disks, r: BlockStream.Record)
    requires r.Progress? && r.percent <= 100
    ensures BlockStream.ValidRecord(disks, r) && BlockStream.Applied(disks, r) == disks
  {
  }

  /** What is loaded in two parts. */
  lemma {:induction false} LoadTwice(dests: seq<seq<int>>, a: seq<Send>, b: seq<Send>)
    requires AllFit(dests, a) && AllFit(LoadAll(dests, a), b) && AllFit(dests, a + b)
    ensures LoadAll(dests, a + b) == LoadAll(LoadAll(dests, a), b)
    decreases |a|
  {
    hide Fits, LoadOne;
    if a == [] {
      assert a + b == b;
    } else {
      assert (a + b)[1..] == a[1..] + b;
      FitLater(dests, a);
      FitLater(dests, a + b);
      LoadTwice(LoadOne(dests, a[0]), a[1..], b);
    }
  }

  /** Loading changes no disk's size, so what fits fits before and after. */
  ghost predicate SameSizes(a: seq<seq<int>>, b: seq<seq<int>>) {
    |a| == |b| && forall i :: 0 <= i < |a| ==> |a[i]| == |b[i]|
  }

  lemma {:induction false} FitSame(a: seq<seq<int>>, b: seq<seq<int>>, sends: seq<Send>)
    requires SameSizes(a, b) && AllFit(a, sends)
    ensures AllFit(b, sends)
  {
    forall k | 0 <= k < |sends|
      ensures Fits(b, sends[k])
    {
      assert Fits(a, sends[k]);
    }
  }

  lemma {:induction false} FitBoth(dests: seq<seq<int>>, a: seq<Send>, b: seq<Send>)
    requires AllFit(dests, a) && AllFit(dests, b)
    ensures AllFit(dests, a + b)
  {
  }

  lemma {:induction false} LoadSizes(dests: seq<seq<int>>, sends: seq<Send>)
    requires AllFit(dests, sends)
    ensures SameSizes(dests, LoadAll(dests, sends))
    decreases |sends|
  {
    if sends != [] {
      FitLater(dests, sends);
      LoadSizes(LoadOne(dests, sends[0]), sends[1..]);
    }
  }

  // ----- What the sender sends -----

  function Dests(devs: seq<Dev>): (r: seq<seq<int>>)
    ensures |r| == |devs| && forall i :: 0 <= i < |r| ==> r[i] == devs[i].dest
  {
    seq(|devs|, i requires 0 <= i < |devs| => devs[i].dest)
  }

  function SourceDisks(devs: seq<Dev>): (r: seq<seq<int>>)
    ensures |r| == |devs| && forall i :: 0 <= i < |r| ==> r[i] == devs[i].disk
  {
    seq(|devs|, i requires 0 <= i < |devs| => devs[i].disk)
  }

  /** What one step of the machine sends. */
  function SentBy(st: State, step: Step): seq<Send> {
    if step.Flush? && st.blks != [] then [Send(st.blks[0].dev, st.blks[0].chunk, st.blks[0].data)] else []
  }

  /** What the steps of a run send. */
  ghost function Sends(st: State, steps: seq<Step>): seq<Send>
    decreases |steps|
  {
    if steps == [] || !Shaped(st) || !Enabled(st, steps[0]) then []
    else SentBy(st, steps[0]) + Sends(Apply(st, steps[0]), steps[1..])
  }

  lemma {:induction false} FlushSends(st: State)
    requires Sound(st) && Enabled(st, Flush)
    ensures AllFit(Dests(st.devs), SentBy(st, Flush))
    ensures Dests(Apply(st, Flush).devs) == LoadAll(Dests(st.devs), SentBy(st, Flush))
  {
    hide InFlight, BaseShared, Single;
    var b := st.blks[0];
    assert BlkShape(st, b) && DevShape(st.devs[b.dev]) && Full(st, b);
    var send := Send(b.dev, b.chunk, b.data);
    assert Fits(Dests(st.devs), send);
    assert LoadAll(Dests(st.devs), [send]) == LoadOne(Dests(st.devs), send) by {
      OnlyOne(Dests(st.devs), send);
    }
  }

  lemma {:induction false} OnlyOne(dests: seq<seq<int>>, send: Send)
    requires Fits(dests, send)
    ensures AllFit(dests, [send]) && LoadAll(dests, [send]) == LoadOne(dests, send)
  {
    assert [send][1..] == [];
  }

  lemma {:induction false} StepSends(st: State, step: Step)
    requires Sound(st) && Enabled(st, step)
    ensures Shaped(st) && AllFit(Dests(st.devs), SentBy(st, step))
    ensures Dests(Apply(st, step).devs) == LoadAll(Dests(st.devs), SentBy(st, step))
  {
    hide InFlight, BaseShared, Single, Full, Load;
    if step.Flush? {
      FlushSends(st);
    }
  }

  /** Up to any point of a run, the destination's disks are what loading everything sent so far makes of them. */
  lemma {:induction false} RunSends(st: State, steps: seq<Step>, end: State)
    requires Sound(st) && Runs(st, steps, end)
    ensures AllFit(Dests(st.devs), Sends(st, steps)) && LoadAll(Dests(st.devs), Sends(st, steps)) == Dests(end.devs)
    decreases |steps|
  {
    hide Apply, Enabled, Sound, SentBy, Shaped, Fits;
    if steps != [] {
      var next, d := Apply(st, steps[0]), Dests(st.devs);
      var a, b := SentBy(st, steps[0]), Sends(next, steps[1..]);
      StepSends(st, steps[0]);
      StepSound(st, steps[0]);
      RunSends(next, steps[1..], end);
      LoadMore(d, a, Dests(next.devs), b);
    }
  }

  lemma {:induction false} LoadMore(dests: seq<seq<int>>, a: seq<Send>, mid: seq<seq<int>>, b: seq<Send>)
    requires AllFit(dests, a) && mid == LoadAll(dests, a) && AllFit(mid, b)
    ensures AllFit(dests, a + b) && LoadAll(dests, a + b) == LoadAll(mid, b)
  {
    hide Fits, LoadOne;
    LoadSizes(dests, a);
    FitSame(mid, dests, b);
    FitBoth(dests, a, b);
    LoadTwice(dests, a, b);
  }

  // ----- Stage 3 -----

  /** These chunks, as device and chunk, are sent synchronously one after the other, each of them dirty. */
  ghost predicate Todo(st: State, todo: seq<(nat, nat)>)
    decreases |todo|
  {
    todo != [] ==>
      && todo[0].0 < |st.devs| && todo[0].1 in st.devs[todo[0].0].dirty
      && Todo(SendNow(st, todo[0].0, todo[0].1), todo[1..])
  }

  ghost function SyncAll(st: State, todo: seq<(nat, nat)>): State
    requires Todo(st, todo)
    decreases |todo|
  {
    if todo == [] then st else SyncAll(SendNow(st, todo[0].0, todo[0].1), todo[1..])
  }

  ghost function SyncSends(st: State, todo: seq<(nat, nat)>): seq<Send>
    requires Todo(st, todo)
    decreases |todo|
  {
    if todo == [] then [] else
      [Send(todo[0].0, todo[0].1, Whole(st.devs[todo[0].0], todo[0].1))]
      + SyncSends(SendNow(st, todo[0].0, todo[0].1), todo[1..])
  }

  lemma {:induction false} NowSends(flushed: State, st: State, i: nat, c: nat)
    requires Sound(flushed) && Sending(flushed, st) && i < |st.devs| && c in st.devs[i].dirty
    ensures Fits(Dests(st.devs), Send(i, c, Whole(st.devs[i], c)))
    ensures Dests(SendNow(st, i, c).devs) == LoadOne(Dests(st.devs), Send(i, c, Whole(st.devs[i], c)))
  {
    hide Sound, Sending, Load;
    Landed(flushed, st, i);
  }

  lemma {:induction false} SyncLoads(flushed: State, st: State, todo: seq<(nat, nat)>)
    requires Sound(flushed) && Sending(flushed, st) && Todo(st, todo)
    ensures AllFit(Dests(st.devs), SyncSends(st, todo)) && LoadAll(Dests(st.devs), SyncSends(st, todo)) == Dests(SyncAll(st, todo).devs)
    ensures Sending(flushed, SyncAll(st, todo))
    decreases |todo|
  {
    hide Sound, Sending, Fits, SendNow, LoadOne;
    if todo != [] {
      var i, c := todo[0].0, todo[0].1;
      var send := Send(i, c, Whole(st.devs[i], c));
      SendOne(flushed, st, i, c);
      NowSends(flushed, st, i, c);
      OnlyOne(Dests(st.devs), send);
      var next := SendNow(st, i, c);
      SyncLoads(flushed, next, todo[1..]);
      LoadMore(Dests(st.devs), [send], Dests(next.devs), SyncSends(next, todo[1..]));
    }
  }

  // ----- The whole migration -----

  /** Whatever the guest wrote until it was stopped: if reads completed in order, the flush of stage 3 left only
      blocks of dirty chunks, and the dirty chunks were then sent, block_load makes of the sections, one for
      each call of the sender, exactly the source's disks. */
  lemma {:induction false} StreamMigrates(enc: Encoding, names: seq<BlockStream.Name>, disks: BlockStream.Disks, start: State,
                                          steps: seq<Step>, flushed: State, todo: seq<(nat, nat)>,
                                          rss: seq<seq<BlockStream.Record>>)
    requires Init(start) && Runs(start, steps, flushed) && InOrderRun(start, steps) && AllLeftoversDirty(flushed)
    requires BulkDone(flushed) && flushed.pending == [] && forall i :: 0 <= i < |flushed.devs| ==> flushed.devs[i].marks == {}
    requires Todo(flushed, todo) && forall i :: 0 <= i < |SyncAll(flushed, todo).devs| ==> SyncAll(flushed, todo).devs[i].dirty == {}
    requires Mirrors(enc, names, disks, Dests(start.devs))
    requires Stream(enc, names, BlockStream.Joined(rss), Sends(start, steps) + SyncSends(flushed, todo))
    ensures var loaded := BlockStream.LoadSections(disks, BlockStream.SendSections(rss));
            loaded.Ok? && loaded.rest == [] && Mirrors(enc, names, loaded.disks, SourceDisks(flushed.devs))
  {
    hide Inv, Runs, InOrderRun, Sound, Mirrors, Fits, BlockStream.ValidRecord;
    MigrationCorrect(start, steps, flushed);
    InitInv(start);
    InvSound(start);
    RunSends(start, steps, flushed);
    SoundShaped(flushed);
    SendingStarts(flushed);
    SyncLoads(flushed, flushed, todo);
    var a, b := Sends(start, steps), SyncSends(flushed, todo);
    LoadMore(Dests(start.devs), a, Dests(flushed.devs), b);
    AllSent(flushed, SyncAll(flushed, todo));
    ClosedSame(start, steps, flushed);
    assert Dests(SyncAll(flushed, todo).devs) == SourceDisks(flushed.devs);
    StreamLoadsAll(enc, names, disks, Dests(start.devs), BlockStream.Joined(rss), a + b);
    BlockStream.SectionsLoad(disks, rss);
  }
}
