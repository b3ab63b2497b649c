/** The other half of BlockMigration's theorem: as soon as two reads of one chunk are pending, the guest
    and the disks can go on so that the migration settles with unequal disks. */
module BlockOvertake {
  import opened BlockMigration
  import opened Sectors

  predicate AllOk(blks: seq<Blk>) { forall k :: 0 <= k < |blks| ==> blks[k].ok }

  /** The guest's disks and their bulk phases are the same. */
  ghost predicate SameSource(a: State, b: State) {
    && |a.devs| == |b.devs|
    && forall i :: 0 <= i < |a.devs| ==> a.devs[i].disk == b.devs[i].disk && a.devs[i].bulkCompleted == b.devs[i].bulkCompleted
  }

  ghost predicate NoMarks(st: State) { forall i :: 0 <= i < |st.devs| ==> st.devs[i].marks == {} }

  ghost predicate NoneInFlight(st: State) { forall i :: 0 <= i < |st.devs| ==> st.devs[i].inflight == {} }

  ghost predicate NoneDirty(st: State) { forall i :: 0 <= i < |st.devs| ==> st.devs[i].dirty == {} }

  lemma {:induction false} RunThen(st: State, a: seq<Step>, mid: State, b: seq<Step>, end: State)
    requires Runs(st, a, mid) && Runs(mid, b, end)
    ensures Runs(st, a + b, end)
    decreases |a|
  {
    hide Apply, Enabled, Shaped;
    if a == [] {
      assert a + b == b;
    } else {
      RunThen(Apply(st, a[0]), a[1..], mid, b, end);
      assert (a + b)[1..] == a[1..] + b;
    }
  }

  /** One more step of a run. */
  lemma {:induction false} OneMore(st: State, steps: seq<Step>, mid: State, step: Step)
    requires Runs(st, steps, mid) && Sound(mid) && Enabled(mid, step)
    ensures Shaped(mid) && Runs(st, steps + [step], Apply(mid, step)) && Sound(Apply(mid, step))
  {
    hide Apply, Enabled, Runs, Shaped, InFlight, Full, Single, BaseShared, BulkDone;
    RunOn(st, steps, mid, step);
    StepSound(mid, step);
  }

  // ----- A pending read reads the rest of its chunk -----

  /** The k-th read has read more, and nothing else has changed. */
  ghost predicate ReadOn(st: State, end: State, k: nat) {
    && end.devs == st.devs && end.blks == st.blks && k < |st.pending| == |end.pending|
    && (forall j :: 0 <= j < |st.pending| && j != k ==> end.pending[j] == st.pending[j])
    && end.pending[k] == st.pending[k].(data := end.pending[k].data)
    && forall s :: s in st.pending[k].data ==> s in end.pending[k].data && end.pending[k].data[s] == st.pending[k].data[s]
  }

  lemma {:induction false} SampleOne(st: State, mid: State, k: nat, s: nat)
    requires ReadOn(st, mid, k) && Shaped(mid) && Enabled(mid, Sample(k, s))
    ensures ReadOn(st, Apply(mid, Sample(k, s)), k)
    ensures Apply(mid, Sample(k, s)).pending[k].data.Keys == mid.pending[k].data.Keys + {s}
  {
  }

  lemma {:induction false} ReadRest(st: State, k: nat) returns (steps: seq<Step>, end: State)
    requires Sound(st) && k < |st.pending|
    ensures Runs(st, steps, end) && Sound(end) && ReadOn(st, end, k)
    ensures end.pending[k].dev < |end.devs| && Full(end, end.pending[k])
  {
    hide Apply, Runs, InFlight, Single, BaseShared, BulkDone;
    assert BlkShape(st, st.pending[k]);
    var i, c := st.pending[k].dev, st.pending[k].chunk;
    var s := c * CHUNK;
    steps, end := [], st;
    RunNone(st);
    while s < ChunkEnd(st.devs[i], c)
      invariant c * CHUNK <= s && Runs(st, steps, end) && Sound(end) && ReadOn(st, end, k)
      invariant forall x :: c * CHUNK <= x < s ==> x in end.pending[k].data
    {
      if s !in end.pending[k].data {
        OneMore(st, steps, end, Sample(k, s));
        SampleOne(st, end, k, s);
        steps, end := steps + [Sample(k, s)], Apply(end, Sample(k, s));
      }
      s := s + 1;
    }
  }

  // ----- The guest's writes complete -----

  lemma {:induction false} MarkOne(st: State, i: nat, c: nat)
    requires Sound(st) && i < |st.devs| && c in st.devs[i].marks
    ensures Enabled(st, Mark(i, c))
    ensures var next := Apply(st, Mark(i, c));
            && Sound(next) && SameSource(st, next) && next.pending == st.pending && next.blks == st.blks
            && Sum(MarkedChunks, next.devs) < Sum(MarkedChunks, st.devs)
  {
    hide InFlight, Full, Single, BaseShared;
    assert DevShape(st.devs[i]);
    var next := Apply(st, Mark(i, c));
    StepSound(st, Mark(i, c));
    SumUpdate(MarkedChunks, st.devs, i, next.devs[i]);
    assert st.devs[i].marks == next.devs[i].marks + {c};
  }

  lemma {:induction false} MarkAll(st: State) returns (steps: seq<Step>, end: State)
    requires Sound(st)
    ensures Runs(st, steps, end) && Sound(end) && SameSource(st, end) && NoMarks(end)
    ensures end.pending == st.pending && end.blks == st.blks
    decreases Sum(MarkedChunks, st.devs)
  {
    hide Apply, Runs, Enabled, InFlight, Full, Single, BaseShared, Shaped, Sum;
    if NoMarks(st) {
      steps, end := [], st;
      RunNone(st);
    } else {
      var i :| 0 <= i < |st.devs| && st.devs[i].marks != {};
      var c :| c in st.devs[i].marks;
      MarkOne(st, i, c);
      var next := Apply(st, Mark(i, c));
      steps, end := MarkAll(next);
      RunStep(st, Mark(i, c), next, steps, end);
      steps := [Mark(i, c)] + steps;
    }
  }

  // ----- All pending reads but one complete -----

  lemma {:induction false} CompleteNext(st: State, k: nat) returns (steps: seq<Step>, end: State)
    requires Sound(st) && k < |st.pending| && AllOk(st.blks)
    ensures Runs(st, steps, end) && Sound(end) && SameDevs(st.devs, end.devs) && AllOk(end.blks)
    ensures end.pending == Remove(st.pending, k)
    ensures forall i :: 0 <= i < |st.devs| ==> end.devs[i].inflight <= st.devs[i].inflight
    ensures st.pending[k].dev < |st.devs| && st.pending[k].chunk !in end.devs[st.pending[k].dev].inflight
  {
    hide Runs, InFlight, Single, BaseShared;
    var mid: State;
    steps, mid := ReadRest(st, k);
    assert Remove(mid.pending, k) == Remove(st.pending, k);
    OneMore(st, steps, mid, Complete(k, true));
    steps, end := steps + [Complete(k, true)], Apply(mid, Complete(k, true));
  }

  /** No chunk of another pending read than the a-th is marked in flight. */
  ghost predicate OthersLanded(p: seq<Blk>, a: nat, end: State) {
    forall k :: 0 <= k < |p| && k != a && p[k].dev < |end.devs| ==> p[k].chunk !in end.devs[p[k].dev].inflight
  }

  lemma {:induction false} CompleteOthers(st: State, a: nat) returns (steps: seq<Step>, end: State)
    requires Sound(st) && a < |st.pending| && AllOk(st.blks)
    ensures Runs(st, steps, end) && Sound(end) && SameDevs(st.devs, end.devs) && AllOk(end.blks)
    ensures end.pending == [st.pending[a]] && OthersLanded(st.pending, a, end)
    ensures forall i :: 0 <= i < |st.devs| ==> end.devs[i].inflight <= st.devs[i].inflight
    decreases |st.pending|
  {
    hide Apply, Runs, Sound;
    if |st.pending| == 1 {
      steps, end := [], st;
      RunNone(st);
    } else {
      var k := if a == 0 then 1 else 0;
      var mid: State;
      steps, mid := CompleteNext(st, k);
      var b := if a == 0 then 0 else a - 1;
      assert mid.pending[b] == st.pending[a];
      var rest;
      rest, end := CompleteOthers(mid, b);
      RunThen(st, steps, mid, rest, end);
      steps := steps + rest;
      forall j | 0 <= j < |st.pending| && j != a && st.pending[j].dev < |end.devs|
        ensures st.pending[j].chunk !in end.devs[st.pending[j].dev].inflight
      {
        if j != k {
          var at := if j < k then j else j - 1;
          assert mid.pending[at] == st.pending[j];
        }
      }
    }
  }

  /** With one read pending, whose chunk is not marked in flight, no chunk is. */
  lemma {:induction false} AllLanded(st: State, b: Blk)
    requires Sound(st) && st.pending == [b] && b.dev < |st.devs| && b.chunk !in st.devs[b.dev].inflight
    ensures NoneInFlight(st)
  {
    forall i | 0 <= i < |st.devs|
      ensures st.devs[i].inflight == {}
    {
      forall c: nat
        ensures c !in st.devs[i].inflight
      {
        assert InFlight(st, i, c);
      }
    }
  }

  // ----- The dirty chunks are read again -----

  lemma {:induction false} SubmitOne(st: State, i: nat, c: nat)
    requires Sound(st) && BulkDone(st) && NoneInFlight(st) && NoMarks(st) && |st.pending| == 1
    requires i < |st.devs| && c in st.devs[i].dirty
    ensures Enabled(st, Dirty(i, c))
    ensures var next := Apply(st, Dirty(i, c));
            && Sound(next) && SameSource(st, next) && NoMarks(next) && next.blks == st.blks
            && |next.pending| == 2 && next.pending[0] == st.pending[0] && Matches(next.pending[1], i, c)
            && (forall j :: 0 <= j < |st.devs| ==> next.devs[j].inflight == if j == i then {c} else {})
            && Sum(DirtyChunks, next.devs) < Sum(DirtyChunks, st.devs)
  {
    hide InFlight, Full, Single, BaseShared;
    assert st.devs[i].inflight == {};
    var next := Apply(st, Dirty(i, c));
    StepSound(st, Dirty(i, c));
    SumUpdate(DirtyChunks, st.devs, i, next.devs[i]);
    assert st.devs[i].dirty == next.devs[i].dirty + {c};
  }

  lemma {:induction false} SameDirty(a: seq<Dev>, b: seq<Dev>)
    requires SameDevs(a, b)
    ensures Sum(DirtyChunks, a) == Sum(DirtyChunks, b)
  {
    if a != [] {
      assert a[0].(inflight := {}) == b[0].(inflight := {});
      assert SameDevs(a[1..], b[1..]);
      SameDirty(a[1..], b[1..]);
    }
  }

  lemma {:induction false} SameMeans(a: State, b: State)
    requires SameDevs(a.devs, b.devs)
    ensures SameSource(a, b) && (NoMarks(a) ==> NoMarks(b)) && (BulkDone(a) ==> BulkDone(b))
  {
    forall i | 0 <= i < |a.devs|
      ensures a.devs[i].disk == b.devs[i].disk && a.devs[i].bulkCompleted == b.devs[i].bulkCompleted
      ensures a.devs[i].marks == b.devs[i].marks
    {
      assert a.devs[i].(inflight := {}) == b.devs[i].(inflight := {});
    }
  }

  /** One dirty chunk is read and its read completes, while the pending read stays pending. */
  lemma {:induction false} ReadDirtyOne(st: State, i: nat, c: nat) returns (steps: seq<Step>, end: State)
    requires Sound(st) && BulkDone(st) && NoneInFlight(st) && NoMarks(st) && |st.pending| == 1 && AllOk(st.blks)
    requires i < |st.devs| && c in st.devs[i].dirty
    ensures Runs(st, steps, end) && Sound(end) && SameSource(st, end)
    ensures BulkDone(end) && NoneInFlight(end) && NoMarks(end) && end.pending == st.pending && AllOk(end.blks)
    ensures Sum(DirtyChunks, end.devs) < Sum(DirtyChunks, st.devs)
  {
    hide Apply, Runs, Enabled, Sound, Sum;
    SoundShaped(st);
    SubmitOne(st, i, c);
    var next := Apply(st, Dirty(i, c));
    steps, end := CompleteNext(next, 1);
    assert Remove(next.pending, 1) == st.pending;
    SameDirty(next.devs, end.devs);
    SameMeans(next, end);
    RunStep(st, Dirty(i, c), next, steps, end);
    steps := [Dirty(i, c)] + steps;
    forall j | 0 <= j < |end.devs|
      ensures end.devs[j].inflight == {}
    {
      assert end.devs[j].inflight <= next.devs[j].inflight;
    }
  }

  lemma {:induction false} ReadDirty(st: State) returns (steps: seq<Step>, end: State)
    requires Sound(st) && BulkDone(st) && NoneInFlight(st) && NoMarks(st) && |st.pending| == 1 && AllOk(st.blks)
    ensures Runs(st, steps, end) && Sound(end) && SameSource(st, end)
    ensures BulkDone(end) && NoneDirty(end) && NoMarks(end) && end.pending == st.pending && AllOk(end.blks)
    decreases Sum(DirtyChunks, st.devs)
  {
    hide Apply, Runs, Sound, Sum, NoneInFlight, NoMarks, AllOk, BulkDone;
    if NoneDirty(st) {
      steps, end := [], st;
      RunNone(st);
    } else {
      var i :| 0 <= i < |st.devs| && st.devs[i].dirty != {};
      var c :| c in st.devs[i].dirty;
      var mid: State;
      steps, mid := ReadDirtyOne(st, i, c);
      var rest;
      rest, end := ReadDirty(mid);
      RunThen(st, steps, mid, rest, end);
      steps := steps + rest;
    }
  }

  // ----- Everything is sent -----

  lemma {:induction false} SendOne(st: State, i: nat, s: nat)
    requires Sound(st) && AllOk(st.blks) && st.blks != [] && i < |st.devs| && s < |st.devs[i].disk|
    ensures Enabled(st, Flush) && |st.devs[i].dest| == |st.devs[i].disk|
    ensures var next := Apply(st, Flush);
            && Sound(next) && SameSource(st, next) && next.pending == st.pending && next.blks == st.blks[1..]
            && (NoMarks(st) ==> NoMarks(next)) && (NoneDirty(st) ==> NoneDirty(next)) && |next.devs[i].dest| == |st.devs[i].dest|
            && (st.blks[0].dev == i && s in st.blks[0].data ==> next.devs[i].dest[s] == st.blks[0].data[s])
  {
    hide InFlight, Full, Single, BaseShared;
    assert BlkShape(st, st.blks[0]) && DevShape(st.devs[i]);
    StepSound(st, Flush);
  }

  /** When everything has been sent, the last block of the list has had the last word. */
  lemma {:induction false} SendAll(st: State, i: nat, s: nat) returns (steps: seq<Step>, end: State)
    requires Sound(st) && BulkDone(st) && NoMarks(st) && NoneDirty(st) && st.pending == [] && AllOk(st.blks) && st.blks != []
    requires i < |st.devs| && s < |st.devs[i].disk|
    requires var last := st.blks[|st.blks| - 1]; last.dev == i && s in last.data
    ensures Runs(st, steps, end) && Settled(end) && SameSource(st, end)
    ensures |end.devs[i].dest| == |st.devs[i].disk| && end.devs[i].dest[s] == st.blks[|st.blks| - 1].data[s]
    decreases |st.blks|
  {
    hide Apply, Runs, Enabled, Sound;
    SoundShaped(st);
    SendOne(st, i, s);
    var next := Apply(st, Flush);
    if |st.blks| == 1 {
      steps, end := [], next;
      RunNone(next);
    } else {
      steps, end := SendAll(next, i, s);
    }
    RunStep(st, Flush, next, steps, end);
    steps := [Flush] + steps;
  }

  // ----- The whole continuation -----

  /** The disk has moved on from what the read holds of the first sector of its chunk. */
  ghost predicate Outdated(st: State, b: Blk) {
    && b.dev < |st.devs| && b.chunk * CHUNK < |st.devs[b.dev].disk| && b.chunk * CHUNK in b.data
    && b.data[b.chunk * CHUNK] != st.devs[b.dev].disk[b.chunk * CHUNK] && Full(st, b)
  }

  lemma {:induction false} StaysOutdated(st: State, next: State, b: Blk)
    requires Outdated(st, b) && SameSource(st, next)
    ensures Outdated(next, b)
  {
  }

  /** The read reads the rest of its chunk, and the guest writes something else over its first sector. */
  lemma {:induction false} Outdate(st: State, j: nat) returns (steps: seq<Step>, end: State)
    requires Sound(st) && BulkDone(st) && j < |st.pending|
    ensures Runs(st, steps, end) && Sound(end) && BulkDone(end) && end.blks == st.blks && |end.pending| == |st.pending|
    ensures forall k :: 0 <= k < |st.pending| ==> Matches(end.pending[k], st.pending[k].dev, st.pending[k].chunk)
    ensures Outdated(end, end.pending[j])
  {
    hide Runs, InFlight, Single, BaseShared;
    var mid: State;
    steps, mid := ReadRest(st, j);
    var b := mid.pending[j];
    assert BlkShape(mid, b) && DevShape(mid.devs[b.dev]);
    var write := Write(b.dev, b.chunk * CHUNK, b.data[b.chunk * CHUNK] + 1);
    OneMore(st, steps, mid, write);
    steps, end := steps + [write], Apply(mid, write);
  }

  /** The pending read of an outdated block completes last of all, and the migration settles. */
  lemma {:induction false} LastOfAll(st: State, b: Blk) returns (steps: seq<Step>, end: State)
    requires Sound(st) && BulkDone(st) && NoneDirty(st) && NoMarks(st) && AllOk(st.blks)
    requires st.pending == [b] && Outdated(st, b)
    ensures Runs(st, steps, end) && Settled(end) && !SameDisks(end)
  {
    hide Runs, InFlight, Single, BaseShared;
    RunNone(st);
    OneMore(st, [], st, Complete(0, true));
    var next := Apply(st, Complete(0, true));
    assert Remove(st.pending, 0) == [] && next.blks == st.blks + [b.(ok := true)];
    steps, end := SendAll(next, b.dev, b.chunk * CHUNK);
    RunThen(st, [] + [Complete(0, true)], next, steps, end);
    steps := [] + [Complete(0, true)] + steps;
  }

  /** From every reachable state in which two reads of one chunk are pending and no read has failed, the
      guest and the disks can go on so that the migration settles with unequal disks. */
  lemma {:induction false} OvertakingPossible(init: State, before: seq<Step>, st: State, j: nat, k: nat)
    returns (steps: seq<Step>, end: State)
    requires Init(init) && Runs(init, before, st) && AllOk(st.blks)
    requires j < k < |st.pending| && Matches(st.pending[j], st.pending[k].dev, st.pending[k].chunk)
    ensures Runs(st, steps, end) && Settled(end) && !SameDisks(end)
  {
    MigrationCorrect(init, before, st);
    assert BulkDone(st) by {
      assert !Single(st.pending);
    }
    hide Runs, Sound, BulkDone;
    var s1, s2, s3, s4;
    steps, s1 := Outdate(st, j);
    var rest;
    rest, s2 := MarkAll(s1);
    RunThen(st, steps, s1, rest, s2);
    steps := steps + rest;
    rest, s3 := CompleteOthers(s2, j);
    RunThen(st, steps, s2, rest, s3);
    steps := steps + rest;
    SameMeans(s2, s3);
    var b := s2.pending[j];
    StaysOutdated(s1, s2, b);
    StaysOutdated(s2, s3, b);
    assert Matches(s2.pending[k], b.dev, b.chunk);
    AllLanded(s3, b);
    BulkSame(s1, s2);
    BulkSame(s2, s3);
    rest, s4 := ReadDirty(s3);
    RunThen(st, steps, s3, rest, s4);
    steps := steps + rest;
    StaysOutdated(s3, s4, b);
    rest, end := LastOfAll(s4, b);
    RunThen(st, steps, s4, rest, end);
    steps := steps + rest;
  }

  lemma {:induction false} BulkSame(a: State, b: State)
    requires SameSource(a, b) && BulkDone(a)
    ensures BulkDone(b)
  {
  }
}
