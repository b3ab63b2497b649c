/** What the sending side of RAM migration does in detail, apart from what the receiver makes of it: the order of the
    blocks, which page is sent next and in how many bytes, when a rate-limited round ends, and when logging stops. */
module RamTurns {
  import opened Lists
  import opened NatBits
  import opened Wire
  import opened RamFormat
  import opened RamSender
  import Qsort

  // ----- The order of the blocks -----

  ghost predicate DifferAt(a: Id, b: Id, k: nat) { k < |a| && k < |b| && a[..k] == b[..k] && a[k] < b[k] }

  /** The order of strcmp: a prefix comes first, and otherwise the smaller byte at the first difference decides. */
  lemma {:induction false} IdLessIff(a: Id, b: Id)
    ensures IdLess(a, b) <==> a <= b || exists k: nat :: DifferAt(a, b, k)
    decreases |a|
  {
    hide DifferAt;
    if a != [] && b != [] {
      if a[0] == b[0] {
        IdLessIff(a[1..], b[1..]);
        assert a == [a[0]] + a[1..] && b == [b[0]] + b[1..];
        if k: nat :| DifferAt(a, b, k) {
          SameFirst(a, b, k);
        }
        if k: nat :| DifferAt(a[1..], b[1..], k) {
          SameFirst(a, b, k + 1);
        }
      } else {
        OtherFirst(a, b);
      }
    } else {
      forall k: nat
        ensures !DifferAt(a, b, k)
      {
        EmptyDiffers(a, b, k);
      }
    }
  }

  lemma {:induction false} EmptyDiffers(a: Id, b: Id, k: nat)
    requires a == [] || b == []
    ensures !DifferAt(a, b, k)
  {
  }

  lemma {:induction false} SameFirst(a: Id, b: Id, k: nat)
    requires a != [] && b != [] && a[0] == b[0]
    ensures DifferAt(a, b, k) <==> k > 0 && DifferAt(a[1..], b[1..], k - 1)
  {
    if 0 < k < |a| && k < |b| {
      assert a[..k] == [a[0]] + a[1..][..k - 1] && b[..k] == [b[0]] + b[1..][..k - 1];
      assert a[..k][1..] == a[1..][..k - 1] && b[..k][1..] == b[1..][..k - 1];
    }
  }

  lemma {:induction false} OtherFirst(a: Id, b: Id)
    requires a != [] && b != [] && a[0] != b[0]
    ensures !(a <= b) && ((exists k: nat :: DifferAt(a, b, k)) <==> a[0] < b[0])
  {
    assert DifferAt(a, b, 0) <==> a[0] < b[0];
    forall k: nat | k > 0
      ensures !DifferAt(a, b, k)
    {
      if k < |a| && k < |b| {
        assert a[..k][0] == a[0] && b[..k][0] == b[0];
      }
    }
  }

  /** Stage 1 puts the same blocks into that order. */
  lemma {:induction false} BeginSorts(s: Source, i: nat, j: nat)
    requires ValidSource(s) && i < j < |Begin(s).order|
    ensures multiset(Begin(s).order) == multiset(s.order) && IdLess(Begin(s).order[i], Begin(s).order[j])
  {
    IdLessPreorder();
    Qsort.SortCorrect(s.order, IdLess);
  }

  // ----- Which page is sent, and how -----

  /** The page sent is the first dirty one from the cursor on, in the order of the list and wrapping around. */
  lemma {:induction false} NextPage(s: Source) returns (k: nat)
    requires ValidSource(s) && s.dirty != {}
    ensures CursorIndex(s) < |Pages(s.order, s.ram)| && k < |Pages(s.order, s.ram)|
    ensures var pages, c := Pages(s.order, s.ram), CursorIndex(s);
            && At(pages, c, k) in s.dirty && SaveBlock(s) == SendPage(s, At(pages, c, k))
            && forall j :: 0 <= j < k ==> At(pages, c, j) !in s.dirty
  {
    CursorInPages(s);
    SaveBlockComplete(s);
    k := Scan(Pages(s.order, s.ram), s.dirty, CursorIndex(s), 0);
  }

  /** A record is a word, the name unless the block is that of the page before, and one byte for a page whose bytes
      are all the same or else the whole page; it counts as one byte or a page. */
  lemma {:induction false} RecordSize(s: Source, a: PageAddr)
    requires ValidSource(s) && a in s.dirty
    ensures InMemory(a, s.ram)
    ensures var sent, dup := SendPage(s, a), Constant(s.ram[a.id][a.page]);
            var again := s.lastBlock.Some? && s.order[s.lastBlock.value] == a.id;
            && |sent.bytes| == 8 + (if again then 0 else 1 + |a.id|) + (if dup then 1 else PAGE_SIZE)
            && sent.count == (if dup then 1 else PAGE_SIZE)
  {
    hide Or;
    assert InMemory(a, s.ram);
    ConstantIsFill(s.ram[a.id][a.page]);
    assert s.order[IndexOf(s.order, a.id)] == a.id;
  }

  // ----- What the guest writes -----

  /** The memory after these stores; stores outside it are not. */
  function Stored(ram: Memory, ws: seq<GuestWrite>): Memory
    decreases |ws|
  {
    if ws == [] then ram else
      var w := ws[0];
      Stored(if w.addr.id in ram && w.addr.page < |ram[w.addr.id]| then WritePage(ram, w.addr, w.page) else ram, ws[1..])
  }

  /** The guest's stores take effect in order, whether or not they are logged. */
  lemma {:induction false} WritesStore(s: Source, ws: seq<GuestWrite>)
    ensures Writes(s, ws).ram == Stored(s.ram, ws)
    decreases |ws|
  {
    if ws != [] {
      WritesStore(Write(s, ws[0]), ws[1..]);
    }
  }

  /** A store is recorded exactly while logging is on, for the next sync or at once, and only for its own page. */
  lemma {:induction false} WriteRecorded(s: Source, w: GuestWrite)
    requires InMemory(w.addr, s.ram)
    ensures var r := Write(s, w);
            && r.log == s.log + (if s.logging && w.viaLog then {w.addr} else {})
            && r.dirty == s.dirty + (if s.logging && !w.viaLog then {w.addr} else {})
  {
  }

  function AllWrites(ticks: seq<Tick>): seq<GuestWrite> {
    if ticks == [] then [] else ticks[0].writes + AllWrites(ticks[1..])
  }

  lemma {:induction false} StoredTwice(ram: Memory, a: seq<GuestWrite>, b: seq<GuestWrite>)
    ensures Stored(ram, a + b) == Stored(Stored(ram, a), b)
    decreases |a|
  {
    if a == [] {
      assert a + b == b;
    } else {
      var w := a[0];
      assert (a + b)[1..] == a[1..] + b;
      StoredTwice(if w.addr.id in ram && w.addr.page < |ram[w.addr.id]| then WritePage(ram, w.addr, w.page) else ram, a[1..], b);
    }
  }

  // ----- When a round ends -----

  /** The first n answers of the rate limiter let the loop go on. */
  ghost predicate GoesOn(ticks: seq<Tick>, n: nat) { n <= |ticks| && forall i :: 0 <= i < n ==> ticks[i].limit == 0 }

  lemma {:induction false} TurnSends(s: Source)
    requires ValidSource(s)
    ensures var sent := SaveBlock(s);
            && ValidSource(sent.src) && sent.src.ram == s.ram && (sent.count == 0 <==> s.dirty == {})
            && if s.dirty == {} then sent.src == s else |sent.bytes| >= 9
  {
    hide SaveBlock, SendPage;
    SaveBlockComplete(s);
    SaveBlockValid(s);
    if s.dirty != {} {
      var a :| a in s.dirty && SaveBlock(s) == SendPage(s, a);
      RecordSize(s, a);
    }
  }

  lemma {:induction false} StoredNone(ram: Memory)
    ensures Stored(ram, AllWrites([])) == ram
  {
  }

  lemma {:induction false} FirstWrites(ticks: seq<Tick>, k: nat)
    requires 0 < k <= |ticks|
    ensures AllWrites(ticks[..k]) == ticks[0].writes + AllWrites(ticks[1..][..k - 1])
    ensures k == 1 ==> AllWrites(ticks[..k]) == ticks[0].writes
  {
    assert ticks[..k][1..] == ticks[1..][..k - 1];
  }

  /** A round ends with the first answer that stops it, or when no page is dirty, and before that it sends a page for
      each answer; what it leaves in memory are the guest's stores up to then. */
  lemma {:induction false} RoundEnds(s: Source, ticks: seq<Tick>) returns (n: nat)
    requires ValidSource(s)
    ensures var r := RateLoop(s, ticks);
            && GoesOn(ticks, n) && |r.bytes| >= 9 * n
            && (|| (n == |ticks| && r.ret == 1)
                || (n < |ticks| && ticks[n].limit != 0 && r.ret == ticks[n].limit)
                || (n < |ticks| && ticks[n].limit == 0 && r.ret == 0 && r.src.dirty == {}))
            && r.src.ram == Stored(s.ram, AllWrites(ticks[..if n < |ticks| then n + 1 else n]))
    decreases |ticks|
  {
    hide SaveBlock, Writes, ValidSource, Stored;
    n := 0;
    if ticks == [] {
      StoredNone(s.ram);
    } else {
      WritesValid(s, ticks[0].writes);
      var s1 := Writes(s, ticks[0].writes);
      WritesStore(s, ticks[0].writes);
      FirstWrites(ticks, 1);
      TurnSends(s1);
      if ticks[0].limit == 0 && s1.dirty != {} {
        var m := RoundEnds(SaveBlock(s1).src, ticks[1..]);
        n := m + 1;
        var k := if n < |ticks| then n + 1 else n;
        FirstWrites(ticks, k);
        StoredTwice(s.ram, ticks[0].writes, AllWrites(ticks[1..][..k - 1]));
      }
    }
  }

  /** A call fails exactly if it is not a cancel and the answer that stops its round is an error; so it succeeds if no
      answer is one. */
  lemma {:induction false} LiveFails(s: Source, stage: int, ticks: seq<Tick>)
    requires ValidSource(s)
    ensures stage >= 0 && !SaveLive(s, stage, ticks).ok ==> exists i :: 0 <= i < |ticks| && ticks[i].limit < 0
    ensures stage < 0 ==> SaveLive(s, stage, ticks).ok
    ensures stage >= 0 ==> ValidSource(StartOf(s, stage)) && (SaveLive(s, stage, ticks).ok <==> RateLoop(StartOf(s, stage), ticks).ret >= 0)
  {
    hide RateLoop, FlushAll, Header;
    if stage >= 0 {
      if stage == 1 {
        BeginStarts(Sync(s));
      }
      var n := RoundEnds(StartOf(s, stage), ticks);
    }
  }

  /** The state a round starts from: what was logged is dirty, and in stage 1 everything is. */
  function StartOf(s: Source, stage: int): Source { if stage == 1 then Begin(Sync(s)) else Sync(s) }

  // ----- Logging -----

  lemma {:induction false} RateLoopLogging(s: Source, ticks: seq<Tick>)
    requires ValidSource(s)
    ensures RateLoop(s, ticks).src.logging == s.logging
    decreases |ticks|
  {
    hide SaveBlock, Writes;
    if ticks != [] {
      WritesValid(s, ticks[0].writes);
      var s1 := Writes(s, ticks[0].writes);
      SaveBlockValid(s1);
      if ticks[0].limit == 0 && SaveBlock(s1).count != 0 {
        RateLoopLogging(SaveBlock(s1).src, ticks[1..]);
      }
    }
  }

  /** Logging is on from stage 1 on, off after a cancel and after a stage 3 that succeeds, and otherwise as it was. A
      cancel sends nothing. */
  lemma {:induction false} LoggingStops(s: Source, stage: int, ticks: seq<Tick>)
    requires ValidSource(s)
    ensures var r := SaveLive(s, stage, ticks);
            && (stage < 0 ==> !r.src.logging && r.bytes == [] && r.ok && r.src.(logging := s.logging) == s)
            && (stage == 3 && r.ok ==> !r.src.logging)
            && (stage == 1 ==> r.src.logging)
            && (stage >= 0 && stage != 1 && (stage != 3 || !r.ok) ==> r.src.logging == s.logging)
  {
    hide RateLoop, FlushAll, Header;
    if stage >= 0 {
      if stage == 1 {
        BeginStarts(Sync(s));
      }
      RateLoopLogging(StartOf(s, stage), ticks);
    }
  }
}
