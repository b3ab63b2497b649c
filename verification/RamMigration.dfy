/** RAM migration end to end: whatever the guest writes while it runs, the destination that has
    loaded every section up to stage 3 holds the source's memory. */
module RamMigration {
  import opened Lists
  import opened NatBits
  import opened Wire
  import opened RamFormat
  import opened RamSender
  import opened RamReceiver
  import RamTurns

  /** The invariant of the protocol: every page is dirty, logged, or already equal at the
      destination, and the destination remembers the block the sender's cursor is in. */
  ghost predicate Coupled(s: Source, d: Dest) {
    && Started(s)
    && s.logging
    && ValidDest(d)
    && SameShape(s.ram, d.ram)
    && (forall a :: InMemory(a, s.ram) && a !in s.dirty && a !in s.log ==>
          s.ram[a.id][a.page] == d.ram[a.id][a.page])
    && (s.lastBlock.Some? ==> d.block == Some(s.order[s.lastBlock.value]))
  }

  // ----- One record -----

  function Deliver(d: Dest, a: PageAddr, p: Page): Dest
    requires a.id in d.ram && a.page < |d.ram[a.id]|
  {
    Dest(WritePage(d.ram, a, p), Some(a.id))
  }

  lemma {:induction false} PageFits(s: Source, a: PageAddr)
    requires ValidSource(s) && InMemory(a, s.ram)
    ensures a.page * PAGE_SIZE < WORD_LIMIT
  {
    var below := set i | 0 <= i <= a.page :: PageAddr(a.id, i);
    CountTo(a.id, a.page + 1);
    assert below == set i | 0 <= i < a.page + 1 :: PageAddr(a.id, i);
    assert below <= AllPages(s.ram);
    SubsetSize(below, AllPages(s.ram));
  }

  lemma {:induction false} CountTo(id: Id, n: nat)
    ensures |set i | 0 <= i < n :: PageAddr(id, i)| == n
  {
    if n != 0 {
      CountTo(id, n - 1);
      assert (set i | 0 <= i < n :: PageAddr(id, i))
          == (set i | 0 <= i < n - 1 :: PageAddr(id, i)) + {PageAddr(id, n - 1)};
    }
  }

  lemma {:induction false} SubsetSize<T>(a: set<T>, b: set<T>)
    requires a <= b
    ensures |a| <= |b|
  {
    if a != {} {
      var x :| x in a;
      SubsetSize(a - {x}, b - {x});
    }
  }

  /** The flags a page record can carry are told apart by the receiver's tests. */
  lemma {:induction false} FlagTests()
    ensures Or(0, FLAG_COMPRESS) == 0x02 && Or(0, FLAG_PAGE) == 0x08
    ensures Or(FLAG_CONTINUE, FLAG_COMPRESS) == 0x22 && Or(FLAG_CONTINUE, FLAG_PAGE) == 0x28
    ensures forall f :: f in {0x02, 0x08, 0x22, 0x28} ==>
              && And(f, FLAG_MEM_SIZE) == 0
              && And(f, FLAG_EOS) == 0
              && (And(f, FLAG_COMPRESS) != 0 <==> f in {0x02, 0x22})
              && (And(f, FLAG_PAGE) != 0 <==> f in {0x08, 0x28})
              && (And(f, FLAG_CONTINUE) != 0 <==> f in {0x22, 0x28})
    ensures And(FLAG_MEM_SIZE, FLAG_MEM_SIZE) != 0 && And(FLAG_MEM_SIZE, FLAG_EOS) == 0
    ensures And(FLAG_MEM_SIZE, FLAG_COMPRESS) == 0 && And(FLAG_MEM_SIZE, FLAG_PAGE) == 0
    ensures And(FLAG_EOS, FLAG_MEM_SIZE) == 0 && And(FLAG_EOS, FLAG_EOS) != 0
    ensures And(FLAG_EOS, FLAG_COMPRESS) == 0 && And(FLAG_EOS, FLAG_PAGE) == 0
  {
  }

  /** One turn of the receiver's loop, for a word whose offset and flags are known. */
  lemma {:induction false} RecordStep(d: Dest, page: nat, flags: nat, body: seq<Byte>, d': Dest, rest: seq<Byte>)
    requires ValidDest(d) && ValidDest(d')
    requires page * PAGE_SIZE < WORD_LIMIT && flags < PAGE_SIZE
    requires LoadBody(d, body, flags, page * PAGE_SIZE) == Ok(d', rest)
    ensures LoadRecords(d, PutWord(page * PAGE_SIZE + flags) + body)
         == if And(flags, FLAG_EOS) != 0 then Ok(d', rest) else LoadRecords(d', rest)
  {
    SplitWord(page, flags);
    GetPutWord(page * PAGE_SIZE + flags, body);
  }

  function RecordFlags(cont: bool, dup: bool): nat {
    if cont then (if dup then 0x22 else 0x28) else (if dup then 0x02 else 0x08)
  }

  lemma {:induction false} RecordWord(page: nat, cont: bool, dup: bool)
    ensures Or(Or(page * PAGE_SIZE, if cont then FLAG_CONTINUE else 0),
               if dup then FLAG_COMPRESS else FLAG_PAGE)
         == page * PAGE_SIZE + RecordFlags(cont, dup)
  {
    FlagTests();
    JoinWord(page, if cont then FLAG_CONTINUE else 0, if dup then FLAG_COMPRESS else FLAG_PAGE);
  }

  /** A page record, wherever it stands in the stream, delivers its page to its address:
      CONTINUE is only set when the receiver already has the block. */
  lemma {:induction false} RecordLoads(s: Source, d: Dest, a: PageAddr, rest: seq<Byte>)
    requires Coupled(s, d) && a in s.dirty
    ensures a.id in d.ram && a.page < |d.ram[a.id]|
    ensures LoadRecords(d, SendPage(s, a).bytes + rest)
         == LoadRecords(Deliver(d, a, s.ram[a.id][a.page]), rest)
  {
    assert InMemory(a, s.ram);
    PageFits(s, a);
    var p := s.ram[a.id][a.page];
    var cont := s.lastBlock == Some(IndexOf(s.order, a.id));
    assert cont ==> d.block == Some(a.id);
    PageRecordLoads(d, a, p, cont, rest);
  }

  lemma {:induction false} Assoc<T>(a: seq<T>, b: seq<T>, c: seq<T>, d: seq<T>)
    ensures a + b + c + d == a + (b + (c + d))
  {
  }

  lemma {:induction false} PageRecordLoads(d: Dest, a: PageAddr, p: Page, cont: bool, rest: seq<Byte>)
    requires ValidDest(d) && a.id in d.ram && a.page < |d.ram[a.id]| && ValidName(a.id)
    requires a.page * PAGE_SIZE < WORD_LIMIT
    requires cont ==> d.block == Some(a.id)
    ensures LoadRecords(d, PageRecord(a, p, cont) + rest) == LoadRecords(Deliver(d, a, p), rest)
  {
    hide LoadRecords, LoadBody, PutWord;
    var dup := p == Fill(p[0]);
    var flags := RecordFlags(cont, dup);
    RecordWord(a.page, cont, dup);
    FlagTests();
    BodyLoads(d, a, p, flags, cont, dup, rest);
    var name := if cont then [] else PutName(a.id);
    var payload := if dup then [p[0]] else p;
    RecordStep(d, a.page, flags, name + (payload + rest), Deliver(d, a, p), rest);
    Assoc(PutWord(a.page * PAGE_SIZE + flags), name, payload, rest);
  }

  lemma {:induction false} BodyLoads(d: Dest, a: PageAddr, p: Page, flags: nat, cont: bool, dup: bool, rest: seq<Byte>)
    requires ValidDest(d) && a.id in d.ram && a.page < |d.ram[a.id]| && ValidName(a.id)
    requires cont ==> d.block == Some(a.id)
    requires dup <==> p == Fill(p[0])
    requires flags == RecordFlags(cont, dup)
    ensures LoadBody(d, (if cont then [] else PutName(a.id)) + ((if dup then [p[0]] else p) + rest),
                     flags, a.page * PAGE_SIZE)
         == Ok(Deliver(d, a, p), rest)
  {
    hide And, Or, PutName, GetName, LoadHeader;
    FlagTests();
    var payload := if dup then [p[0]] else p;
    var s := (if cont then [] else PutName(a.id)) + (payload + rest);
    if !cont {
      GetPutName(a.id, payload + rest);
    } else {
      assert s == payload + rest;
    }
    assert FindHost(d, s, flags) == Found(Some(a.id), payload + rest);
    if dup {
      assert (payload + rest)[1..] == rest;
    } else {
      GetPutBuffer(p, rest);
    }
    assert a.page * PAGE_SIZE / PAGE_SIZE == a.page;
  }

  /** Sending a page and delivering it keeps the two sides coupled. */
  lemma {:induction false} DeliverCouples(s: Source, d: Dest, a: PageAddr)
    requires Coupled(s, d) && a in s.dirty
    requires a.id in d.ram && a.page < |d.ram[a.id]|
    ensures Coupled(SendPage(s, a).src, Deliver(d, a, s.ram[a.id][a.page]))
  {
    SendPageStarted(s, a);
    var s', d' := SendPage(s, a).src, Deliver(d, a, s.ram[a.id][a.page]);
    forall b | InMemory(b, s'.ram) && b !in s'.dirty && b !in s'.log
      ensures s'.ram[b.id][b.page] == d'.ram[b.id][b.page]
    {
      assert InMemory(b, d.ram);
    }
  }

  lemma {:induction false} WriteCouples(s: Source, d: Dest, w: GuestWrite)
    requires Coupled(s, d)
    ensures Coupled(Write(s, w), d)
  {
    WriteValid(s, w);
    var s' := Write(s, w);
    forall a | InMemory(a, s'.ram) && a !in s'.dirty && a !in s'.log
      ensures s'.ram[a.id][a.page] == d.ram[a.id][a.page]
    {
      assert InMemory(a, s.ram);
    }
  }

  lemma {:induction false} WritesCouple(s: Source, d: Dest, ws: seq<GuestWrite>)
    requires Coupled(s, d)
    ensures Coupled(Writes(s, ws), d)
    decreases |ws|
  {
    if ws != [] {
      WriteCouples(s, d, ws[0]);
      WritesCouple(Write(s, ws[0]), d, ws[1..]);
    }
  }

  // ----- The header -----

  lemma {:induction false} TotalOfPages(order: seq<Id>, ram: Memory)
    requires forall id :: id in order ==> id in ram
    requires Distinct(order)
    ensures BytesTotal(order, ram)
         == |set a | a in AllPages(ram) && a.id in order| * PAGE_SIZE
  {
    if order == [] {
      assert (set a | a in AllPages(ram) && a.id in order) == {};
    } else {
      var id, tail := order[0], order[1..];
      TotalOfPages(tail, ram);
      var here := set i | 0 <= i < |ram[id]| :: PageAddr(id, i);
      CountTo(id, |ram[id]|);
      assert id !in tail;
      var there := set a | a in AllPages(ram) && a.id in tail;
      assert here !! there;
      assert (set a | a in AllPages(ram) && a.id in order) == here + there;
    }
  }

  lemma {:induction false} TotalFits(s: Source)
    requires ValidMemory(s.order, s.ram)
    ensures BytesTotal(s.order, s.ram) < WORD_LIMIT
  {
    TotalOfPages(s.order, s.ram);
    assert (set a | a in AllPages(s.ram) && a.id in s.order) == AllPages(s.ram);
  }

  lemma {:induction false} TotalIsPages(order: seq<Id>, ram: Memory) returns (n: nat)
    requires forall id :: id in order ==> id in ram
    ensures BytesTotal(order, ram) == n * PAGE_SIZE
  {
    if order == [] {
      n := 0;
    } else {
      n := TotalIsPages(order[1..], ram);
      n := n + |ram[order[0]]|;
    }
  }

  /** The block list uses up the announced total exactly, with nothing left over. */
  lemma {:induction false} BlockListLoads(order: seq<Id>, ram: Memory, dst: Memory, rest: seq<Byte>)
    requires SameShape(ram, dst)
    requires forall id :: id in order ==> id in ram && |id| < 256 && ValidName(id) && ram[id] != []
    requires BytesTotal(order, ram) < WORD_LIMIT
    ensures LoadHeader(dst, BlockList(order, ram) + rest, BytesTotal(order, ram)) == Ok((), rest)
  {
    hide LoadHeader, PutName, PutWord;
    if order == [] {
      assert BlockList(order, ram) + rest == rest;
      NoBlocks(dst, rest);
    } else {
      var id, tail := order[0], order[1..];
      var length := |ram[id]| * PAGE_SIZE;
      BlockListLoads(tail, ram, dst, rest);
      var after := BlockList(tail, ram) + rest;
      assert BlockList(order, ram) + rest == PutName(id) + (PutWord(length) + after);
      EntryLoads(dst, id, after, BytesTotal(order, ram));
    }
  }

  lemma {:induction false} NoBlocks(dst: Memory, rest: seq<Byte>)
    ensures LoadHeader(dst, rest, 0) == Ok((), rest)
  {
  }

  lemma {:induction false} EntryLoads(dst: Memory, id: Id, after: seq<Byte>, total: nat)
    requires id in dst && ValidName(id) && 0 < |dst[id]| * PAGE_SIZE <= total < WORD_LIMIT
    ensures LoadHeader(dst, PutName(id) + (PutWord(|dst[id]| * PAGE_SIZE) + after), total)
         == LoadHeader(dst, after, total - |dst[id]| * PAGE_SIZE)
  {
    hide LoadHeader, PutName, PutWord, GetName, GetWord, Subtract;
    var length := |dst[id]| * PAGE_SIZE;
    SubtractExact(total, length);
    GetPutName(id, PutWord(length) + after);
    GetPutWord(length, after);
    EntryStep(dst, PutName(id) + (PutWord(length) + after), total, id, PutWord(length) + after, after);
  }

  lemma {:induction false} SubtractExact(a: nat, b: nat)
    requires b <= a < WORD_LIMIT
    ensures Subtract(a, b) == a - b
  {
  }

  lemma {:induction false} EntryStep(dst: Memory, s: seq<Byte>, total: nat, id: Id, s1: seq<Byte>, s2: seq<Byte>)
    requires total != 0 && id in dst
    requires GetName(s) == Got(id, s1)
    requires GetWord(s1) == Got(|dst[id]| * PAGE_SIZE, s2)
    ensures LoadHeader(dst, s, total) == LoadHeader(dst, s2, Subtract(total, |dst[id]| * PAGE_SIZE))
  {
  }

  lemma {:induction false} HeaderBytes(s: Source) returns (n: nat)
    requires ValidMemory(s.order, s.ram)
    ensures BytesTotal(s.order, s.ram) == n * PAGE_SIZE < WORD_LIMIT
    ensures Header(s) == PutWord(n * PAGE_SIZE + FLAG_MEM_SIZE) + BlockList(s.order, s.ram)
  {
    TotalFits(s);
    n := TotalIsPages(s.order, s.ram);
    JoinWord(n, 0, FLAG_MEM_SIZE);
  }

  lemma {:induction false} HeaderLoads(s: Source, d: Dest, rest: seq<Byte>)
    requires ValidMemory(s.order, s.ram) && ValidDest(d) && SameShape(s.ram, d.ram)
    ensures LoadRecords(d, Header(s) + rest) == LoadRecords(d, rest)
  {
    var n := HeaderBytes(s);
    var list := BlockList(s.order, s.ram);
    BlockListLoads(s.order, s.ram, d.ram, rest);
    HeaderStep(d, n, list, rest);
  }

  lemma {:induction false} HeaderStep(d: Dest, n: nat, list: seq<Byte>, rest: seq<Byte>)
    requires ValidDest(d) && n * PAGE_SIZE < WORD_LIMIT
    requires LoadHeader(d.ram, list + rest, n * PAGE_SIZE) == Ok((), rest)
    ensures LoadRecords(d, PutWord(n * PAGE_SIZE + FLAG_MEM_SIZE) + list + rest) == LoadRecords(d, rest)
  {
    HeaderBody(d, list + rest, n * PAGE_SIZE, rest);
    RecordStep(d, n, FLAG_MEM_SIZE, list + rest, d, rest);
    assert PutWord(n * PAGE_SIZE + FLAG_MEM_SIZE) + list + rest
        == PutWord(n * PAGE_SIZE + FLAG_MEM_SIZE) + (list + rest);
    FlagTests();
  }

  lemma {:induction false} HeaderBody(d: Dest, body: seq<Byte>, addr: nat, rest: seq<Byte>)
    requires ValidDest(d) && LoadHeader(d.ram, body, addr) == Ok((), rest)
    ensures LoadBody(d, body, FLAG_MEM_SIZE, addr) == Ok(d, rest)
  {
    FlagTests();
  }

  lemma {:induction false} EosLoads(d: Dest, rest: seq<Byte>)
    requires ValidDest(d)
    ensures LoadRecords(d, PutWord(FLAG_EOS) + rest) == Ok(d, rest)
  {
    FlagTests();
    RecordStep(d, 0, FLAG_EOS, rest, d, rest);
  }

  // ----- Whole calls -----

  /** Loading these bytes, whatever follows them, takes the destination from d to d'. */
  ghost predicate Loads(d: Dest, bytes: seq<Byte>, d': Dest) {
    && ValidDest(d) && ValidDest(d')
    && forall rest :: LoadRecords(d, bytes + rest) == LoadRecords(d', rest)
  }

  lemma {:induction false} LoadsNothing(d: Dest)
    requires ValidDest(d)
    ensures Loads(d, [], d)
  {
    forall rest ensures LoadRecords(d, [] + rest) == LoadRecords(d, rest) {
      assert [] + rest == rest;
    }
  }

  lemma {:induction false} LoadsBoth(d: Dest, a: seq<Byte>, d1: Dest, b: seq<Byte>, d2: Dest)
    requires Loads(d, a, d1) && Loads(d1, b, d2)
    ensures Loads(d, a + b, d2)
  {
    forall rest ensures LoadRecords(d, a + b + rest) == LoadRecords(d2, rest) {
      var whole := a + b + rest;
      Assoc(a, b, [], rest);
      assert a + b + [] == a + b && [] + rest == rest;
      assert whole == a + (b + rest);
      var mid := b + rest;
      assert LoadRecords(d, a + mid) == LoadRecords(d1, mid);
    }
  }

  lemma {:induction false} SaveBlockLoads(s: Source, d: Dest) returns (d': Dest)
    requires Coupled(s, d)
    ensures Coupled(SaveBlock(s).src, d')
    ensures Loads(d, SaveBlock(s).bytes, d')
  {
    SaveBlockComplete(s);
    if s.dirty == {} {
      d' := d;
      LoadsNothing(d);
    } else {
      var a :| a in s.dirty && SaveBlock(s) == SendPage(s, a);
      RecordLoads(s, d, a, []);
      d' := Deliver(d, a, s.ram[a.id][a.page]);
      DeliverCouples(s, d, a);
      forall rest ensures LoadRecords(d, SaveBlock(s).bytes + rest) == LoadRecords(d', rest) {
        RecordLoads(s, d, a, rest);
      }
    }
  }

  lemma {:induction false} RateLoopLoads(s: Source, d: Dest, ticks: seq<Tick>) returns (d': Dest)
    requires Coupled(s, d)
    ensures Coupled(RateLoop(s, ticks).src, d')
    ensures Loads(d, RateLoop(s, ticks).bytes, d')
    decreases |ticks|
  {
    d' := d;
    LoadsNothing(d);
    if ticks != [] {
      var s1 := Writes(s, ticks[0].writes);
      WritesCouple(s, d, ticks[0].writes);
      if ticks[0].limit == 0 {
        var d1 := SaveBlockLoads(s1, d);
        var sent := SaveBlock(s1);
        SaveBlockComplete(s1);
        if sent.count != 0 {
          d' := RateLoopLoads(sent.src, d1, ticks[1..]);
          LoadsBoth(d, sent.bytes, d1, RateLoop(sent.src, ticks[1..]).bytes, d');
        }
      }
    }
  }

  /** The guest is stopped: no writes during the call. */
  ghost predicate Quiet(ticks: seq<Tick>) {
    forall i :: 0 <= i < |ticks| ==> ticks[i].writes == []
  }

  lemma {:induction false} QuietRateLoop(s: Source, ticks: seq<Tick>)
    requires ValidSource(s) && Quiet(ticks)
    ensures RateLoop(s, ticks).src.ram == s.ram && RateLoop(s, ticks).src.log == s.log
    decreases |ticks|
  {
    if ticks != [] && ticks[0].limit == 0 {
      assert Writes(s, ticks[0].writes) == s;
      SaveBlockValid(s);
      if SaveBlock(s).count != 0 { QuietRateLoop(SaveBlock(s).src, ticks[1..]); }
    }
  }

  lemma {:induction false} FlushAllLoads(s: Source, d: Dest) returns (d': Dest)
    requires Coupled(s, d)
    ensures Coupled(FlushAll(s).src, d')
    ensures Loads(d, FlushAll(s).bytes, d')
    decreases s.dirty
  {
    var d1 := SaveBlockLoads(s, d);
    var sent := SaveBlock(s);
    SaveBlockValid(s);
    SaveBlockComplete(s);
    if sent.count == 0 {
      d' := d;
      LoadsNothing(d);
    } else {
      d' := FlushAllLoads(sent.src, d1);
      LoadsBoth(d, sent.bytes, d1, FlushAll(sent.src).bytes, d');
    }
  }

  lemma {:induction false} FlushAllCleans(s: Source)
    requires ValidSource(s)
    ensures var r := FlushAll(s).src; ValidSource(r) && r.dirty == {} && r.ram == s.ram && r.log == s.log
    decreases s.dirty
  {
    SaveBlockValid(s);
    SaveBlockComplete(s);
    if SaveBlock(s).count != 0 { FlushAllCleans(SaveBlock(s).src); }
  }

  lemma {:induction false} SyncCouples(s: Source, d: Dest)
    requires Coupled(s, d)
    ensures Coupled(Sync(s), d)
  {
  }

  lemma {:induction false} BeginCouples(s: Source, d: Dest)
    requires ValidSource(s) && ValidDest(d) && SameShape(s.ram, d.ram)
    ensures Coupled(Begin(s), d)
  {
    BeginStarts(s);
    forall a | InMemory(a, s.ram) ensures a in Begin(s).dirty {}
  }

  /** A successful call's section loads completely and leaves the two sides coupled; after a
      stage 3 during which the guest is stopped, the memories are equal. */
  lemma {:induction false} LiveLoads(s: Source, d: Dest, stage: int, ticks: seq<Tick>)
    returns (d': Dest)
    requires stage in {1, 2, 3}
    requires ValidSource(s) && ValidDest(d) && SameShape(s.ram, d.ram)
    requires stage != 1 ==> Coupled(s, d)
    requires SaveLive(s, stage, ticks).ok
    ensures ValidDest(d')
    ensures Load(d, SaveLive(s, stage, ticks).bytes, 4) == Ok(d', [])
    ensures stage != 3 ==> Coupled(SaveLive(s, stage, ticks).src, d')
    ensures stage == 3 && Quiet(ticks) ==> d'.ram == SaveLive(s, stage, ticks).src.ram == s.ram
  {
    var s0 := if stage == 1 then Begin(Sync(s)) else Sync(s);
    var header := if stage == 1 then BeginStarts(Sync(s)); Header(s0) else [];
    if stage == 1 {
      BeginCouples(Sync(s), d);
      forall rest ensures LoadRecords(d, header + rest) == LoadRecords(d, rest) { HeaderLoads(s0, d, rest); }
    } else {
      SyncCouples(s, d);
      LoadsNothing(d);
    }
    var rate := RateLoop(s0, ticks);
    d' := RateLoopLoads(s0, d, ticks);
    LoadsBoth(d, header, d, rate.bytes, d');
    if stage == 3 {
      var d1 := d';
      d' := FlushAllLoads(rate.src, d1);
      var all := FlushAll(rate.src);
      LoadsBoth(d, header + rate.bytes, d1, all.bytes, d');
      SectionLoads(d, header + rate.bytes + all.bytes, d');
      FlushAllCleans(rate.src);
      if Quiet(ticks) {
        QuietRateLoop(s0, ticks);
        EqualMemories(all.src, d');
      }
    } else {
      SectionLoads(d, header + rate.bytes, d');
    }
  }

  lemma {:induction false} SectionLoads(d: Dest, bytes: seq<Byte>, d': Dest)
    requires Loads(d, bytes, d')
    ensures Load(d, bytes + PutWord(FLAG_EOS), 4) == Ok(d', [])
  {
    EosLoads(d', []);
    assert PutWord(FLAG_EOS) + [] == PutWord(FLAG_EOS);
  }

  /** Nothing dirty and nothing logged: the memories are the same. */
  lemma {:induction false} EqualMemories(s: Source, d: Dest)
    requires Coupled(s, d) && s.dirty == {} && s.log == {}
    ensures s.ram == d.ram
  {
    forall id | id in s.ram
      ensures s.ram[id] == d.ram[id]
    {
      forall p | 0 <= p < |s.ram[id]|
        ensures s.ram[id][p] == d.ram[id][p]
      {
        assert InMemory(PageAddr(id, p), s.ram);
      }
    }
  }

  // ----- Whole runs -----

  datatype Event = Guest(w: GuestWrite) | Live(stage: int, ticks: seq<Tick>)

  datatype RunResult = RunResult(src: Source, sections: seq<seq<Byte>>, ok: bool)

  lemma {:induction false} LiveValid(s: Source, stage: int, ticks: seq<Tick>)
    requires ValidSource(s)
    ensures ValidSource(SaveLive(s, stage, ticks).src)
  {
    if stage >= 0 {
      if stage == 1 { BeginStarts(Sync(s)); }
      var s0 := if stage == 1 then Begin(Sync(s)) else Sync(s);
      RateLoopValid(s0, ticks);
      if stage == 3 { FlushAllCleans(RateLoop(s0, ticks).src); }
    }
  }

  /** Guest writes and ram_save_live calls in order, stopping at the first failing call. */
  function Run(s: Source, events: seq<Event>): RunResult
    requires ValidSource(s)
    decreases |events|
  {
    if events == [] then RunResult(s, [], true) else
    match events[0]
    case Guest(w) =>
      WriteValid(s, w);
      Run(Write(s, w), events[1..])
    case Live(stage, ticks) =>
      var live := SaveLive(s, stage, ticks);
      LiveValid(s, stage, ticks);
      if !live.ok then RunResult(live.src, [], false) else
        var r := Run(live.src, events[1..]);
        RunResult(r.src, [live.bytes] + r.sections, r.ok)
  }

  /** The rate limiter never answers this call with an error. */
  ghost predicate NoError(e: Event) { e.Live? ==> forall i :: 0 <= i < |e.ticks| ==> e.ticks[i].limit >= 0 }

  function Calls(events: seq<Event>): nat {
    if events == [] then 0 else (if events[0].Live? then 1 else 0) + Calls(events[1..])
  }

  /** A run fails only by an error of the rate limiter; if it does not fail, each call has sent a section. */
  lemma {:induction false} RunSucceeds(s: Source, events: seq<Event>)
    requires ValidSource(s)
    ensures (forall i :: 0 <= i < |events| ==> NoError(events[i])) ==> Run(s, events).ok
    ensures Run(s, events).ok ==> |Run(s, events).sections| == Calls(events)
    decreases |events|
  {
    hide SaveLive, Write, ValidSource;
    if events != [] {
      match events[0]
      case Guest(w) =>
        WriteValid(s, w);
        RunSucceeds(Write(s, w), events[1..]);
      case Live(stage, ticks) =>
        LiveValid(s, stage, ticks);
        RamTurns.LiveFails(s, stage, ticks);
        RunSucceeds(SaveLive(s, stage, ticks).src, events[1..]);
    }
  }

  /** The destination calls ram_load once for each section. */
  function LoadAll(d: Dest, sections: seq<seq<Byte>>): Result<Dest>
    requires ValidDest(d)
    decreases |sections|
  {
    if sections == [] then Ok(d, []) else
    match Load(d, sections[0], 4)
    case Err(e) => Err(e)
    case Ok(d', rest) =>
      LoadValid(d, sections[0]);
      if rest != [] then Err(EINVAL) else LoadAll(d', sections[1..])
  }

  lemma {:induction false} LoadValid(d: Dest, s: seq<Byte>)
    requires ValidDest(d)
    ensures var r := LoadRecords(d, s); r.Ok? ==> ValidDest(r.value)
    decreases |s|
  {
    var w := GetWord(s);
    if w.Got? {
      var flags, addr := And(w.value, PAGE_SIZE - 1), And(w.value, PAGE_MASK);
      BodyShrinks(d, w.rest, flags, addr);
      var b := LoadBody(d, w.rest, flags, addr);
      if b.Ok? && And(flags, FLAG_EOS) == 0 { LoadValid(b.value, b.rest); }
    }
  }

  /** Before completion: guest writes, iterations, and restarts. */
  ghost predicate Iterating(events: seq<Event>) {
    forall i :: 0 <= i < |events| ==> events[i].Guest? || events[i].stage in {1, 2}
  }

  /** Safety over every run: after any number of events, the destination that has loaded every
      section so far is coupled with the source. */
  lemma {:induction false} RunCoupled(s: Source, d: Dest, events: seq<Event>) returns (d': Dest)
    requires Coupled(s, d) && Iterating(events) && Run(s, events).ok
    ensures ValidDest(d') && LoadAll(d, Run(s, events).sections) == Ok(d', [])
    ensures Coupled(Run(s, events).src, d')
    decreases |events|
  {
    if events == [] {
      d' := d;
    } else {
      match events[0]
      case Guest(w) =>
        WriteCouples(s, d, w);
        d' := RunCoupled(Write(s, w), d, events[1..]);
      case Live(stage, ticks) =>
        var d1 := LiveLoads(s, d, stage, ticks);
        d' := RunCoupled(SaveLive(s, stage, ticks).src, d1, events[1..]);
    }
  }

  lemma {:induction false} RunAppend(s: Source, e1: seq<Event>, e2: seq<Event>)
    requires ValidSource(s) && Run(s, e1).ok
    ensures ValidSource(Run(s, e1).src)
    ensures var r := Run(Run(s, e1).src, e2);
            Run(s, e1 + e2) == RunResult(r.src, Run(s, e1).sections + r.sections, r.ok)
    decreases |e1|
  {
    hide SaveLive, Write;
    if e1 == [] {
      assert e1 + e2 == e2;
    } else {
      assert (e1 + e2)[1..] == e1[1..] + e2;
      match e1[0]
      case Guest(w) =>
        WriteValid(s, w);
        RunAppend(Write(s, w), e1[1..], e2);
      case Live(stage, ticks) =>
        LiveValid(s, stage, ticks);
        RunAppend(SaveLive(s, stage, ticks).src, e1[1..], e2);
    }
  }

  lemma {:induction false} LoadAllAppend(d: Dest, a: seq<seq<Byte>>, b: seq<seq<Byte>>)
    requires ValidDest(d)
    requires LoadAll(d, a).Ok? && ValidDest(LoadAll(d, a).value)
    ensures LoadAll(d, a + b) == LoadAll(LoadAll(d, a).value, b)
    decreases |a|
  {
    if a == [] {
      assert a + b == b;
    } else {
      assert (a + b)[1..] == a[1..] + b;
      LoadValid(d, a[0]);
      LoadAllAppend(Load(d, a[0], 4).value, a[1..], b);
    }
  }

  /** RAM migration is correct: for every source and destination with the same blocks, whatever
      the cursor, the dirty bits and the destination's memory were before, and whatever the guest
      writes and the rate limiter decides, a run of stage 1, any iterations, and a stage 3 with
      the guest stopped loads completely and leaves the destination with the source's memory. */
  lemma {:induction false} MigrationCorrect(s: Source, d: Dest, first: seq<Tick>, events: seq<Event>,
                                            last: seq<Tick>)
    requires ValidSource(s) && ValidDest(d) && SameShape(s.ram, d.ram)
    requires Iterating(events) && Quiet(last)
    requires Run(s, [Live(1, first)] + events + [Live(3, last)]).ok
    ensures var run := Run(s, [Live(1, first)] + events + [Live(3, last)]);
            var loaded := LoadAll(d, run.sections);
            loaded.Ok? && loaded.value.ram == run.src.ram
  {
    hide SaveLive, Load;
    var head := [Live(1, first)] + events;
    var prefix := RunPrefixOk(s, head, [Live(3, last)]);
    assert head[1..] == events;
    LiveValid(s, 1, first);
    var s1 := SaveLive(s, 1, first).src;
    var d1 := LiveLoads(s, d, 1, first);
    var d2 := RunCoupled(s1, d1, events);
    var s2 := Run(s1, events).src;
    assert prefix.src == s2;
    assert prefix.sections == [SaveLive(s, 1, first).bytes] + Run(s1, events).sections;
    assert LoadAll(d, prefix.sections) == Ok(d2, []);
    RunAppend(s, head, [Live(3, last)]);
    var d3 := LiveLoads(s2, d2, 3, last);
    var tail := Run(s2, [Live(3, last)]);
    assert tail.sections == [SaveLive(s2, 3, last).bytes];
    LoadAllAppend(d, prefix.sections, tail.sections);
    assert LoadAll(d2, tail.sections) == Ok(d3, []);
  }

  lemma {:induction false} RunPrefixOk(s: Source, e1: seq<Event>, e2: seq<Event>) returns (r: RunResult)
    requires ValidSource(s) && Run(s, e1 + e2).ok
    ensures Run(s, e1) == r && r.ok
    decreases |e1|
  {
    r := Run(s, e1);
    if e1 != [] {
      assert (e1 + e2)[1..] == e1[1..] + e2;
      match e1[0]
      case Guest(w) =>
        WriteValid(s, w);
        var _ := RunPrefixOk(Write(s, w), e1[1..], e2);
      case Live(stage, ticks) =>
        LiveValid(s, stage, ticks);
        var _ := RunPrefixOk(SaveLive(s, stage, ticks).src, e1[1..], e2);
    }
  }
}
