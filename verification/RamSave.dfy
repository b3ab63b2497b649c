/** The sender as the program has it: bits, cursor and list updated in place, word-wise page
    test, and scanning loops, each proved against its specification in RamSender. */
module RamSave {
  import opened Lists
  import opened NatBits
  import opened Wire
  import opened RamFormat
  import opened RamSender
  import Qsort

  // ----- is_dup_page -----

  const WORD_BYTES: nat := 8

  /** The unsigned long stored in these bytes, least significant first. */
  function LeWord(s: seq<Byte>): nat {
    if s == [] then 0 else s[0] + 256 * LeWord(s[1..])
  }

  /** SPLAT: the first byte times 0x0101010101010101. */
  function Splat(b: Byte): nat { b * ((WORD_LIMIT - 1) / 255) }

  function Repeated(b: Byte, n: nat): nat {
    if n == 0 then 0 else b + 256 * Repeated(b, n - 1)
  }

  lemma {:induction false} SplatRepeats(b: Byte)
    ensures Splat(b) == Repeated(b, 8)
  {
    assert Repeated(b, 1) == b;
    assert Repeated(b, 2) == 0x0101 * b;
    assert Repeated(b, 3) == 0x01_0101 * b;
    assert Repeated(b, 4) == 0x0101_0101 * b;
    assert Repeated(b, 5) == 0x01_0101_0101 * b;
    assert Repeated(b, 6) == 0x0101_0101_0101 * b;
    assert Repeated(b, 7) == 0x01_0101_0101_0101 * b;
    assert (WORD_LIMIT - 1) / 255 == 0x0101_0101_0101_0101;
  }

  /** A word equals a repeated byte exactly when each of its bytes does. */
  lemma {:induction false} WordEqual(s: seq<Byte>, b: Byte)
    ensures LeWord(s) == Repeated(b, |s|) <==> forall i :: 0 <= i < |s| ==> s[i] == b
  {
    if s != [] {
      WordEqual(s[1..], b);
      assert forall i :: 0 < i < |s| ==> s[i] == s[1..][i - 1];
      assert (forall i :: 0 <= i < |s| ==> s[i] == b)
        <==> s[0] == b && (forall i :: 0 <= i < |s[1..]| ==> s[1..][i] == b);
    }
  }

  /** The word-wise test holds exactly for pages that one byte can stand for. */
  method IsDupPage(page: Page) returns (r: bool)
    ensures r <==> Constant(page)
    ensures r <==> page == Fill(page[0])
  {
    var val := Splat(page[0]);
    SplatRepeats(page[0]);
    ConstantIsFill(page);
    var i := 0;
    while i < PAGE_SIZE / WORD_BYTES
      invariant 0 <= i <= PAGE_SIZE / WORD_BYTES
      invariant forall j :: 0 <= j < 8 * i ==> page[j] == page[0]
    {
      var word := page[8 * i..8 * i + 8];
      WordEqual(word, page[0]);
      if LeWord(word) != val {
        assert exists j :: 0 <= j < 8 && word[j] != page[0];
        return false;
      }
      assert forall j :: 8 * i <= j < 8 * i + 8 ==> page[j] == word[j - 8 * i];
      i := i + 1;
    }
    return true;
  }

  class Sender {
    var order: seq<Id>
    var ram: Memory
    var dirty: set<PageAddr>
    var log: set<PageAddr>
    var logging: bool
    var lastBlock: Option<nat>
    var lastPage: nat

    ghost function State(): Source
      reads this
    {
      Source(order, ram, dirty, log, logging, lastBlock, lastPage)
    }

    constructor (order: seq<Id>, ram: Memory)
      ensures State() == Source(order, ram, {}, {}, false, None, 0)
    {
      this.order, this.ram, dirty, log, logging := order, ram, {}, {}, false;
      lastBlock, lastPage := None, 0;
    }

    method PutPage(block: nat, page: nat, cont: bool) returns (bytes: seq<Byte>, sent: nat)
      requires ValidSource(State()) && block < |order| && page < |ram[order[block]]|
      ensures bytes == PageRecord(PageAddr(order[block], page), ram[order[block]][page], cont)
      ensures sent == if Constant(ram[order[block]][page]) then 1 else PAGE_SIZE
    {
      var p := ram[order[block]][page];
      var dup := IsDupPage(p);
      if dup {
        bytes := PutWord(Or(Or(page * PAGE_SIZE, if cont then FLAG_CONTINUE else 0), FLAG_COMPRESS));
        bytes := bytes + if cont then [] else PutName(order[block]);
        bytes := bytes + [p[0]];
        sent := 1;
      } else {
        bytes := PutWord(Or(Or(page * PAGE_SIZE, if cont then FLAG_CONTINUE else 0), FLAG_PAGE));
        bytes := bytes + if cont then [] else PutName(order[block]);
        bytes := bytes + p;
        sent := PAGE_SIZE;
      }
    }

    /** The do-while scan from the cursor. Started() is what makes it end: with a null cursor the
        loop's own test never stops it, but then the first page looked at is dirty. */
    method FindDirty() returns (block: nat, page: nat, found: bool)
      requires Started(State())
      ensures block < |order| && page < |ram[order[block]]|
      ensures ScanEndsAt(State(), block, page, found)
    {
      hide ScanAt, ScanEndsAt, Pages;
      block, page := if lastBlock.None? then 0 else lastBlock.value, lastPage;
      ghost var k := 0;
      ScanStart(State());
      ScanWithin(State(), block, page, k);
      while true
        invariant ScanAt(State(), block, page, k) && Within(State(), block, page) && k < |Pages(order, ram)|
        decreases |Pages(order, ram)| - k
      {
        if PageAddr(order[block], page) in dirty {
          ScanHit(State(), block, page, k);
          return block, page, true;
        }
        ScanNext(State(), block, page, k);
        page := page + 1;
        if page >= |ram[order[block]]| {
          page := 0;
          block := if block + 1 < |order| then block + 1 else 0;
        }
        k := k + 1;
        if !(Some(block) != lastBlock || page != lastPage) {
          return block, page, false;
        }
        ScanWithin(State(), block, page, k);
      }
    }

    method RamSaveBlock() returns (bytes: seq<Byte>, sent: nat)
      requires Started(State())
      modifies this`dirty, this`lastBlock, this`lastPage
      ensures Sent(State(), bytes, sent) == SaveBlock(old(State()))
    {
      ghost var s := State();
      bytes, sent := [], 0;
      var block, page, found := FindDirty();
      ScanDecides(s, block, page, found);
      if found {
        dirty := dirty - {PageAddr(order[block], page)};
        assert ValidSource(State());
        bytes, sent := PutPage(block, page, Some(block) == lastBlock);
      }
      lastBlock, lastPage := Some(block), page;
    }

    method CountBlock(id: Id) returns (count: nat)
      requires id in ram
      ensures count == |(set a | a in dirty && a.id == id && a.page < |ram[id]|)|
    {
      count := 0;
      var addr := 0;
      ghost var seen: set<PageAddr> := {};
      while addr < |ram[id]|
        invariant 0 <= addr <= |ram[id]|
        invariant seen == set a | a in dirty && a.id == id && a.page < addr
        invariant count == |seen|
      {
        if PageAddr(id, addr) in dirty {
          count := count + 1;
          seen := seen + {PageAddr(id, addr)};
        }
        addr := addr + 1;
      }
    }

    /** The count of dirty pages, by walking every page of every block. */
    method RamSaveRemaining() returns (count: nat)
      requires ValidSource(State())
      ensures count == |dirty|
    {
      count := 0;
      var block := 0;
      while block < |order|
        invariant 0 <= block <= |order|
        invariant count == |DirtyIn(State(), order[..block])|
      {
        var id := order[block];
        var here := CountBlock(id);
        CountSplit(State(), block);
        count := count + here;
        block := block + 1;
      }
      AllCounted(State());
    }

    method BytesTotalOf() returns (total: nat)
      requires ValidSource(State())
      ensures total == BytesTotal(order, ram)
    {
      total := 0;
      var block := 0;
      while block < |order|
        invariant 0 <= block <= |order|
        invariant total + BytesTotal(order[block..], ram) == BytesTotal(order, ram)
      {
        assert order[block..][1..] == order[block + 1..];
        total := total + |ram[order[block]]| * PAGE_SIZE;
        block := block + 1;
      }
    }

    method SetAllDirty()
      requires ValidSource(State())
      modifies this`dirty
      ensures dirty == AllPages(ram)
    {
      var block := 0;
      while block < |order|
        invariant 0 <= block <= |order|
        invariant forall a :: a in dirty ==> InMemory(a, ram)
        invariant forall a :: InMemory(a, ram) && a.id in order[..block] ==> a in dirty
      {
        var id := order[block];
        var addr := 0;
        while addr < |ram[id]|
          invariant 0 <= addr <= |ram[id]|
          invariant forall a :: a in dirty ==> InMemory(a, ram)
          invariant forall a :: InMemory(a, ram) && a.id in order[..block] ==> a in dirty
          invariant forall a: PageAddr :: a.id == id && a.page < addr ==> a in dirty
        {
          if PageAddr(id, addr) !in dirty {
            dirty := dirty + {PageAddr(id, addr)};
          }
          addr := addr + 1;
        }
        block := block + 1;
      }
      assert forall a :: InMemory(a, ram) ==> a.id in order[..block];
    }

    method GuestWrites(ws: seq<GuestWrite>)
      requires ValidSource(State())
      modifies this`ram, this`dirty, this`log
      ensures State() == Writes(old(State()), ws)
    {
      var i := 0;
      while i < |ws|
        invariant 0 <= i <= |ws|
        invariant Writes(State(), ws[i..]) == Writes(old(State()), ws)
      {
        assert ws[i..][1..] == ws[i + 1..];
        var w := ws[i];
        if w.addr.id in ram && w.addr.page < |ram[w.addr.id]| {
          ram := WritePage(ram, w.addr, w.page);
          if logging {
            if w.viaLog { log := log + {w.addr}; } else { dirty := dirty + {w.addr}; }
          }
        }
        i := i + 1;
      }
    }

    method PutBlockList() returns (bytes: seq<Byte>)
      requires ValidSource(State())
      ensures bytes == Header(State())
    {
      var total := BytesTotalOf();
      bytes := PutWord(Or(total, FLAG_MEM_SIZE));
      var block := 0;
      while block < |order|
        invariant 0 <= block <= |order|
        invariant forall id :: id in order[block..] ==> id in ram && |id| < 256
        invariant bytes + BlockList(order[block..], ram) == Header(State())
      {
        var id := order[block];
        ghost var tail := BlockList(order[block + 1..], ram);
        assert order[block..][1..] == order[block + 1..];
        Reassociate(bytes, PutName(id), PutWord(|ram[id]| * PAGE_SIZE), tail);
        bytes := bytes + PutName(id) + PutWord(|ram[id]| * PAGE_SIZE);
        block := block + 1;
      }
      assert bytes + [] == bytes;
    }

    /** Stage 1's preparation: cursor, list order, dirty bits, logging, block list. */
    method BeginStage1() returns (bytes: seq<Byte>)
      requires ValidSource(State())
      modifies this
      ensures State() == Begin(old(State()))
      ensures Started(State()) && bytes == Header(State())
    {
      ghost var s := State();
      BeginStarts(s);
      lastBlock, lastPage := None, 0;
      order := Qsort.Sort(order, IdLess);
      SortKeeps(s, State());
      SetAllDirty();
      logging := true;
      bytes := PutBlockList();
    }

    /** The guest writes of each tick happen while the loop runs; the ticks' limits are what
        qemu_file_rate_limit answers. */
    method SendUnderRateLimit(ticks: seq<Tick>) returns (bytes: seq<Byte>, ret: int)
      requires Started(State())
      modifies this
      ensures Rate(State(), bytes, ret) == RateLoop(old(State()), ticks)
      ensures Started(State())
    {
      bytes, ret := [], 1;
      var i := 0;
      ghost var rate := RateLoop(State(), ticks);
      assert ticks[0..] == ticks;
      hide RateLoop, SaveBlock, Writes;
      while i < |ticks|
        invariant 0 <= i <= |ticks|
        invariant Started(State())
        invariant rate == Prepend(bytes, RateLoop(State(), ticks[i..]))
        invariant ret == 1
      {
        ghost var s := State();
        assert ticks[i..][0] == ticks[i] && ticks[i..][1..] == ticks[i + 1..];
        WritesValid(s, ticks[i].writes);
        RateLoopStep(s, ticks[i..]);
        GuestWrites(ticks[i].writes);
        if ticks[i].limit != 0 {
          return bytes, ticks[i].limit;
        }
        SaveBlockValid(State());
        var more, sent := RamSaveBlock();
        if sent == 0 {
          return bytes, 0;
        }
        PrependBoth(bytes, more, RateLoop(State(), ticks[i + 1..]));
        bytes := bytes + more;
        i := i + 1;
      }
      assert ticks[i..] == [];
      RateLoopEnd(State());
    }

    /** Stage 3: all remaining pages, regardless of rate limiting. */
    method SendRemaining() returns (bytes: seq<Byte>)
      requires Started(State())
      modifies this`dirty, this`lastBlock, this`lastPage
      ensures State() == FlushAll(old(State())).src && bytes == FlushAll(old(State())).bytes
    {
      bytes := [];
      ghost var all := FlushAll(State());
      while true
        invariant Started(State())
        invariant FlushAll(State()).src == all.src
        invariant bytes + FlushAll(State()).bytes == all.bytes
        decreases dirty
      {
        ghost var s := State();
        SaveBlockValid(s);
        SaveBlockComplete(s);
        FlushAllStep(s);
        var more, sent := RamSaveBlock();
        if sent == 0 { break; }
        PrependBoth(bytes, more, Rate(s, FlushAll(State()).bytes, 0));
        bytes := bytes + more;
      }
    }

    /** `soon` is whether the time expected for the rest is within the allowed downtime; the return value is
        negative when not ok, and otherwise 1 or 0 as `done` says. */
    method RamSaveLive(stage: int, ticks: seq<Tick>, soon: bool) returns (bytes: seq<Byte>, ok: bool, done: bool)
      requires ValidSource(State())
      requires stage >= 0 && stage != 1 ==> Started(State())
      modifies this
      ensures LiveResult(State(), bytes, ok) == SaveLive(old(State()), stage, ticks)
      ensures done <==> ok && stage == 2 && soon
    {
      bytes, ok, done := [], true, false;
      if stage < 0 {
        logging := false;
        return;
      }
      dirty, log := dirty + log, {};
      assert State() == Sync(old(State()));
      if stage == 1 {
        bytes := BeginStage1();
      }
      RateLoopValid(State(), ticks);
      var sent, ret := SendUnderRateLimit(ticks);
      bytes := bytes + sent;
      if ret < 0 {
        ok := false;
        return;
      }
      if stage == 3 {
        var all := SendRemaining();
        bytes := bytes + all;
        logging := false;
      }
      bytes := bytes + PutWord(FLAG_EOS);
      done := stage == 2 && soon;
    }
  }

  lemma {:induction false} Reassociate<T>(a: seq<T>, b: seq<T>, c: seq<T>, d: seq<T>)
    ensures a + (b + c + d) == a + b + c + d
  {
  }

  /** One step of the scan: the next page of the block, or the first of the next block. */
  lemma {:induction false} NextIndex(order: seq<Id>, ram: Memory, b: nat, p: nat)
    requires ValidMemory(order, ram) && b < |order| && p < |ram[order[b]]|
    ensures var p' := if p + 1 >= |ram[order[b]]| then 0 else p + 1;
            var b' := if p + 1 < |ram[order[b]]| then b else if b + 1 < |order| then b + 1 else 0;
            && p' < |ram[order[b']]|
            && var i := Index(order, ram, b, p) + 1;
               Index(order, ram, b', p') == if i == |Pages(order, ram)| then 0 else i
  {
    PagesAt(order, ram, b, p);
    IndexOfNextBlock(order, ram, b);
    if p + 1 < |ram[order[b]]| {
      PagesAt(order, ram, b, p + 1);
    } else if b + 1 < |order| {
      PagesAt(order, ram, b + 1, 0);
    }
  }

  /** Only one page has a given index. */
  lemma {:induction false} SameIndex(order: seq<Id>, ram: Memory, b: nat, p: nat, b': nat, p': nat)
    requires ValidMemory(order, ram)
    requires b < |order| && p < |ram[order[b]]| && b' < |order| && p' < |ram[order[b']]|
    ensures Index(order, ram, b, p) == Index(order, ram, b', p') <==> b == b' && p == p'
  {
    PagesAt(order, ram, b, p);
    PagesAt(order, ram, b', p');
  }

  /** The scan stopped on the first dirty page, or came back to the cursor having met none. */
  ghost predicate ScanEndsAt(s: Source, b: nat, p: nat, found: bool)
    requires ValidSource(s) && b < |s.order|
  {
    CursorInPages(s);
    var pages, c := Pages(s.order, s.ram), CursorIndex(s);
    var k := Scan(pages, s.dirty, c, 0);
    && (found <==> k < |pages|)
    && (found ==> At(pages, c, k) == PageAddr(s.order[b], p))
    && (!found ==> s.lastBlock == Some(b) && s.lastPage == p)
  }

  /** The dirty pages of these blocks. */
  ghost function DirtyIn(s: Source, ids: seq<Id>): set<PageAddr> { set a | a in s.dirty && a.id in ids }

  lemma {:induction false} CountSplit(s: Source, b: nat)
    requires ValidSource(s) && b < |s.order|
    ensures |DirtyIn(s, s.order[..b + 1])|
         == |DirtyIn(s, s.order[..b])| + |(set a | a in s.dirty && a.id == s.order[b] && a.page < |s.ram[s.order[b]]|)|
  {
    var before := DirtyIn(s, s.order[..b]);
    var added := set a | a in s.dirty && a.id == s.order[b] && a.page < |s.ram[s.order[b]]|;
    assert forall a :: a in s.dirty ==> InMemory(a, s.ram);
    assert s.order[..b + 1] == s.order[..b] + [s.order[b]];
    assert DirtyIn(s, s.order[..b + 1]) == before + added;
    assert before !! added;
  }

  lemma {:induction false} AllCounted(s: Source)
    requires ValidSource(s)
    ensures DirtyIn(s, s.order[..|s.order|]) == s.dirty
  {
    assert s.order[..|s.order|] == s.order;
    assert forall a :: a in s.dirty ==> InMemory(a, s.ram);
  }

  /** After k steps from the cursor the scan is at page p of block b, having met no dirty page. */
  ghost predicate ScanAt(s: Source, b: nat, p: nat, k: nat) {
    && Started(s) && b < |s.order| && p < |s.ram[s.order[b]]|
    && var pages, c := Pages(s.order, s.ram), CursorIndex(s);
    && c < |pages| && k < |pages|
    && (Index(s.order, s.ram, b, p) == if c + k < |pages| then c + k else c + k - |pages|)
    && Scan(pages, s.dirty, c, 0) == Scan(pages, s.dirty, c, k)
  }

  ghost predicate Within(s: Source, b: nat, p: nat) { b < |s.order| && s.order[b] in s.ram && p < |s.ram[s.order[b]]| }

  lemma {:induction false} ScanWithin(s: Source, b: nat, p: nat, k: nat)
    requires ScanAt(s, b, p, k)
    ensures Within(s, b, p) && k < |Pages(s.order, s.ram)|
  {
  }

  lemma {:induction false} ScanStart(s: Source)
    requires Started(s)
    ensures ScanAt(s, if s.lastBlock.None? then 0 else s.lastBlock.value, s.lastPage, 0)
  {
    CursorInPages(s);
  }

  lemma {:induction false} ScanHit(s: Source, b: nat, p: nat, k: nat)
    requires ScanAt(s, b, p, k) && PageAddr(s.order[b], p) in s.dirty
    ensures ScanEndsAt(s, b, p, true)
  {
    PagesAt(s.order, s.ram, b, p);
  }

  lemma {:induction false} ScanNext(s: Source, b: nat, p: nat, k: nat)
    requires ScanAt(s, b, p, k) && PageAddr(s.order[b], p) !in s.dirty
    ensures var p' := if p + 1 >= |s.ram[s.order[b]]| then 0 else p + 1;
            var b' := if p + 1 < |s.ram[s.order[b]]| then b else if b + 1 < |s.order| then b + 1 else 0;
            && Within(s, b', p')
            && if s.lastBlock == Some(b') && s.lastPage == p' then ScanEndsAt(s, b', p', false)
               else ScanAt(s, b', p', k + 1)
  {
    hide Pages, Index;
    assert InMemory(PageAddr(s.order[b], p), s.ram);
    var pages, c := Pages(s.order, s.ram), CursorIndex(s);
    PagesAt(s.order, s.ram, b, p);
    assert At(pages, c, k) !in s.dirty;
    NextIndex(s.order, s.ram, b, p);
    var p' := if p + 1 >= |s.ram[s.order[b]]| then 0 else p + 1;
    var b' := if p + 1 < |s.ram[s.order[b]]| then b else if b + 1 < |s.order| then b + 1 else 0;
    SameIndex(s.order, s.ram, b', p', s.lastBlock.value, s.lastPage);
  }

  lemma {:induction false} ScanDecides(s: Source, b: nat, p: nat, found: bool)
    requires ValidSource(s) && b < |s.order| && p < |s.ram[s.order[b]]|
    requires ScanEndsAt(s, b, p, found)
    ensures var a := PageAddr(s.order[b], p);
            SaveBlock(s) ==
            if found then
              Sent(s.(dirty := s.dirty - {a}, lastBlock := Some(b), lastPage := p),
                   PageRecord(a, s.ram[s.order[b]][p], s.lastBlock == Some(b)),
                   if Constant(s.ram[s.order[b]][p]) then 1 else PAGE_SIZE)
            else
              Sent(s.(lastBlock := Some(b), lastPage := p), [], 0)
  {
    hide PageRecord, Fill;
    ConstantIsFill(s.ram[s.order[b]][p]);
    assert s.order[IndexOf(s.order, s.order[b])] == s.order[b];
  }

  /** Sorting the list keeps the sender well formed. */
  lemma {:induction false} SortKeeps(s: Source, s': Source)
    requires ValidSource(s)
    requires s' == s.(order := Qsort.Sort(s.order, IdLess), lastBlock := None, lastPage := 0)
    ensures ValidSource(s')
  {
    BeginStarts(s);
    assert s'.order == Begin(s).order;
  }

  /** What the loop has sent so far, in front of what it has yet to send. */
  ghost function Prepend(bytes: seq<Byte>, rest: Rate): Rate {
    Rate(rest.src, bytes + rest.bytes, rest.ret)
  }

  lemma {:induction false} PrependBoth(a: seq<Byte>, b: seq<Byte>, rest: Rate)
    ensures Prepend(a, Prepend(b, rest)) == Prepend(a + b, rest)
  {
    assert a + (b + rest.bytes) == a + b + rest.bytes;
  }

  lemma {:induction false} RateLoopEnd(s: Source)
    requires ValidSource(s)
    ensures RateLoop(s, []) == Rate(s, [], 1)
  {
  }

  lemma {:induction false} RateLoopStep(s: Source, ticks: seq<Tick>)
    requires ValidSource(s) && ticks != []
    ensures var s1 := Writes(s, ticks[0].writes);
            && ValidSource(s1)
            && (ticks[0].limit != 0 ==> RateLoop(s, ticks) == Rate(s1, [], ticks[0].limit))
            && var sent := SaveBlock(s1);
            && ValidSource(sent.src)
            && (ticks[0].limit == 0 && sent.count == 0 ==> RateLoop(s, ticks) == Rate(sent.src, [], 0))
            && (ticks[0].limit == 0 && sent.count != 0 ==>
                  RateLoop(s, ticks) == Prepend(sent.bytes, RateLoop(sent.src, ticks[1..])))
  {
    WritesValid(s, ticks[0].writes);
    SaveBlockValid(Writes(s, ticks[0].writes));
  }

  lemma {:induction false} FlushAllStep(s: Source)
    requires ValidSource(s)
    ensures var sent := SaveBlock(s);
            && ValidSource(sent.src)
            && (sent.count == 0 ==> FlushAll(s) == sent)
            && (sent.count != 0 ==> FlushAll(s).src == FlushAll(sent.src).src
                                    && FlushAll(s).bytes == sent.bytes + FlushAll(sent.src).bytes)
  {
    SaveBlockValid(s);
    SaveBlockComplete(s);
  }
}
