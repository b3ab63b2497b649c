/** The sending side of RAM migration: is_dup_page, ram_save_block, ram_save_live. */
module RamSender {
  import opened Lists
  import opened NatBits
  import opened Wire
  import opened RamFormat
  import Qsort

  /** The RAM list, the migration dirty bits, the log the next sync merges into them, and the
      static cursor. A block pointer is its position in the list, which is reordered only while
      the cursor is null; the cursor's offset is counted in pages. */
  datatype Source = Source(order: seq<Id>, ram: Memory, dirty: set<PageAddr>,
                           log: set<PageAddr>, logging: bool,
                           lastBlock: Option<nat>, lastPage: nat)

  // ----- All pages in the order of the RAM list -----

  function BlockPages(id: Id, n: nat): (ps: seq<PageAddr>)
    ensures |ps| == n
  {
    seq(n, (i: nat) => PageAddr(id, i))
  }

  function Pages(order: seq<Id>, ram: Memory): seq<PageAddr>
    requires forall id :: id in order ==> id in ram
  {
    if order == [] then [] else
      var b := |order| - 1;
      Pages(order[..b], ram) + BlockPages(order[b], |ram[order[b]]|)
  }

  /** Where page p of the b-th block stands among all pages. */
  function Index(order: seq<Id>, ram: Memory, b: nat, p: nat): nat
    requires b <= |order|
    requires forall id :: id in order ==> id in ram
  {
    |Pages(order[..b], ram)| + p
  }

  lemma {:induction false} PagesAt(order: seq<Id>, ram: Memory, b: nat, p: nat)
    requires forall id :: id in order ==> id in ram
    requires b < |order| && p < |ram[order[b]]|
    ensures Index(order, ram, b, p) < |Pages(order, ram)|
    ensures Pages(order, ram)[Index(order, ram, b, p)] == PageAddr(order[b], p)
  {
    var last := |order| - 1;
    if b < last {
      assert order[..last][..b] == order[..b];
      PagesAt(order[..last], ram, b, p);
    }
  }

  /** Past a block's last page comes the next block's first. */
  lemma IndexOfNextBlock(order: seq<Id>, ram: Memory, b: nat)
    requires forall id :: id in order ==> id in ram
    requires b < |order|
    ensures Index(order, ram, b, |ram[order[b]]|) == Index(order, ram, b + 1, 0)
    ensures b + 1 == |order| ==> Index(order, ram, b + 1, 0) == |Pages(order, ram)|
  {
    assert order[..b + 1][..b] == order[..b];
    assert order[..|order|] == order;
  }

  lemma {:induction false} PagesInMemory(order: seq<Id>, ram: Memory)
    requires forall id :: id in order ==> id in ram
    ensures forall a: PageAddr :: a in Pages(order, ram) <==> a.id in order && a.page < |ram[a.id]|
  {
    if order != [] {
      var b := |order| - 1;
      PagesInMemory(order[..b], ram);
      forall a: PageAddr | a.id in order && a.page < |ram[a.id]|
        ensures a in Pages(order, ram)
      {
        if a.id == order[b] {
          assert BlockPages(order[b], |ram[order[b]]|)[a.page] == a;
        } else {
          assert a.id in order[..b];
        }
      }
    }
  }

  // ----- Well-formed senders -----

  function AllPages(ram: Memory): set<PageAddr> {
    set id, p | id in ram && 0 <= p < |ram[id]| :: PageAddr(id, p)
  }

  /** What qemu_ram_alloc guarantees: distinct names that fit, at least one page to a block, and
      a total that fits a word. */
  ghost predicate ValidMemory(order: seq<Id>, ram: Memory) {
    && order != []
    && Distinct(order)
    && (forall id :: id in order <==> id in ram)
    && (forall id :: id in order ==> ValidName(id) && ram[id] != [])
    && |AllPages(ram)| * PAGE_SIZE < WORD_LIMIT
  }

  ghost predicate AllDirty(s: Source)
  {
    forall a :: InMemory(a, s.ram) ==> a in s.dirty
  }

  ghost predicate ValidSource(s: Source) {
    && ValidMemory(s.order, s.ram)
    && (forall a :: a in s.dirty + s.log ==> InMemory(a, s.ram))
    && (s.lastBlock.Some? ==> s.lastBlock.value < |s.order|
                              && s.lastPage < |s.ram[s.order[s.lastBlock.value]]|)
  }

  /** What every call after the first finds: a null cursor means that nothing was sent yet. */
  ghost predicate Started(s: Source) {
    ValidSource(s) && (s.lastBlock.None? ==> s.lastPage == 0 && AllDirty(s))
  }

  // ----- ram_save_block -----

  /** The page k places after the c-th, wrapping around. */
  function At(pages: seq<PageAddr>, c: nat, k: nat): PageAddr
    requires c < |pages| && k < |pages|
  {
    if c + k < |pages| then pages[c + k] else pages[c + k - |pages|]
  }

  /** The first distance from the cursor, from k on, of a dirty page; |pages| if there is none. */
  function Scan(pages: seq<PageAddr>, dirty: set<PageAddr>, c: nat, k: nat): (d: nat)
    requires c < |pages| && k <= |pages|
    ensures k <= d <= |pages|
    ensures d < |pages| ==> At(pages, c, d) in dirty
    ensures forall j :: k <= j < d ==> At(pages, c, j) !in dirty
    decreases |pages| - k
  {
    if k == |pages| || At(pages, c, k) in dirty then k
    else Scan(pages, dirty, c, k + 1)
  }

  /** A scan that comes all the way round has seen every page. */
  lemma ScanSeesAll(pages: seq<PageAddr>, dirty: set<PageAddr>, c: nat, a: PageAddr)
    requires c < |pages| && Scan(pages, dirty, c, 0) == |pages|
    requires a in pages
    ensures a !in dirty
  {
    var i :| 0 <= i < |pages| && pages[i] == a;
    var j := if i >= c then i - c else i + |pages| - c;
    assert At(pages, c, j) == a;
  }

  function CursorIndex(s: Source): nat
    requires ValidSource(s)
  {
    if s.lastBlock.None? then 0 else Index(s.order, s.ram, s.lastBlock.value, s.lastPage)
  }

  lemma CursorInPages(s: Source)
    requires ValidSource(s)
    ensures CursorIndex(s) < |Pages(s.order, s.ram)|
  {
    if s.lastBlock.None? {
      PagesAt(s.order, s.ram, 0, 0);
    } else {
      PagesAt(s.order, s.ram, s.lastBlock.value, s.lastPage);
    }
  }

  function PageRecord(a: PageAddr, p: Page, cont: bool): seq<Byte>
    requires |a.id| < 256
  {
    var flag := if p == Fill(p[0]) then FLAG_COMPRESS else FLAG_PAGE;
    PutWord(Or(Or(a.page * PAGE_SIZE, if cont then FLAG_CONTINUE else 0), flag))
    + (if cont then [] else PutName(a.id))
    + (if p == Fill(p[0]) then [p[0]] else p)
  }

  datatype Sent = Sent(src: Source, bytes: seq<Byte>, count: nat)

  /** Send the first dirty page at or after the cursor, wrapping around; nothing if none is. */
  function SaveBlock(s: Source): Sent
    requires ValidSource(s)
  {
    CursorInPages(s);
    var pages, c := Pages(s.order, s.ram), CursorIndex(s);
    var k := Scan(pages, s.dirty, c, 0);
    if k == |pages| then Sent(s, [], 0) else SendPage(s, At(pages, c, k))
  }

  function SendPage(s: Source, a: PageAddr): Sent
    requires ValidSource(s) && a in s.dirty
  {
    assert InMemory(a, s.ram);
    var b, p := IndexOf(s.order, a.id), s.ram[a.id][a.page];
    Sent(s.(dirty := s.dirty - {a}, lastBlock := Some(b), lastPage := a.page),
         PageRecord(a, p, s.lastBlock == Some(b)),
         if p == Fill(p[0]) then 1 else PAGE_SIZE)
  }

  /** ram_save_block returns 0 exactly when no page is dirty; otherwise it takes one dirty page
      out of the dirty set, sends it, and leaves the cursor on it. */
  lemma SaveBlockComplete(s: Source)
    requires ValidSource(s)
    ensures SaveBlock(s).count == 0 <==> s.dirty == {}
    ensures s.dirty == {} ==> SaveBlock(s) == Sent(s, [], 0)
    ensures s.dirty != {} ==> exists a :: a in s.dirty && SaveBlock(s) == SendPage(s, a)
  {
    CursorInPages(s);
    var pages, c := Pages(s.order, s.ram), CursorIndex(s);
    PagesInMemory(s.order, s.ram);
    if s.dirty != {} {
      var a :| a in s.dirty;
      assert InMemory(a, s.ram);
      if Scan(pages, s.dirty, c, 0) == |pages| {
        ScanSeesAll(pages, s.dirty, c, a);
      }
    }
  }

  lemma SendPageStarted(s: Source, a: PageAddr)
    requires ValidSource(s) && a in s.dirty
    ensures Started(SendPage(s, a).src)
  {
    assert InMemory(a, s.ram);
  }

  // ----- ram_save_live -----

  /** A guest store of one page, recorded in the dirty bits or in the log. */
  datatype GuestWrite = GuestWrite(addr: PageAddr, page: Page, viaLog: bool)

  /** While logging is off a write is recorded nowhere. */
  function Write(s: Source, w: GuestWrite): Source {
    if !(w.addr.id in s.ram && w.addr.page < |s.ram[w.addr.id]|) then s else
      var s' := s.(ram := WritePage(s.ram, w.addr, w.page));
      if !s.logging then s'
      else if w.viaLog then s'.(log := s.log + {w.addr})
      else s'.(dirty := s.dirty + {w.addr})
  }

  function Writes(s: Source, ws: seq<GuestWrite>): Source
    decreases |ws|
  {
    if ws == [] then s else Writes(Write(s, ws[0]), ws[1..])
  }

  /** One turn of the sending loop: what the guest wrote meanwhile, and qemu_file_rate_limit. */
  datatype Tick = Tick(writes: seq<GuestWrite>, limit: int)

  function Sync(s: Source): Source {
    s.(dirty := s.dirty + s.log, log := {})
  }

  predicate IdLess(a: Id, b: Id) {
    if a == [] then true else if b == [] then false
    else a[0] < b[0] || (a[0] == b[0] && IdLess(a[1..], b[1..]))
  }

  lemma {:induction false} IdLessTotal(a: Id, b: Id)
    ensures IdLess(a, b) || IdLess(b, a)
  {
    if a != [] && b != [] { IdLessTotal(a[1..], b[1..]); }
  }

  lemma {:induction false} IdLessTransitive(a: Id, b: Id, c: Id)
    requires IdLess(a, b) && IdLess(b, c)
    ensures IdLess(a, c)
  {
    if a != [] && b != [] && c != [] && a[0] == b[0] == c[0] {
      IdLessTransitive(a[1..], b[1..], c[1..]);
    }
  }

  lemma IdLessPreorder()
    ensures Qsort.TotalPreorder(IdLess)
  {
    forall a, b ensures IdLess(a, b) || IdLess(b, a) { IdLessTotal(a, b); }
    forall a, b, c | IdLess(a, b) && IdLess(b, c) ensures IdLess(a, c) { IdLessTransitive(a, b, c); }
  }

  /** Stage 1: null cursor, sorted list, every page dirty, logging on. */
  function Begin(s: Source): Source {
    s.(order := Qsort.Sort(s.order, IdLess), lastBlock := None, lastPage := 0, logging := true,
       dirty := AllPages(s.ram))
  }

  lemma NamesDistinct(order: seq<Id>)
    ensures Distinct(order)
       <==> (forall id :: multiset(order)[id] <= 1)
  {
    if forall id :: multiset(order)[id] <= 1 {
      forall i, j | 0 <= i < j < |order|
        ensures order[i] != order[j]
      {
        assert order == order[..i] + [order[i]] + order[i + 1..];
        assert order[i + 1..][j - i - 1] == order[j];
        assert multiset(order)[order[i]] <= 1;
      }
    } else {
      var id :| multiset(order)[id] > 1;
      assert id in multiset(order);
      var i :| 0 <= i < |order| && order[i] == id;
      assert order == order[..i] + [id] + order[i + 1..];
      assert multiset(order[..i] + order[i + 1..])[id] >= 1;
      assert id in order[..i] + order[i + 1..];
      var k :| 0 <= k < |order| - 1 && (order[..i] + order[i + 1..])[k] == id;
      assert order[if k < i then k else k + 1] == id;
    }
  }

  lemma BeginStarts(s: Source)
    requires ValidSource(s)
    ensures Started(Begin(s)) && Begin(s).logging
  {
    IdLessPreorder();
    Qsort.SortCorrect(s.order, IdLess);
    var order := Begin(s).order;
    NamesDistinct(s.order);
    NamesDistinct(order);
    forall id ensures id in s.order <==> id in order {
      assert id in multiset(s.order) <==> id in multiset(order);
    }
  }

  function BlockList(order: seq<Id>, ram: Memory): seq<Byte>
    requires forall id :: id in order ==> id in ram && |id| < 256
  {
    if order == [] then [] else
      PutName(order[0]) + PutWord(|ram[order[0]]| * PAGE_SIZE) + BlockList(order[1..], ram)
  }

  function BytesTotal(order: seq<Id>, ram: Memory): nat
    requires forall id :: id in order ==> id in ram
  {
    if order == [] then 0 else |ram[order[0]]| * PAGE_SIZE + BytesTotal(order[1..], ram)
  }

  function Header(s: Source): seq<Byte>
    requires ValidMemory(s.order, s.ram)
  {
    PutWord(Or(BytesTotal(s.order, s.ram), FLAG_MEM_SIZE)) + BlockList(s.order, s.ram)
  }

  lemma {:induction false} WritesValid(s: Source, ws: seq<GuestWrite>)
    requires ValidSource(s)
    ensures ValidSource(Writes(s, ws))
    ensures Started(s) ==> Started(Writes(s, ws))
    ensures Writes(s, ws).(ram := s.ram, dirty := s.dirty, log := s.log) == s
    ensures SameShape(s.ram, Writes(s, ws).ram)
    decreases |ws|
  {
    if ws != [] {
      WriteValid(s, ws[0]);
      WritesValid(Write(s, ws[0]), ws[1..]);
    }
  }

  /** A write keeps the shape of memory, and marks at most its own page. */
  lemma {:induction false} WriteMarks(s: Source, w: GuestWrite)
    ensures var s' := Write(s, w);
            && s'.(ram := s.ram, dirty := s.dirty, log := s.log) == s && SameShape(s.ram, s'.ram)
            && s.dirty <= s'.dirty && forall a :: a in s'.dirty + s'.log ==> a in s.dirty + s.log || InMemory(a, s.ram)
  {
  }

  lemma {:induction false} SameMemory(ram: Memory, ram': Memory, a: PageAddr)
    requires SameShape(ram, ram')
    ensures InMemory(a, ram) <==> InMemory(a, ram')
  {
  }

  lemma {:induction false} WriteValid(s: Source, w: GuestWrite)
    requires ValidSource(s)
    ensures ValidSource(Write(s, w))
    ensures Started(s) ==> Started(Write(s, w))
    ensures Write(s, w).(ram := s.ram, dirty := s.dirty, log := s.log) == s
    ensures SameShape(s.ram, Write(s, w).ram)
  {
    hide Write, InMemory;
    var s' := Write(s, w);
    WriteMarks(s, w);
    assert AllPages(s'.ram) == AllPages(s.ram);
    forall a: PageAddr
      ensures InMemory(a, s.ram) <==> InMemory(a, s'.ram)
    {
      SameMemory(s.ram, s'.ram, a);
    }
  }

  lemma SaveBlockValid(s: Source)
    requires ValidSource(s)
    ensures var r := SaveBlock(s).src;
            && ValidSource(r) && (Started(s) ==> Started(r))
            && r.(dirty := s.dirty, lastBlock := s.lastBlock, lastPage := s.lastPage) == s
            && (r == s || r.dirty < s.dirty)
  {
    SaveBlockComplete(s);
    if s.dirty != {} {
      var a :| a in s.dirty && SaveBlock(s) == SendPage(s, a);
      SendPageStarted(s, a);
    }
  }

  datatype Rate = Rate(src: Source, bytes: seq<Byte>, ret: int)

  /** Send pages until the rate limit says stop (or fails), or until no page is dirty. */
  function RateLoop(s: Source, ticks: seq<Tick>): Rate
    requires ValidSource(s)
    decreases |ticks|
  {
    if ticks == [] then Rate(s, [], 1) else
      var s1 := Writes(s, ticks[0].writes);
      WritesValid(s, ticks[0].writes);
      if ticks[0].limit != 0 then Rate(s1, [], ticks[0].limit) else
        var sent := SaveBlock(s1);
        SaveBlockValid(s1);
        if sent.count == 0 then Rate(sent.src, [], 0) else
          var r := RateLoop(sent.src, ticks[1..]);
          Rate(r.src, sent.bytes + r.bytes, r.ret)
  }

  /** Send every dirty page; the dirty set shrinks with each, so this ends. */
  function FlushAll(s: Source): Sent
    requires ValidSource(s)
    decreases s.dirty
  {
    var sent := SaveBlock(s);
    SaveBlockValid(s);
    SaveBlockComplete(s);
    if sent.count == 0 then sent else
      var r := FlushAll(sent.src);
      Sent(r.src, sent.bytes + r.bytes, sent.count + r.count)
  }

  datatype LiveResult = LiveResult(src: Source, bytes: seq<Byte>, ok: bool)

  /** What ram_save_live sends and leaves; `ok` is false when the file reports an error. Its 0-or-1 estimate of
      being nearly done is not part of the result here. */
  function SaveLive(s: Source, stage: int, ticks: seq<Tick>): LiveResult
    requires ValidSource(s)
  {
    if stage < 0 then LiveResult(s.(logging := false), [], true) else
      var s0 := if stage == 1 then Begin(Sync(s)) else Sync(s);
      var header := if stage == 1 then BeginStarts(Sync(s)); Header(s0) else [];
      RateLoopValid(s0, ticks);
      var rate := RateLoop(s0, ticks);
      if rate.ret < 0 then LiveResult(rate.src, header + rate.bytes, false)
      else if stage == 3 then
        var all := FlushAll(rate.src);
        LiveResult(all.src.(logging := false),
                   header + rate.bytes + all.bytes + PutWord(FLAG_EOS), true)
      else LiveResult(rate.src, header + rate.bytes + PutWord(FLAG_EOS), true)
  }

  lemma {:induction false} RateLoopValid(s: Source, ticks: seq<Tick>)
    requires ValidSource(s)
    ensures var r := RateLoop(s, ticks).src;
            ValidSource(r) && (Started(s) ==> Started(r)) && SameShape(s.ram, r.ram)
    decreases |ticks|
  {
    if ticks != [] {
      WritesValid(s, ticks[0].writes);
      var s1 := Writes(s, ticks[0].writes);
      if ticks[0].limit == 0 {
        SaveBlockValid(s1);
        if SaveBlock(s1).count != 0 { RateLoopValid(SaveBlock(s1).src, ticks[1..]); }
      }
    }
  }
}
