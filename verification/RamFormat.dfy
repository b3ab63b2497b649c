/** Guest RAM and the stream that carries it (arch_init.c). */
module RamFormat {
  import opened NatBits
  import opened Wire

  const PAGE_BITS: nat := 12
  const PAGE_SIZE: nat := 4096
  /** TARGET_PAGE_MASK as a 64-bit word. */
  const PAGE_MASK: nat := WORD_LIMIT - PAGE_SIZE

  const FLAG_COMPRESS: nat := 0x02
  const FLAG_MEM_SIZE: nat := 0x04
  const FLAG_PAGE: nat := 0x08
  const FLAG_EOS: nat := 0x10
  const FLAG_CONTINUE: nat := 0x20

  type Page = p: seq<Byte> | |p| == PAGE_SIZE witness seq(PAGE_SIZE, i => 0)

  /** A RAMBlock's idstr. */
  type Id = seq<Byte>

  /** Each RAMBlock's contents; its length is the number of pages times PAGE_SIZE. */
  type Memory = map<Id, seq<Page>>

  datatype PageAddr = PageAddr(id: Id, page: nat)

  ghost predicate InMemory(a: PageAddr, ram: Memory) {
    a.id in ram && a.page < |ram[a.id]|
  }

  ghost predicate SameShape(r: Memory, r': Memory) {
    r.Keys == r'.Keys && forall id :: id in r ==> |r[id]| == |r'[id]|
  }

  function WritePage(ram: Memory, a: PageAddr, p: Page): (ram': Memory)
    requires a.id in ram && a.page < |ram[a.id]|
    ensures SameShape(ram, ram')
    ensures forall b: PageAddr :: InMemory(b, ram) ==>
              ram'[b.id][b.page] == if a == b then p else ram[b.id][b.page]
  {
    var pages: seq<Page> := ram[a.id];
    var pages': seq<Page> := pages[..a.page] + [p] + pages[a.page + 1..];
    ram[a.id := pages']
  }

  /** A page whose bytes are all the same. */
  ghost predicate Constant(p: Page) {
    forall i :: 0 <= i < PAGE_SIZE ==> p[i] == p[0]
  }

  function Fill(ch: Byte): Page { seq(PAGE_SIZE, i => ch) }

  lemma ConstantIsFill(p: Page)
    ensures Constant(p) <==> p == Fill(p[0])
  {
  }

  // ----- Words: a page-aligned offset with flags below it -----

  lemma {:induction false} Pow2OfPage()
    ensures Pow2(PAGE_BITS) == PAGE_SIZE
  {
  }

  lemma {:induction false} PageAligned(page: nat)
    ensures Low(page * PAGE_SIZE, PAGE_BITS) == 0
  {
    hide Pow2, Low;
    Pow2OfPage();
    LowIsMod(page * PAGE_SIZE, PAGE_BITS);
  }

  lemma {:induction false} Pow2Of64()
    ensures Pow2(64) == WORD_LIMIT
  {
    assert Pow2(8) == 256;
    hide Pow2;
    Pow2Add(8, 8);
    Pow2Add(16, 16);
    Pow2Add(32, 32);
  }

  /** A word built with | splits back into its offset and flags. */
  lemma {:induction false} SplitWord(page: nat, flags: nat)
    requires page * PAGE_SIZE < WORD_LIMIT && flags < PAGE_SIZE
    ensures page * PAGE_SIZE + flags < WORD_LIMIT
    ensures And(page * PAGE_SIZE + flags, PAGE_SIZE - 1) == flags
    ensures And(page * PAGE_SIZE + flags, PAGE_MASK) == page * PAGE_SIZE
  {
    hide And, Low, Pow2;
    PageAligned(page);
    Pow2Of64();
    Pow2OfPage();
    SplitAt(page * PAGE_SIZE, flags, PAGE_BITS, 64);
  }

  /** ORing up to two flags into an offset adds them below the page boundary. */
  lemma {:induction false} JoinWord(page: nat, a: nat, b: nat)
    requires a < PAGE_SIZE && b < PAGE_SIZE
    ensures Or(Or(page * PAGE_SIZE, a), b) == page * PAGE_SIZE + Or(a, b)
  {
    hide Or, Low, Pow2;
    OrZero(a);
    PageAligned(page);
    Pow2OfPage();
    OrAbove(page * PAGE_SIZE, 0, a, PAGE_BITS);
    OrAbove(page * PAGE_SIZE, a, b, PAGE_BITS);
  }
}
