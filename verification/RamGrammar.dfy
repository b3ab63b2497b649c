/** What ram_load accepts, said of the bytes that are written rather than of how they are read: a stream is loaded
    exactly if it is a sequence of legal records, and then it does what the records say. */
module RamGrammar {
  import opened Arith
  import opened NatBits
  import opened Wire
  import opened RamFormat
  import opened RamReceiver

  // ----- The block list -----

  /** One block of the list: the bytes of its name, of which those up to a NUL count, and its length. */
  datatype Entry = Entry(raw: seq<Byte>, length: nat)

  ghost predicate ValidEntry(e: Entry) { |e.raw| < 256 && e.length < WORD_LIMIT }

  function EntryBytes(e: Entry): seq<Byte>
    requires |e.raw| < 256
  {
    PutName(e.raw) + PutWord(e.length)
  }

  ghost predicate AllValid(es: seq<Entry>) { forall k :: 0 <= k < |es| ==> ValidEntry(es[k]) }

  ghost function ListBytes(es: seq<Entry>): seq<Byte>
    requires AllValid(es)
  {
    if es == [] then [] else
      assert ValidEntry(es[0]);
      EntryBytes(es[0]) + ListBytes(es[1..])
  }

  /** The destination has a block of this name and exactly this length. */
  ghost predicate Matches(ram: Memory, e: Entry) {
    CString(e.raw) in ram && |ram[CString(e.raw)]| * PAGE_SIZE == e.length
  }

  ghost predicate AllMatch(ram: Memory, es: seq<Entry>) { forall k :: 0 <= k < |es| ==> Matches(ram, es[k]) }

  function Lengths(es: seq<Entry>): nat { if es == [] then 0 else es[0].length + Lengths(es[1..]) }

  /** As 64-bit words, the lengths add up to the announced total, and not before the last of them. */
  ghost predicate AddUp(es: seq<Entry>, total: nat) {
    Same(Lengths(es), total) && NotBefore(es, total)
  }

  ghost predicate NotBefore(es: seq<Entry>, total: nat) { forall k :: 0 <= k < |es| ==> !Same(Lengths(es[..k]), total) }

  predicate Same(a: nat, b: nat) { a % WORD_LIMIT == b % WORD_LIMIT }

  /** These are the entries of an accepted list. */
  ghost predicate Accepted(ram: Memory, es: seq<Entry>, total: nat) {
    AllValid(es) && AllMatch(ram, es) && AddUp(es, total)
  }

  lemma {:induction false} SameLess(a: nat, b: nat, total: nat)
    ensures Same(a + b, total) <==> Same(b, Subtract(total, a))
  {
    var low, high, less := a % WORD_LIMIT, a / WORD_LIMIT, total + WORD_LIMIT - a % WORD_LIMIT;
    assert a == high * WORD_LIMIT + low;
    SameBy(b, less, high + 1, a + b, total);
    SameReduced(b, less);
  }

  lemma {:induction false} SameReduced(b: nat, x: nat)
    ensures Same(b, x % WORD_LIMIT) <==> Same(b, x)
  {
  }

  /** Adding to both sides the same up to a multiple of the word size. */
  lemma {:induction false} SameBy(x: nat, y: nat, m: nat, x': nat, y': nat)
    requires x' - x == y' - y + m * WORD_LIMIT
    ensures Same(x, y) <==> Same(x', y')
  {
    SameIff(x, y);
    SameIff(x', y');
    if k: int :| x - y == k * WORD_LIMIT {
      assert x' - y' == (k + m) * WORD_LIMIT;
    }
    if k: int :| x' - y' == k * WORD_LIMIT {
      assert x - y == (k - m) * WORD_LIMIT;
    }
  }

  lemma {:induction false} SameIff(x: nat, y: nat)
    ensures Same(x, y) <==> exists k: int :: x - y == k * WORD_LIMIT
  {
    if Same(x, y) {
      assert x - y == (x / WORD_LIMIT - y / WORD_LIMIT) * WORD_LIMIT;
    }
    if k: int :| x - y == k * WORD_LIMIT {
      SameMultiple(x, y, k);
    }
  }

  lemma {:induction false} SameMultiple(x: nat, y: nat, k: int)
    requires x == y + k * WORD_LIMIT
    ensures Same(x, y)
  {
    DivUnique(x, WORD_LIMIT, y / WORD_LIMIT + k, y % WORD_LIMIT);
  }

  lemma {:induction false} FirstAddsUp(es: seq<Entry>, total: nat)
    requires es != []
    ensures NotBefore(es, total) <==> !Same(0, total) && NotBefore(es[1..], Subtract(total, es[0].length))
    ensures AddUp(es, total) <==> !Same(0, total) && AddUp(es[1..], Subtract(total, es[0].length))
  {
    hide Same, Subtract;
    var less := Subtract(total, es[0].length);
    SameLess(es[0].length, Lengths(es[1..]), total);
    forall k | 0 <= k < |es[1..]|
      ensures Same(Lengths(es[..k + 1]), total) <==> Same(Lengths(es[1..][..k]), less)
    {
      assert es[..k + 1][1..] == es[1..][..k];
      SameLess(es[0].length, Lengths(es[1..][..k]), total);
    }
    assert Lengths(es[..0]) == 0;
    if NotBefore(es, total) {
      assert !Same(Lengths(es[..0]), total);
    }
    if !Same(0, total) && NotBefore(es[1..], less) {
      forall k | 0 <= k < |es|
        ensures !Same(Lengths(es[..k]), total)
      {
        if k > 0 {
          assert !Same(Lengths(es[1..][..k - 1]), less);
        }
      }
    }
  }

  lemma {:induction false} EntryLoads(ram: Memory, e: Entry, rest: seq<Byte>, total: nat)
    requires ValidEntry(e) && total != 0
    ensures LoadHeader(ram, EntryBytes(e) + rest, total)
         == if Matches(ram, e) then LoadHeader(ram, rest, Subtract(total, e.length)) else Err(EINVAL)
  {
    hide PutName, PutWord, GetName, GetWord, Subtract;
    assert EntryBytes(e) + rest == PutName(e.raw) + (PutWord(e.length) + rest);
    GetRawName(e.raw, PutWord(e.length) + rest);
    GetPutWord(e.length, rest);
  }

  lemma {:induction false} ListStep(es: seq<Entry>, rest: seq<Byte>)
    requires es != [] && AllValid(es)
    ensures ValidEntry(es[0]) && AllValid(es[1..])
    ensures ListBytes(es) + rest == EntryBytes(es[0]) + (ListBytes(es[1..]) + rest)
  {
    assert ValidEntry(es[0]);
  }

  lemma {:induction false} AcceptedStep(ram: Memory, es: seq<Entry>, total: nat)
    requires es != []
    ensures Accepted(ram, es, total) <==>
              ValidEntry(es[0]) && Matches(ram, es[0]) && !Same(0, total) && Accepted(ram, es[1..], Subtract(total, es[0].length))
  {
    hide Same, Subtract, Matches, ValidEntry, AddUp;
    FirstAddsUp(es, total);
    assert es == [es[0]] + es[1..];
    if AllValid(es[1..]) && ValidEntry(es[0]) {
      assert AllValid(es);
    }
    if AllMatch(ram, es[1..]) && Matches(ram, es[0]) {
      assert AllMatch(ram, es);
    }
  }

  lemma {:induction false} NoTotal(total: nat)
    requires total < WORD_LIMIT
    ensures Same(0, total) <==> total == 0
  {
  }

  /** A list of matching entries that add up to the total is accepted. */
  lemma {:induction false} ListAccepted(ram: Memory, es: seq<Entry>, rest: seq<Byte>, total: nat)
    requires Accepted(ram, es, total) && total < WORD_LIMIT
    ensures LoadHeader(ram, ListBytes(es) + rest, total) == Ok((), rest)
    decreases |es|
  {
    hide LoadHeader, Same, Subtract, Matches, ValidEntry, EntryBytes;
    NoTotal(total);
    if es == [] {
      assert Lengths(es) == 0 && ListBytes(es) + rest == rest;
      NothingToLoad(ram, rest);
    } else {
      AcceptedStep(ram, es, total);
      ListStep(es, rest);
      EntryLoads(ram, es[0], ListBytes(es[1..]) + rest, total);
      SubtractFits(total, es[0].length);
      ListAccepted(ram, es[1..], rest, Subtract(total, es[0].length));
    }
  }

  lemma {:induction false} NothingToLoad(ram: Memory, s: seq<Byte>)
    ensures LoadHeader(ram, s, 0) == Ok((), s)
  {
  }

  lemma {:induction false} SubtractFits(a: nat, b: nat)
    ensures Subtract(a, b) < WORD_LIMIT
  {
  }

  /** What is accepted is such a list. */
  lemma {:induction false} AcceptedList(ram: Memory, s: seq<Byte>, total: nat) returns (es: seq<Entry>)
    requires LoadHeader(ram, s, total).Ok? && total < WORD_LIMIT
    ensures Accepted(ram, es, total) && s == ListBytes(es) + LoadHeader(ram, s, total).rest
    decreases |s|
  {
    hide Same, Subtract, GetName, EntryBytes, Accepted;
    NoTotal(total);
    if total == 0 {
      es := [];
      EmptyAccepted(ram, total);
    } else {
      var id, s1 := GetName(s).value, GetName(s).rest;
      var raw := RawNameOf(s);
      PutGetWord(s1);
      var length, s2 := GetBe(s1[..8]), s1[8..];
      SubtractFits(total, length);
      var tail := AcceptedList(ram, s2, Subtract(total, length));
      es := [Entry(raw, length)] + tail;
      assert es[1..] == tail;
      AcceptedStep(ram, es, total);
      AcceptedValid(ram, es, total);
      ListStep(es, LoadHeader(ram, s2, Subtract(total, length)).rest);
      EntryIs(raw, length, s2);
    }
  }

  lemma {:induction false} EmptyAccepted(ram: Memory, total: nat)
    ensures Accepted(ram, [], total) <==> Same(0, total)
  {
  }

  lemma {:induction false} AcceptedValid(ram: Memory, es: seq<Entry>, total: nat)
    requires Accepted(ram, es, total)
    ensures AllValid(es)
  {
  }

  lemma {:induction false} EntryIs(raw: seq<Byte>, length: nat, rest: seq<Byte>)
    requires |raw| < 256
    ensures EntryBytes(Entry(raw, length)) + rest == PutName(raw) + (PutWord(length) + rest)
  {
  }

  ghost predicate IsList(ram: Memory, es: seq<Entry>, total: nat, s: seq<Byte>, rest: seq<Byte>) {
    Accepted(ram, es, total) && s == ListBytes(es) + rest
  }

  /** For every stream: a block list is accepted if and only if it is a list of entries, each naming a block of the
      destination with exactly its length, whose lengths add up to the announced total. */
  lemma {:induction false} HeaderIff(ram: Memory, s: seq<Byte>, total: nat, rest: seq<Byte>)
    requires total < WORD_LIMIT
    ensures LoadHeader(ram, s, total) == Ok((), rest) <==> exists es :: IsList(ram, es, total, s, rest)
  {
    hide LoadHeader, Accepted;
    if LoadHeader(ram, s, total) == Ok((), rest) {
      var es := AcceptedList(ram, s, total);
      assert IsList(ram, es, total, s, rest);
    }
    if es :| IsList(ram, es, total, s, rest) {
      ListAccepted(ram, es, rest, total);
    }
  }

  /** After entries that match and do not add up to the total yet, one with an unknown name or another length is
      refused. */
  lemma {:induction false} BadEntryRefused(ram: Memory, es: seq<Entry>, bad: Entry, rest: seq<Byte>, total: nat)
    requires total < WORD_LIMIT && AllValid(es) && AllMatch(ram, es) && NotBefore(es + [bad], total)
    requires ValidEntry(bad) && !Matches(ram, bad)
    ensures LoadHeader(ram, ListBytes(es) + (EntryBytes(bad) + rest), total) == Err(EINVAL)
    decreases |es|
  {
    hide LoadHeader, Same, Subtract, Matches, EntryBytes, NotBefore;
    NoTotal(total);
    var all := es + [bad];
    FirstAddsUp(all, total);
    if es == [] {
      EntryLoads(ram, bad, rest, total);
      assert ListBytes(es) + (EntryBytes(bad) + rest) == EntryBytes(bad) + rest;
    } else {
      assert all[1..] == es[1..] + [bad] && all[0] == es[0];
      ListStep(es, EntryBytes(bad) + rest);
      EntryLoads(ram, es[0], ListBytes(es[1..]) + (EntryBytes(bad) + rest), total);
      SubtractFits(total, es[0].length);
      BadEntryRefused(ram, es[1..], bad, rest, Subtract(total, es[0].length));
    }
  }

  /** A list that ends within the length of an entry, which then reads as if zeros followed: an error of the stream if
      that makes it a whole list, and refused otherwise. */
  lemma {:induction false} CutListRefused(ram: Memory, es: seq<Entry>, raw: seq<Byte>, cut: seq<Byte>, total: nat)
    requires total < WORD_LIMIT && |raw| < 256 && |cut| < 8 && AllValid(es) && AllMatch(ram, es)
    requires NotBefore(es + [Entry(raw, GetCutWord(cut))], total)
    ensures var last := Entry(raw, GetCutWord(cut));
            LoadHeader(ram, ListBytes(es) + (PutName(raw) + cut), total)
            == Err(if Matches(ram, last) && AddUp(es + [last], total) then EIO else EINVAL)
    decreases |es|
  {
    hide LoadHeader, Same, Subtract, Matches, ValidEntry, EntryBytes, NotBefore, AddUp;
    NoTotal(total);
    var last := Entry(raw, GetCutWord(cut));
    var all := es + [last];
    FirstAddsUp(all, total);
    if es == [] {
      assert all[1..] == [] && all[0] == last;
      NoEntries(Subtract(total, last.length));
      SubtractFits(total, last.length);
      NoTotal(Subtract(total, last.length));
      CutEntryLoads(ram, raw, cut, total);
      assert ListBytes(es) + (PutName(raw) + cut) == PutName(raw) + cut;
    } else {
      assert all[1..] == es[1..] + [last] && all[0] == es[0];
      ListStep(es, PutName(raw) + cut);
      EntryLoads(ram, es[0], ListBytes(es[1..]) + (PutName(raw) + cut), total);
      SubtractFits(total, es[0].length);
      CutListRefused(ram, es[1..], raw, cut, Subtract(total, es[0].length));
    }
  }

  lemma {:induction false} NoEntries(total: nat)
    ensures AddUp([], total) <==> Same(0, total)
  {
  }

  lemma {:induction false} CutEntryLoads(ram: Memory, raw: seq<Byte>, cut: seq<Byte>, total: nat)
    requires total != 0 && |raw| < 256 && |cut| < 8
    ensures var length := GetCutWord(cut);
            LoadHeader(ram, PutName(raw) + cut, total)
            == Err(if Matches(ram, Entry(raw, length)) && Subtract(total, length) == 0 then EIO else EINVAL)
  {
    hide GetName, PutName, GetCutWord, Subtract;
    GetRawName(raw, cut);
  }

  // ----- Records -----

  predicate Has(flags: nat, flag: nat) { And(flags, flag) != 0 }

  /** What follows the block list: a page of one byte, a page in full, or nothing; and the bytes of the name of its
      block, unless the record continues with the block of the one before. */
  datatype Body = Nothing | Constant(host: Option<seq<Byte>>, ch: Byte) | Full(host: Option<seq<Byte>>, page: Page)

  datatype Record = Record(page: nat, flags: nat, entries: seq<Entry>, body: Body)

  function HostBytes(host: Option<seq<Byte>>): seq<Byte>
    requires host.Some? ==> |host.value| < 256
  {
    if host.Some? then PutName(host.value) else []
  }

  ghost predicate HostLegal(d: Dest, flags: nat, host: Option<seq<Byte>>) {
    if Has(flags, FLAG_CONTINUE) then host == None && d.block.Some? && d.block.value in d.ram
    else host.Some? && |host.value| < 256 && CString(host.value) in d.ram
  }

  function HostOf(d: Dest, host: Option<seq<Byte>>): Id
    requires host.None? ==> d.block.Some?
  {
    if host.Some? then CString(host.value) else d.block.value
  }

  ghost predicate BodyLegal(d: Dest, page: nat, flags: nat, body: Body) {
    && (if Has(flags, FLAG_COMPRESS) then body.Constant? else if Has(flags, FLAG_PAGE) then body.Full? else body.Nothing?)
    && (!body.Nothing? ==> HostLegal(d, flags, body.host) && page < |d.ram[HostOf(d, body.host)]|)
  }

  ghost predicate Legal(d: Dest, r: Record) {
    && r.flags < PAGE_SIZE && r.page * PAGE_SIZE < WORD_LIMIT
    && (if Has(r.flags, FLAG_MEM_SIZE) then Accepted(d.ram, r.entries, r.page * PAGE_SIZE) else r.entries == [])
    && BodyLegal(d, r.page, r.flags, r.body)
  }

  ghost predicate Wellformed(r: Record) {
    && r.flags < PAGE_SIZE && r.page * PAGE_SIZE < WORD_LIMIT && AllValid(r.entries)
    && (!r.body.Nothing? && r.body.host.Some? ==> |r.body.host.value| < 256)
  }

  function BodyBytes(body: Body): seq<Byte>
    requires !body.Nothing? && body.host.Some? ==> |body.host.value| < 256
  {
    match body
    case Nothing => []
    case Constant(host, ch) => HostBytes(host) + [ch]
    case Full(host, page) => HostBytes(host) + page
  }

  ghost function RecordBytes(r: Record): seq<Byte>
    requires Wellformed(r)
  {
    PutWord(r.page * PAGE_SIZE + r.flags) + (ListBytes(r.entries) + BodyBytes(r.body))
  }

  /** What a legal record does. */
  ghost function After(d: Dest, r: Record): Dest
    requires Legal(d, r)
  {
    match r.body
    case Nothing => d
    case Constant(host, ch) => Dest(WritePage(d.ram, PageAddr(HostOf(d, host), r.page), Fill(ch)), Some(HostOf(d, host)))
    case Full(host, page) => Dest(WritePage(d.ram, PageAddr(HostOf(d, host), r.page), page), Some(HostOf(d, host)))
  }

  lemma {:induction false} LegalWellformed(d: Dest, r: Record)
    requires Legal(d, r)
    ensures Wellformed(r)
  {
    hide Same, And;
  }

  lemma {:induction false} AfterValid(d: Dest, r: Record)
    requires Legal(d, r) && ValidDest(d)
    ensures ValidDest(After(d, r)) && SameShape(d.ram, After(d, r).ram)
  {
    hide Accepted, And;
  }

  // ----- A legal record loads -----

  lemma {:induction false} HostFound(d: Dest, flags: nat, host: Option<seq<Byte>>, rest: seq<Byte>)
    requires HostLegal(d, flags, host)
    ensures FindHost(d, HostBytes(host) + rest, flags) == Found(Some(HostOf(d, host)), rest)
  {
    hide And, GetName, PutName;
    if host.Some? {
      GetRawName(host.value, rest);
    } else {
      assert HostBytes(host) + rest == rest;
    }
  }

  lemma {:induction false} PageLoads(d: Dest, r: Record, rest: seq<Byte>)
    requires ValidDest(d) && Legal(d, r) && !r.body.Nothing?
    ensures BodyLegal(d, r.page, r.flags, r.body)
    ensures (if r.body.Constant? then LoadCompressed(d, BodyBytes(r.body) + rest, r.flags, r.page * PAGE_SIZE)
             else LoadFull(d, BodyBytes(r.body) + rest, r.flags, r.page * PAGE_SIZE)) == Ok(After(d, r), rest)
  {
    hide And, FindHost, Accepted, HostBytes;
    var payload := if r.body.Constant? then [r.body.ch] else r.body.page;
    HostFound(d, r.flags, r.body.host, payload + rest);
    assert BodyBytes(r.body) + rest == HostBytes(r.body.host) + (payload + rest);
    assert (payload + rest)[|payload|..] == rest && (payload + rest)[..|payload|] == payload;
    assert r.page * PAGE_SIZE / PAGE_SIZE == r.page;
  }

  lemma {:induction false} BodyLoads(d: Dest, r: Record, rest: seq<Byte>)
    requires ValidDest(d) && Legal(d, r)
    ensures Wellformed(r)
    ensures LoadBody(d, ListBytes(r.entries) + BodyBytes(r.body) + rest, r.flags, r.page * PAGE_SIZE) == Ok(After(d, r), rest)
  {
    hide And, LoadHeader, LoadCompressed, LoadFull, Accepted, ListBytes, BodyBytes;
    LegalWellformed(d, r);
    var tail := BodyBytes(r.body) + rest;
    assert ListBytes(r.entries) + BodyBytes(r.body) + rest == ListBytes(r.entries) + tail;
    if Has(r.flags, FLAG_MEM_SIZE) {
      ListAccepted(d.ram, r.entries, tail, r.page * PAGE_SIZE);
    } else {
      NoList(r.entries, tail);
    }
    if r.body.Nothing? {
      NoBody(rest);
    } else {
      PageLoads(d, r, rest);
    }
  }

  lemma {:induction false} NoList(es: seq<Entry>, rest: seq<Byte>)
    requires es == []
    ensures ListBytes(es) + rest == rest
  {
  }

  lemma {:induction false} NoBody(rest: seq<Byte>)
    ensures BodyBytes(Nothing) + rest == rest
  {
  }

  lemma {:induction false} RecordLoads(d: Dest, r: Record, rest: seq<Byte>)
    requires ValidDest(d) && Legal(d, r)
    ensures Wellformed(r) && ValidDest(After(d, r))
    ensures LoadRecords(d, RecordBytes(r) + rest) == if Has(r.flags, FLAG_EOS) then Ok(After(d, r), rest) else LoadRecords(After(d, r), rest)
    ensures LeftRecords(d, RecordBytes(r) + rest) == if Has(r.flags, FLAG_EOS) then After(d, r) else LeftRecords(After(d, r), rest)
  {
    hide And, LoadBody, LeftBody, Accepted, ListBytes, BodyBytes, After, Legal;
    LegalWellformed(d, r);
    AfterValid(d, r);
    BodyLoads(d, r, rest);
    var w := r.page * PAGE_SIZE + r.flags;
    SplitWord(r.page, r.flags);
    GetPutWord(w, ListBytes(r.entries) + BodyBytes(r.body) + rest);
    assert RecordBytes(r) + rest == PutWord(w) + (ListBytes(r.entries) + BodyBytes(r.body) + rest);
  }

  // ----- What loads is a legal record -----

  lemma {:induction false} HostFrom(d: Dest, s: seq<Byte>, flags: nat) returns (host: Option<seq<Byte>>)
    requires ValidDest(d) && FindHost(d, s, flags).host.Some?
    ensures HostLegal(d, flags, host) && s == HostBytes(host) + FindHost(d, s, flags).rest
    ensures FindHost(d, s, flags).host.value == HostOf(d, host)
  {
    hide And, GetName, PutName;
    if Has(flags, FLAG_CONTINUE) {
      host := None;
    } else {
      var raw := RawNameOf(s);
      host := Some(raw);
    }
  }

  lemma {:induction false} PageFrom(d: Dest, s: seq<Byte>, flags: nat, page: nat) returns (body: Body)
    requires ValidDest(d) && (Has(flags, FLAG_COMPRESS) || Has(flags, FLAG_PAGE))
    requires (if Has(flags, FLAG_COMPRESS) then LoadCompressed(d, s, flags, page * PAGE_SIZE)
              else LoadFull(d, s, flags, page * PAGE_SIZE)).Ok?
    ensures BodyLegal(d, page, flags, body) && !body.Nothing?
    ensures var loaded := if Has(flags, FLAG_COMPRESS) then LoadCompressed(d, s, flags, page * PAGE_SIZE)
                          else LoadFull(d, s, flags, page * PAGE_SIZE);
            s == BodyBytes(body) + loaded.rest
  {
    hide And, FindHost, HostBytes, HostLegal;
    var host := HostFrom(d, s, flags);
    HostInRam(d, flags, host);
    var s1 := FindHost(d, s, flags).rest;
    assert page * PAGE_SIZE / PAGE_SIZE == page;
    if Has(flags, FLAG_COMPRESS) {
      assert s1 == [s1[0]] + s1[1..];
      body := Constant(host, s1[0]);
    } else {
      assert s1 == s1[..PAGE_SIZE] + s1[PAGE_SIZE..];
      body := Full(host, s1[..PAGE_SIZE]);
    }
  }

  lemma {:induction false} HostInRam(d: Dest, flags: nat, host: Option<seq<Byte>>)
    requires HostLegal(d, flags, host)
    ensures (host.Some? ==> |host.value| < 256) && (host.None? ==> d.block.Some?) && HostOf(d, host) in d.ram
  {
    hide And;
  }

  /** What follows the word of an accepted record. */
  lemma {:induction false} BodyFrom(d: Dest, s: seq<Byte>, page: nat, flags: nat) returns (r: Record)
    requires ValidDest(d) && flags < PAGE_SIZE && page * PAGE_SIZE < WORD_LIMIT
    requires LoadBody(d, s, flags, page * PAGE_SIZE).Ok?
    ensures r.page == page && r.flags == flags && Legal(d, r) && Wellformed(r)
    ensures s == ListBytes(r.entries) + BodyBytes(r.body) + LoadBody(d, s, flags, page * PAGE_SIZE).rest
  {
    hide And, LoadHeader, LoadCompressed, LoadFull, Accepted, ListBytes, BodyBytes, BodyLegal;
    var h := if Has(flags, FLAG_MEM_SIZE) then LoadHeader(d.ram, s, page * PAGE_SIZE) else Ok((), s);
    var es := [];
    if Has(flags, FLAG_MEM_SIZE) {
      es := AcceptedList(d.ram, s, page * PAGE_SIZE);
      AcceptedValid(d.ram, es, page * PAGE_SIZE);
    } else {
      NoList(es, s);
    }
    var body := Nothing;
    if Has(flags, FLAG_COMPRESS) || Has(flags, FLAG_PAGE) {
      body := PageFrom(d, h.rest, flags, page);
    } else {
      NoBody(h.rest);
      NothingLegal(d, page, flags);
    }
    r := Record(page, flags, es, body);
    LegalWellformed(d, r);
    assert ListBytes(es) + (BodyBytes(body) + LoadBody(d, s, flags, page * PAGE_SIZE).rest)
        == ListBytes(es) + BodyBytes(body) + LoadBody(d, s, flags, page * PAGE_SIZE).rest;
  }

  lemma {:induction false} NothingLegal(d: Dest, page: nat, flags: nat)
    requires !Has(flags, FLAG_COMPRESS) && !Has(flags, FLAG_PAGE)
    ensures BodyLegal(d, page, flags, Nothing)
  {
    hide And;
  }

  /** The first record of a stream whose first record is accepted. */
  lemma {:induction false} RecordFrom(d: Dest, s: seq<Byte>) returns (r: Record, rest: seq<Byte>)
    requires ValidDest(d) && LoadRecords(d, s).Ok?
    ensures Legal(d, r) && Wellformed(r) && s == RecordBytes(r) + rest && |rest| < |s|
  {
    hide And, LoadBody, Accepted, ListBytes, BodyBytes, Legal;
    var w, s1 := GetBe(s[..8]), s[8..];
    PutGetWord(s);
    var page, flags := w / PAGE_SIZE, w % PAGE_SIZE;
    SplitWord(page, flags);
    r := BodyFrom(d, s1, page, flags);
    rest := LoadBody(d, s1, flags, page * PAGE_SIZE).rest;
    assert s == PutWord(w) + s1;
    assert RecordBytes(r) + rest == PutWord(w) + (ListBytes(r.entries) + BodyBytes(r.body) + rest);
  }

  // ----- Whole streams -----

  /** Legal records one after the other, the last and only the last of them with the end mark. */
  ghost predicate LegalStream(d: Dest, rs: seq<Record>)
    decreases |rs|
  {
    && rs != [] && Legal(d, rs[0])
    && if Has(rs[0].flags, FLAG_EOS) then |rs| == 1 else LegalStream(After(d, rs[0]), rs[1..])
  }

  ghost predicate AllWellformed(rs: seq<Record>) { forall k :: 0 <= k < |rs| ==> Wellformed(rs[k]) }

  ghost function StreamBytes(rs: seq<Record>): seq<Byte>
    requires AllWellformed(rs)
  {
    if rs == [] then [] else
      assert Wellformed(rs[0]);
      RecordBytes(rs[0]) + StreamBytes(rs[1..])
  }

  ghost function AfterStream(d: Dest, rs: seq<Record>): Dest
    requires LegalStream(d, rs)
    decreases |rs|
  {
    if |rs| == 1 then After(d, rs[0]) else AfterStream(After(d, rs[0]), rs[1..])
  }

  ghost predicate IsStream(d: Dest, rs: seq<Record>, s: seq<Byte>, d': Dest, rest: seq<Byte>) {
    LegalStream(d, rs) && AllWellformed(rs) && s == StreamBytes(rs) + rest && d' == AfterStream(d, rs)
  }

  lemma {:induction false} StreamStep(rs: seq<Record>, rest: seq<Byte>)
    requires rs != [] && AllWellformed(rs)
    ensures Wellformed(rs[0]) && AllWellformed(rs[1..]) && StreamBytes(rs) + rest == RecordBytes(rs[0]) + (StreamBytes(rs[1..]) + rest)
  {
    hide RecordBytes, Wellformed;
    assert Wellformed(rs[0]);
  }

  lemma {:induction false} StreamLoads(d: Dest, rs: seq<Record>, rest: seq<Byte>)
    requires ValidDest(d) && LegalStream(d, rs) && AllWellformed(rs)
    ensures LoadRecords(d, StreamBytes(rs) + rest) == Ok(AfterStream(d, rs), rest)
    decreases |rs|
  {
    hide LoadRecords, Legal, After, RecordBytes, Has, Wellformed;
    StreamStep(rs, rest);
    RecordLoads(d, rs[0], StreamBytes(rs[1..]) + rest);
    if Has(rs[0].flags, FLAG_EOS) {
      assert StreamBytes(rs[1..]) + rest == rest;
    } else {
      StreamLoads(After(d, rs[0]), rs[1..], rest);
    }
  }

  lemma {:induction false} StreamFrom(d: Dest, s: seq<Byte>) returns (rs: seq<Record>)
    requires ValidDest(d) && LoadRecords(d, s).Ok?
    ensures IsStream(d, rs, s, LoadRecords(d, s).value, LoadRecords(d, s).rest)
    decreases |s|
  {
    hide LoadRecords, Legal, After, RecordBytes, Has, Wellformed;
    var r, rest := RecordFrom(d, s);
    RecordLoads(d, r, rest);
    if Has(r.flags, FLAG_EOS) {
      rs := [r];
      StreamStep(rs, rest);
      assert StreamBytes(rs[1..]) + rest == rest;
    } else {
      var tail := StreamFrom(After(d, r), rest);
      rs := [r] + tail;
      assert rs[1..] == tail;
      StreamStep(rs, LoadRecords(d, s).rest);
    }
  }

  /** For every stream and destination: ram_load accepts the stream if and only if it is of version 4 and a sequence
      of legal records, and then it leaves what the records leave. */
  lemma {:induction false} LoadsIff(d: Dest, s: seq<Byte>, version: int, d': Dest, rest: seq<Byte>)
    requires ValidDest(d)
    ensures Load(d, s, version) == Ok(d', rest) <==> version == 4 && exists rs :: IsStream(d, rs, s, d', rest)
  {
    hide LoadRecords, LegalStream, AfterStream, StreamBytes;
    if LoadRecords(d, s) == Ok(d', rest) {
      var rs := StreamFrom(d, s);
      assert IsStream(d, rs, s, d', rest);
    }
    if rs :| IsStream(d, rs, s, d', rest) {
      StreamLoads(d, rs, rest);
    }
  }

  // ----- What is refused, how, and what it leaves -----

  /** Legal records, none of them with the end mark. */
  ghost predicate LegalRun(d: Dest, rs: seq<Record>)
    decreases |rs|
  {
    rs == [] || (Legal(d, rs[0]) && !Has(rs[0].flags, FLAG_EOS) && LegalRun(After(d, rs[0]), rs[1..]))
  }

  ghost function AfterRun(d: Dest, rs: seq<Record>): Dest
    requires LegalRun(d, rs)
    decreases |rs|
  {
    if rs == [] then d else AfterRun(After(d, rs[0]), rs[1..])
  }

  /** Whatever follows legal records is loaded, or refused, on top of them. */
  lemma {:induction false} RunLoads(d: Dest, rs: seq<Record>, tail: seq<Byte>)
    requires ValidDest(d) && LegalRun(d, rs) && AllWellformed(rs)
    ensures ValidDest(AfterRun(d, rs))
    ensures LoadRecords(d, StreamBytes(rs) + tail) == LoadRecords(AfterRun(d, rs), tail)
    ensures LeftRecords(d, StreamBytes(rs) + tail) == LeftRecords(AfterRun(d, rs), tail)
    decreases |rs|
  {
    hide LoadRecords, LeftRecords, Legal, After, RecordBytes, Has, Wellformed;
    if rs == [] {
      assert StreamBytes(rs) + tail == tail;
    } else {
      StreamStep(rs, tail);
      RecordLoads(d, rs[0], StreamBytes(rs[1..]) + tail);
      RunLoads(After(d, rs[0]), rs[1..], tail);
    }
  }

  /** The load fails with this error and leaves this destination. */
  ghost predicate Refuses(d: Dest, s: seq<Byte>, e: Error, left: Dest)
    requires ValidDest(d)
  {
    LoadRecords(d, s) == Err(e) && (e != WILD ==> LeftRecords(d, s) == left)
  }

  lemma {:induction false} BodyRefused(d: Dest, page: nat, flags: nat, body: seq<Byte>, e: Error, left: Dest)
    requires ValidDest(d) && flags < PAGE_SIZE && page * PAGE_SIZE < WORD_LIMIT
    requires LoadBody(d, body, flags, page * PAGE_SIZE) == Err(e) && (e != WILD ==> LeftBody(d, body, flags, page * PAGE_SIZE) == left)
    ensures Refuses(d, PutWord(page * PAGE_SIZE + flags) + body, e, left)
  {
    hide And, LoadBody, LeftBody;
    SplitWord(page, flags);
    GetPutWord(page * PAGE_SIZE + flags, body);
  }

  /** A block list with an unknown name or another length: nothing is changed. */
  lemma {:induction false} BadListRefused(d: Dest, page: nat, flags: nat, es: seq<Entry>, bad: Entry, rest: seq<Byte>)
    requires ValidDest(d) && flags < PAGE_SIZE && page * PAGE_SIZE < WORD_LIMIT && Has(flags, FLAG_MEM_SIZE)
    requires AllValid(es) && AllMatch(d.ram, es) && NotBefore(es + [bad], page * PAGE_SIZE) && ValidEntry(bad) && !Matches(d.ram, bad)
    ensures Refuses(d, PutWord(page * PAGE_SIZE + flags) + (ListBytes(es) + (EntryBytes(bad) + rest)), EINVAL, d)
  {
    hide And, LoadHeader, ListBytes, EntryBytes;
    BadEntryRefused(d.ram, es, bad, rest, page * PAGE_SIZE);
    BodyRefused(d, page, flags, ListBytes(es) + (EntryBytes(bad) + rest), EINVAL, d);
  }

  /** Bytes for which there is no block: an unknown name, or a continuation of nothing. */
  ghost predicate NoHost(d: Dest, flags: nat, host: Option<seq<Byte>>) {
    if Has(flags, FLAG_CONTINUE) then host == None && d.block == None
    else host.Some? && |host.value| < 256 && CString(host.value) !in d.ram
  }

  lemma {:induction false} HostMissing(d: Dest, flags: nat, host: Option<seq<Byte>>, rest: seq<Byte>)
    requires NoHost(d, flags, host)
    ensures FindHost(d, HostBytes(host) + rest, flags) == Found(None, rest)
  {
    hide And, GetName, PutName;
    if host.Some? {
      GetRawName(host.value, rest);
    } else {
      assert HostBytes(host) + rest == rest;
    }
  }

  /** A page for no block: refused if it is of one byte, a wild write if it is in full. */
  lemma {:induction false} NoHostRefused(d: Dest, page: nat, flags: nat, host: Option<seq<Byte>>, rest: seq<Byte>)
    requires ValidDest(d) && flags < PAGE_SIZE && page * PAGE_SIZE < WORD_LIMIT && !Has(flags, FLAG_MEM_SIZE) && NoHost(d, flags, host)
    ensures Has(flags, FLAG_COMPRESS) ==>
              Refuses(d, PutWord(page * PAGE_SIZE + flags) + (HostBytes(host) + rest), EINVAL, d.(block := None))
    ensures !Has(flags, FLAG_COMPRESS) && Has(flags, FLAG_PAGE) && rest != [] ==>
              LoadRecords(d, PutWord(page * PAGE_SIZE + flags) + (HostBytes(host) + rest)) == Err(WILD)
  {
    hide And, FindHost, HostBytes;
    HostMissing(d, flags, host, rest);
    if Has(flags, FLAG_COMPRESS) {
      BodyRefused(d, page, flags, HostBytes(host) + rest, EINVAL, d.(block := None));
    } else if Has(flags, FLAG_PAGE) && rest != [] {
      BodyRefused(d, page, flags, HostBytes(host) + rest, WILD, d);
    }
  }

  /** A page past the end of its block is a wild write. */
  lemma {:induction false} PastEndWild(d: Dest, page: nat, flags: nat, host: Option<seq<Byte>>, rest: seq<Byte>)
    requires ValidDest(d) && flags < PAGE_SIZE && page * PAGE_SIZE < WORD_LIMIT && !Has(flags, FLAG_MEM_SIZE) && HostLegal(d, flags, host)
    requires page >= |d.ram[HostOf(d, host)]| && rest != [] && (Has(flags, FLAG_COMPRESS) || Has(flags, FLAG_PAGE))
    ensures LoadRecords(d, PutWord(page * PAGE_SIZE + flags) + (HostBytes(host) + rest)) == Err(WILD)
  {
    hide And, FindHost, HostBytes;
    HostFound(d, flags, host, rest);
    assert page * PAGE_SIZE / PAGE_SIZE == page;
    BodyRefused(d, page, flags, HostBytes(host) + rest, WILD, d);
  }

  /** At the end of the stream, a page in full for no block is an error of the stream, and so is one past the end of its
      block, of which nothing is read; a page of one byte past the end of its block is a wild write even so. */
  lemma {:induction false} CutHostRefused(d: Dest, page: nat, flags: nat, host: Option<seq<Byte>>)
    requires ValidDest(d) && flags < PAGE_SIZE && page * PAGE_SIZE < WORD_LIMIT && !Has(flags, FLAG_MEM_SIZE)
    requires Has(flags, FLAG_COMPRESS) || Has(flags, FLAG_PAGE)
    requires NoHost(d, flags, host) || (HostLegal(d, flags, host) && page >= |d.ram[HostOf(d, host)]|)
    ensures var s := PutWord(page * PAGE_SIZE + flags) + HostBytes(host);
            && (NoHost(d, flags, host) && !Has(flags, FLAG_COMPRESS) ==> Refuses(d, s, EIO, d.(block := None)))
            && (!NoHost(d, flags, host) && !Has(flags, FLAG_COMPRESS) ==> Refuses(d, s, EIO, d.(block := Some(HostOf(d, host)))))
            && (!NoHost(d, flags, host) && Has(flags, FLAG_COMPRESS) ==> LoadRecords(d, s) == Err(WILD))
  {
    hide And, FindHost, HostBytes;
    assert HostBytes(host) + [] == HostBytes(host);
    assert page * PAGE_SIZE / PAGE_SIZE == page;
    if NoHost(d, flags, host) {
      HostMissing(d, flags, host, []);
      if !Has(flags, FLAG_COMPRESS) {
        BodyRefused(d, page, flags, HostBytes(host), EIO, d.(block := None));
      }
    } else {
      HostFound(d, flags, host, []);
      if Has(flags, FLAG_COMPRESS) {
        BodyRefused(d, page, flags, HostBytes(host), WILD, d);
      } else {
        BodyRefused(d, page, flags, HostBytes(host), EIO, d.(block := Some(HostOf(d, host))));
      }
    }
  }

  /** A stream that ends within a page in full: the page has the bytes there were, and then what it had. */
  lemma {:induction false} CutPageLeaves(d: Dest, page: nat, flags: nat, host: Option<seq<Byte>>, got: seq<Byte>)
    requires ValidDest(d) && flags < PAGE_SIZE && page * PAGE_SIZE < WORD_LIMIT && !Has(flags, FLAG_MEM_SIZE)
    requires !Has(flags, FLAG_COMPRESS) && Has(flags, FLAG_PAGE) && HostLegal(d, flags, host)
    requires page < |d.ram[HostOf(d, host)]| && 0 < |got| < PAGE_SIZE
    ensures var id := HostOf(d, host);
            Refuses(d, PutWord(page * PAGE_SIZE + flags) + (HostBytes(host) + got), EIO,
                    Dest(WritePage(d.ram, PageAddr(id, page), got + d.ram[id][page][|got|..]), Some(id)))
  {
    hide And, FindHost, HostBytes;
    HostFound(d, flags, host, got);
    assert page * PAGE_SIZE / PAGE_SIZE == page;
    var id := HostOf(d, host);
    BodyRefused(d, page, flags, HostBytes(host) + got, EIO,
                Dest(WritePage(d.ram, PageAddr(id, page), got + d.ram[id][page][|got|..]), Some(id)));
  }

  /** One that ends before the byte of a page of one byte: the page is zeros. */
  lemma {:induction false} CutByteLeaves(d: Dest, page: nat, flags: nat, host: Option<seq<Byte>>)
    requires ValidDest(d) && flags < PAGE_SIZE && page * PAGE_SIZE < WORD_LIMIT && !Has(flags, FLAG_MEM_SIZE)
    requires Has(flags, FLAG_COMPRESS) && HostLegal(d, flags, host) && page < |d.ram[HostOf(d, host)]|
    ensures var id := HostOf(d, host);
            Refuses(d, PutWord(page * PAGE_SIZE + flags) + HostBytes(host), EIO,
                    Dest(WritePage(d.ram, PageAddr(id, page), Fill(0)), Some(id)))
  {
    hide And, FindHost, HostBytes;
    HostFound(d, flags, host, []);
    assert HostBytes(host) + [] == HostBytes(host);
    assert page * PAGE_SIZE / PAGE_SIZE == page;
    var id := HostOf(d, host);
    BodyRefused(d, page, flags, HostBytes(host), EIO, Dest(WritePage(d.ram, PageAddr(id, page), Fill(0)), Some(id)));
  }

  /** One that ends within the word of a record leaves the records before it. */
  lemma {:induction false} CutWordLeaves(d: Dest, rs: seq<Record>, cut: seq<Byte>)
    requires ValidDest(d) && LegalRun(d, rs) && AllWellformed(rs) && |cut| < 8
    ensures Refuses(d, StreamBytes(rs) + cut, EIO, AfterRun(d, rs))
  {
    RunLoads(d, rs, cut);
  }
}
