/** What block_load accepts, said of the bytes that are written: a stream is loaded exactly if it is a sequence of
    legal records, and then it does what the records say. */
module BlockGrammar {
  import opened NatBits
  import opened Sectors
  import opened Splicing
  import opened Wire
  import opened BlockStream

  predicate Has(flags: nat, flag: nat) { And(flags, flag) != 0 }

  /** What follows the word: the bytes of a device's name, of which those up to a NUL count, and a chunk; or nothing. */
  datatype Body = Nothing | Chunk(raw: seq<Byte>, data: seq<Byte>)

  datatype Item = Item(sector: nat, flags: nat, body: Body)

  ghost predicate Wellformed(r: Item) {
    r.flags < SECTOR_SIZE && r.sector * SECTOR_SIZE < WORD_LIMIT && (r.body.Chunk? ==> |r.body.raw| < 256 && |r.body.data| == BLOCK_SIZE)
  }

  /** A block for a device there is, that is not empty, not past its end; or else a progress report or an end mark. */
  ghost predicate Legal(disks: Disks, r: Item) {
    && Wellformed(r)
    && if Has(r.flags, FLAG_DEVICE_BLOCK) then
         && r.body.Chunk? && CString(r.body.raw) in disks
         && var total := Total(disks[CString(r.body.raw)]); 0 < total && r.sector <= total
       else r.body.Nothing? && (Has(r.flags, FLAG_PROGRESS) || Has(r.flags, FLAG_EOS))
  }

  function BodyBytes(body: Body): seq<Byte>
    requires body.Chunk? ==> |body.raw| < 256
  {
    if body.Chunk? then PutName(body.raw) + body.data else []
  }

  ghost function ItemBytes(r: Item): seq<Byte>
    requires Wellformed(r)
  {
    PutWord(r.sector * SECTOR_SIZE + r.flags) + BodyBytes(r.body)
  }

  /** What a legal record does: the sectors of the chunk that lie on the device are replaced. */
  ghost function After(disks: Disks, r: Item): Disks
    requires Legal(disks, r)
  {
    if r.body.Nothing? then disks else
      var name := CString(r.body.raw);
      var n := SectorsLeft(Total(disks[name]), r.sector);
      disks[name := Spliced(disks[name], r.sector * SECTOR_SIZE, r.body.data[..n * SECTOR_SIZE])]
  }

  // ----- A legal record loads -----

  lemma {:induction false} ChunkLoads(disks: Disks, r: Item, rest: seq<Byte>)
    requires Legal(disks, r) && r.body.Chunk?
    ensures LoadBlock(disks, BodyBytes(r.body) + rest, r.sector) == Ok(After(disks, r), rest)
  {
    hide And, GetName, PutName;
    GetRawName(r.body.raw, r.body.data + rest);
    GetPutBuffer(r.body.data, rest);
    assert BodyBytes(r.body) + rest == PutName(r.body.raw) + (r.body.data + rest);
  }

  lemma {:induction false} ItemLoads(disks: Disks, r: Item, rest: seq<Byte>)
    requires Legal(disks, r)
    ensures Load(disks, ItemBytes(r) + rest) == if Has(r.flags, FLAG_EOS) then Ok(After(disks, r), rest) else Load(After(disks, r), rest)
  {
    hide And, LoadBlock, BodyBytes, PutWord, GetWord;
    var w, s1 := r.sector * SECTOR_SIZE + r.flags, BodyBytes(r.body) + rest;
    SplitWord(r.sector, r.flags);
    GetPutWord(w, s1);
    assert ItemBytes(r) + rest == PutWord(w) + s1;
    if r.body.Chunk? {
      ChunkLoads(disks, r, rest);
    } else {
      NoBody(rest);
    }
  }

  lemma {:induction false} NoBody(rest: seq<Byte>)
    ensures BodyBytes(Nothing) + rest == rest
  {
  }

  // ----- What loads is a legal record -----

  lemma {:induction false} ChunkFrom(disks: Disks, s: seq<Byte>, sector: nat) returns (body: Body)
    requires LoadBlock(disks, s, sector).Ok?
    ensures body.Chunk? && |body.raw| < 256 && |body.data| == BLOCK_SIZE && s == BodyBytes(body) + LoadBlock(disks, s, sector).rest
    ensures CString(body.raw) in disks && 0 < Total(disks[CString(body.raw)]) && sector <= Total(disks[CString(body.raw)])
  {
    hide GetName, PutName;
    var raw := RawNameOf(s);
    var s1 := GetName(s).rest;
    body := Chunk(raw, s1[..BLOCK_SIZE]);
    assert s1 == s1[..BLOCK_SIZE] + s1[BLOCK_SIZE..];
  }

  /** What follows the word of a record that is not refused. */
  ghost predicate Loadable(disks: Disks, s: seq<Byte>, sector: nat, flags: nat) {
    if Has(flags, FLAG_DEVICE_BLOCK) then LoadBlock(disks, s, sector).Ok? else Has(flags, FLAG_PROGRESS) || Has(flags, FLAG_EOS)
  }

  lemma {:induction false} BodyFrom(disks: Disks, s: seq<Byte>, sector: nat, flags: nat) returns (r: Item, rest: seq<Byte>)
    requires flags < SECTOR_SIZE && sector * SECTOR_SIZE < WORD_LIMIT && Loadable(disks, s, sector, flags)
    ensures r.sector == sector && r.flags == flags && Legal(disks, r) && s == BodyBytes(r.body) + rest
  {
    hide And, LoadBlock, BodyBytes;
    if Has(flags, FLAG_DEVICE_BLOCK) {
      var body := ChunkFrom(disks, s, sector);
      r, rest := Item(sector, flags, body), LoadBlock(disks, s, sector).rest;
    } else {
      r, rest := Item(sector, flags, Nothing), s;
      NoBody(rest);
    }
  }

  lemma {:induction false} WordFrom(disks: Disks, s: seq<Byte>) returns (sector: nat, flags: nat)
    requires Load(disks, s).Ok?
    ensures |s| >= 8 && flags < SECTOR_SIZE && sector * SECTOR_SIZE < WORD_LIMIT && Loadable(disks, s[8..], sector, flags)
    ensures s == PutWord(sector * SECTOR_SIZE + flags) + s[8..]
  {
    hide And, LoadBlock, PutWord, GetBe;
    PutGetWord(s);
    var w := GetBe(s[..8]);
    sector, flags := w / SECTOR_SIZE, w % SECTOR_SIZE;
    SplitWord(sector, flags);
  }

  lemma {:induction false} ItemFrom(disks: Disks, s: seq<Byte>) returns (r: Item, rest: seq<Byte>)
    requires Load(disks, s).Ok?
    ensures Legal(disks, r) && s == ItemBytes(r) + rest && |rest| < |s|
  {
    hide Load, Legal, BodyBytes, PutWord, Loadable;
    var sector, flags := WordFrom(disks, s);
    r, rest := BodyFrom(disks, s[8..], sector, flags);
    LegalWellformed(disks, r);
    assert ItemBytes(r) + rest == PutWord(sector * SECTOR_SIZE + flags) + (BodyBytes(r.body) + rest);
  }

  // ----- Whole streams -----

  /** Legal records one after the other, the last and only the last of them with the end mark. */
  ghost predicate LegalStream(disks: Disks, rs: seq<Item>)
    decreases |rs|
  {
    && rs != [] && Legal(disks, rs[0])
    && if Has(rs[0].flags, FLAG_EOS) then |rs| == 1 else LegalStream(After(disks, rs[0]), rs[1..])
  }

  ghost predicate AllWellformed(rs: seq<Item>) { forall k :: 0 <= k < |rs| ==> Wellformed(rs[k]) }

  ghost function StreamBytes(rs: seq<Item>): seq<Byte>
    requires AllWellformed(rs)
  {
    if rs == [] then [] else
      assert Wellformed(rs[0]);
      ItemBytes(rs[0]) + StreamBytes(rs[1..])
  }

  ghost function AfterStream(disks: Disks, rs: seq<Item>): Disks
    requires LegalStream(disks, rs)
    decreases |rs|
  {
    if |rs| == 1 then After(disks, rs[0]) else AfterStream(After(disks, rs[0]), rs[1..])
  }

  ghost predicate IsStream(disks: Disks, rs: seq<Item>, s: seq<Byte>, disks': Disks, rest: seq<Byte>) {
    LegalStream(disks, rs) && AllWellformed(rs) && s == StreamBytes(rs) + rest && disks' == AfterStream(disks, rs)
  }

  lemma {:induction false} StreamStep(rs: seq<Item>, rest: seq<Byte>)
    requires rs != [] && AllWellformed(rs)
    ensures Wellformed(rs[0]) && AllWellformed(rs[1..]) && StreamBytes(rs) + rest == ItemBytes(rs[0]) + (StreamBytes(rs[1..]) + rest)
  {
    hide ItemBytes, Wellformed;
    assert Wellformed(rs[0]);
  }

  lemma {:induction false} StreamAccepted(disks: Disks, rs: seq<Item>, rest: seq<Byte>)
    requires LegalStream(disks, rs) && AllWellformed(rs)
    ensures Load(disks, StreamBytes(rs) + rest) == Ok(AfterStream(disks, rs), rest)
    decreases |rs|
  {
    hide Load, Legal, After, ItemBytes, Has, Wellformed;
    StreamStep(rs, rest);
    ItemLoads(disks, rs[0], StreamBytes(rs[1..]) + rest);
    if Has(rs[0].flags, FLAG_EOS) {
      assert StreamBytes(rs[1..]) + rest == rest;
    } else {
      StreamAccepted(After(disks, rs[0]), rs[1..], rest);
    }
  }

  lemma {:induction false} LegalWellformed(disks: Disks, r: Item)
    requires Legal(disks, r)
    ensures Wellformed(r)
  {
    hide And;
  }

  lemma {:induction false} StreamFrom(disks: Disks, s: seq<Byte>) returns (rs: seq<Item>)
    requires Load(disks, s).Ok?
    ensures IsStream(disks, rs, s, Load(disks, s).disks, Load(disks, s).rest)
    decreases |s|
  {
    hide Load, Legal, After, ItemBytes, Has, Wellformed;
    var r, rest := ItemFrom(disks, s);
    LegalWellformed(disks, r);
    ItemLoads(disks, r, rest);
    if Has(r.flags, FLAG_EOS) {
      rs := [r];
      StreamStep(rs, rest);
      assert StreamBytes(rs[1..]) + rest == rest;
    } else {
      var tail := StreamFrom(After(disks, r), rest);
      rs := [r] + tail;
      assert rs[1..] == tail;
      StreamStep(rs, Load(disks, s).rest);
    }
  }

  /** For every stream and every set of devices: block_load accepts the stream if and only if it is a sequence of legal
      records, and then it leaves what the records leave. */
  lemma {:induction false} LoadsIff(disks: Disks, s: seq<Byte>, disks': Disks, rest: seq<Byte>)
    ensures Load(disks, s) == Ok(disks', rest) <==> exists rs :: IsStream(disks, rs, s, disks', rest)
  {
    hide Load, LegalStream, AfterStream, StreamBytes;
    if Load(disks, s) == Ok(disks', rest) {
      var rs := StreamFrom(disks, s);
      assert IsStream(disks, rs, s, disks', rest);
    }
    if rs :| IsStream(disks, rs, s, disks', rest) {
      StreamAccepted(disks, rs, rest);
    }
  }

  // ----- What is refused, how, and what it leaves -----

  /** The first record is refused with this error and leaves these devices, a fresh buffer holding `junk`. */
  ghost predicate Refuses(disks: Disks, s: seq<Byte>, e: Error, junk: seq<Byte>, left: Disks)
    requires |junk| == BLOCK_SIZE
  {
    Load(disks, s) == Err(e) && Left(disks, s, junk) == left
  }

  /** Whatever follows a legal record without the end mark is loaded, or refused, on top of it. */
  lemma {:induction false} RefusedLater(disks: Disks, r: Item, rest: seq<Byte>, e: Error, junk: seq<Byte>, left: Disks)
    requires Legal(disks, r) && !Has(r.flags, FLAG_EOS) && |junk| == BLOCK_SIZE && Refuses(After(disks, r), rest, e, junk, left)
    ensures Refuses(disks, ItemBytes(r) + rest, e, junk, left)
  {
    hide And, LoadBlock, LeftBlock, BodyBytes, PutWord, GetWord;
    var w, s1 := r.sector * SECTOR_SIZE + r.flags, BodyBytes(r.body) + rest;
    SplitWord(r.sector, r.flags);
    GetPutWord(w, s1);
    assert ItemBytes(r) + rest == PutWord(w) + s1;
    if r.body.Chunk? {
      ChunkLoads(disks, r, rest);
    } else {
      NoBody(rest);
    }
  }

  lemma {:induction false} BlockRefused(disks: Disks, sector: nat, flags: nat, s: seq<Byte>, e: Error, junk: seq<Byte>, left: Disks)
    requires flags < SECTOR_SIZE && sector * SECTOR_SIZE < WORD_LIMIT && Has(flags, FLAG_DEVICE_BLOCK) && |junk| == BLOCK_SIZE
    requires LoadBlock(disks, s, sector) == Err(e) && LeftBlock(disks, s, sector, junk) == left
    ensures Refuses(disks, PutWord(sector * SECTOR_SIZE + flags) + s, e, junk, left)
  {
    hide And, LoadBlock, LeftBlock, PutWord, GetWord;
    SplitWord(sector, flags);
    GetPutWord(sector * SECTOR_SIZE + flags, s);
  }

  /** A block for a device there is not, or an empty one, is refused; one past the end of its device is an error; and
      nothing is written. */
  lemma {:induction false} BadBlockRefused(disks: Disks, sector: nat, flags: nat, raw: seq<Byte>, data: seq<Byte>, rest: seq<Byte>,
                                           junk: seq<Byte>)
    requires flags < SECTOR_SIZE && sector * SECTOR_SIZE < WORD_LIMIT && Has(flags, FLAG_DEVICE_BLOCK)
    requires |raw| < 256 && |data| == BLOCK_SIZE == |junk|
    ensures CString(raw) !in disks || Total(disks[CString(raw)]) == 0 ==>
              Refuses(disks, PutWord(sector * SECTOR_SIZE + flags) + (PutName(raw) + (data + rest)), EINVAL, junk, disks)
    ensures CString(raw) in disks && 0 < Total(disks[CString(raw)]) < sector ==>
              Refuses(disks, PutWord(sector * SECTOR_SIZE + flags) + (PutName(raw) + (data + rest)), EIO, junk, disks)
  {
    hide And, GetName, PutName;
    var s := PutName(raw) + (data + rest);
    GetRawName(raw, data + rest);
    GetPutBuffer(data, rest);
    if CString(raw) !in disks || Total(disks[CString(raw)]) == 0 {
      BlockRefused(disks, sector, flags, s, EINVAL, junk, disks);
    } else if Total(disks[CString(raw)]) < sector {
      BlockRefused(disks, sector, flags, s, EIO, junk, disks);
    }
  }

  predicate NoFlag(flags: nat) { !Has(flags, FLAG_DEVICE_BLOCK) && !Has(flags, FLAG_PROGRESS) && !Has(flags, FLAG_EOS) }

  /** A word with none of the three flags, or cut off, is refused. */
  lemma {:induction false} BadWordRefused(disks: Disks, sector: nat, flags: nat, s: seq<Byte>, junk: seq<Byte>)
    requires |junk| == BLOCK_SIZE
    ensures |s| < 8 ==> Refuses(disks, s, EINVAL, junk, disks)
    ensures flags < SECTOR_SIZE && sector * SECTOR_SIZE < WORD_LIMIT && NoFlag(flags) ==>
              Refuses(disks, PutWord(sector * SECTOR_SIZE + flags) + s, EINVAL, junk, disks)
  {
    hide And, LoadBlock, LeftBlock, PutWord;
    if flags < SECTOR_SIZE && sector * SECTOR_SIZE < WORD_LIMIT {
      SplitWord(sector, flags);
      GetPutWord(sector * SECTOR_SIZE + flags, s);
    }
  }

  /** A chunk cut off by the end of the stream: what there is of it, and then what the buffer held, has been written. */
  lemma {:induction false} CutBlockLeaves(disks: Disks, sector: nat, flags: nat, raw: seq<Byte>, got: seq<Byte>, junk: seq<Byte>)
    requires flags < SECTOR_SIZE && sector * SECTOR_SIZE < WORD_LIMIT && Has(flags, FLAG_DEVICE_BLOCK)
    requires |raw| < 256 && |got| < BLOCK_SIZE == |junk| && CString(raw) in disks
    requires 0 < Total(disks[CString(raw)]) && sector <= Total(disks[CString(raw)])
    ensures var name := CString(raw);
            var n := SectorsLeft(Total(disks[name]), sector);
            Refuses(disks, PutWord(sector * SECTOR_SIZE + flags) + (PutName(raw) + got), EIO, junk,
                    disks[name := Spliced(disks[name], sector * SECTOR_SIZE, (got + junk[|got|..])[..n * SECTOR_SIZE])])
  {
    hide And, GetName, PutName;
    GetRawName(raw, got);
    var name := CString(raw);
    var n := SectorsLeft(Total(disks[name]), sector);
    BlockRefused(disks, sector, flags, PutName(raw) + got, EIO, junk,
                 disks[name := Spliced(disks[name], sector * SECTOR_SIZE, (got + junk[|got|..])[..n * SECTOR_SIZE])]);
  }
}
