/** The stream of block migration: blk_send and the progress records of the sender, and block_load. */
module BlockStream {
  import opened NatBits
  import opened Sectors
  import opened Splicing
  import opened Wire

  const FLAG_DEVICE_BLOCK := 0x01
  const FLAG_EOS := 0x02
  const FLAG_PROGRESS := 0x04

  /** Device names and their contents. */
  type Disks = map<seq<Byte>, seq<Byte>>

  /** bdrv_getlength, in sectors. */
  function Total(disk: seq<Byte>): nat { |disk| / SECTOR_SIZE }

  // ----- The sender -----

  /** What fits the length byte of a name. */
  type Name = s: seq<Byte> | |s| < 256 witness []

  datatype Record = Block(name: Name, sector: nat, data: seq<Byte>) | Progress(percent: nat)

  /** A record for these disks: a known device, a sector on it, and a buffer of a whole chunk. */
  ghost predicate ValidRecord(disks: Disks, r: Record) {
    match r
    case Block(name, sector, data) =>
      && ValidName(name) && name in disks && sector < Total(disks[name]) && sector * SECTOR_SIZE < WORD_LIMIT
      && |data| == BLOCK_SIZE
    case Progress(percent) => percent <= 100
  }

  function Send(r: Record): seq<Byte> {
    match r
    case Block(name, sector, data) => PutWord(Or(sector * SECTOR_SIZE, FLAG_DEVICE_BLOCK)) + PutName(name) + data
    case Progress(percent) => PutWord(Or(percent * SECTOR_SIZE, FLAG_PROGRESS))
  }

  function SendAll(rs: seq<Record>): seq<Byte> {
    if rs == [] then PutWord(FLAG_EOS) else Send(rs[0]) + SendAll(rs[1..])
  }

  // ----- The receiver -----

  datatype Error = EINVAL | EIO

  datatype Loaded = Ok(disks: Disks, rest: seq<Byte>) | Err(error: Error)

  /** The sectors of a chunk that lie on the device. */
  function SectorsLeft(total: nat, addr: nat): int { if total - addr < CHUNK then total - addr else CHUNK }

  /** bdrv_write of the first sectors of the buffer; an error past the end of the device. */
  function Store(disks: Disks, name: seq<Byte>, addr: nat, buf: seq<Byte>): Option<Disks>
    requires name in disks && |buf| == BLOCK_SIZE
  {
    var n := SectorsLeft(Total(disks[name]), addr);
    if n < 0 then None
    else Some(disks[name := Spliced(disks[name], addr * SECTOR_SIZE, buf[..n * SECTOR_SIZE])])
  }

  function LoadBlock(disks: Disks, s: seq<Byte>, addr: nat): Loaded {
    match GetName(s)
    case Short => Err(EINVAL)
    case Got(name, s1) =>
      if name !in disks || Total(disks[name]) == 0 then Err(EINVAL) else
      match GetBuffer(s1, BLOCK_SIZE)
      case Short => Err(EIO)
      case Got(buf, s2) =>
        match Store(disks, name, addr, buf)
        case None => Err(EIO)
        case Some(disks') => Ok(disks', s2)
  }

  /** block_load. A word cut off by the end of the stream reads as one without known flags, and a name cut off
      as one of no device. */
  function Load(disks: Disks, s: seq<Byte>): Loaded
    decreases |s|
  {
    match GetWord(s)
    case Short => Err(EINVAL)
    case Got(w, s1) =>
      var flags, addr := And(w, SECTOR_SIZE - 1), w / SECTOR_SIZE;
      if And(flags, FLAG_DEVICE_BLOCK) != 0 then
        var r := LoadBlock(disks, s1, addr);
        if r.Err? then r else if And(flags, FLAG_EOS) != 0 then r else
          BlockShrinks(disks, s1, addr);
          Load(r.disks, r.rest)
      else if And(flags, FLAG_PROGRESS) == 0 && And(flags, FLAG_EOS) == 0 then Err(EINVAL)
      else if And(flags, FLAG_EOS) != 0 then Ok(disks, s1)
      else Load(disks, s1)
  }

  lemma {:induction false} BlockShrinks(disks: Disks, s: seq<Byte>, addr: nat)
    ensures LoadBlock(disks, s, addr).Ok? ==> |LoadBlock(disks, s, addr).rest| <= |s|
  {
  }

  /** After the load of a block has failed: a buffer cut off by the end of the stream has been written with
      whatever a fresh buffer held behind it. */
  function LeftBlock(disks: Disks, s: seq<Byte>, addr: nat, junk: seq<Byte>): Disks
    requires |junk| == BLOCK_SIZE
  {
    match GetName(s)
    case Short => disks
    case Got(name, s1) =>
      if name !in disks || Total(disks[name]) == 0 || |s1| >= BLOCK_SIZE then disks else
      match Store(disks, name, addr, s1 + junk[|s1|..])
      case None => disks
      case Some(disks') => disks'
  }

  /** After the whole load has failed: the records before have been loaded. */
  function Left(disks: Disks, s: seq<Byte>, junk: seq<Byte>): Disks
    requires |junk| == BLOCK_SIZE
    decreases |s|
  {
    match GetWord(s)
    case Short => disks
    case Got(w, s1) =>
      var flags, addr := And(w, SECTOR_SIZE - 1), w / SECTOR_SIZE;
      if And(flags, FLAG_DEVICE_BLOCK) != 0 then
        var r := LoadBlock(disks, s1, addr);
        if r.Err? then LeftBlock(disks, s1, addr, junk) else if And(flags, FLAG_EOS) != 0 then r.disks else
          BlockShrinks(disks, s1, addr);
          Left(r.disks, r.rest, junk)
      else if And(flags, FLAG_EOS) != 0 || And(flags, FLAG_PROGRESS) == 0 then disks
      else Left(disks, s1, junk)
  }

  // ----- The stream loads as it was sent -----

  /** What loading a record does. */
  function Applied(disks: Disks, r: Record): Disks
    requires r.Block? ==> r.name in disks && |r.data| == BLOCK_SIZE && r.sector <= Total(disks[r.name])
  {
    match r
    case Block(name, sector, data) =>
      disks[name := Spliced(disks[name], sector * SECTOR_SIZE, data[..SectorsLeft(Total(disks[name]), sector) * SECTOR_SIZE])]
    case Progress(_) => disks
  }

  lemma {:induction false} AppliedKeeps(disks: Disks, r: Record)
    requires ValidRecord(disks, r)
    ensures Applied(disks, r).Keys == disks.Keys
    ensures forall name :: name in disks ==> |Applied(disks, r)[name]| == |disks[name]|
  {
  }

  function SectorAt(bytes: seq<Byte>, s: nat): (r: seq<Byte>)
    requires (s + 1) * SECTOR_SIZE <= |bytes|
    ensures |r| == SECTOR_SIZE && forall k :: 0 <= k < SECTOR_SIZE ==> r[k] == bytes[s * SECTOR_SIZE + k]
  {
    bytes[s * SECTOR_SIZE..(s + 1) * SECTOR_SIZE]
  }

  /** Sector by sector: a block replaces the sectors of its chunk that lie on the device, and no others. */
  lemma {:induction false} AppliedSectors(disks: Disks, r: Record, s: nat)
    requires r.Block? && ValidRecord(disks, r) && s < Total(disks[r.name])
    ensures r.name in Applied(disks, r) && |Applied(disks, r)[r.name]| == |disks[r.name]|
    ensures SectorAt(Applied(disks, r)[r.name], s)
         == if r.sector <= s < r.sector + CHUNK then SectorAt(r.data, s - r.sector) else SectorAt(disks[r.name], s)
    ensures forall name :: name in disks && name != r.name ==> name in Applied(disks, r) && Applied(disks, r)[name] == disks[name]
  {
    var before, after := disks[r.name], Applied(disks, r)[r.name];
    var n := SectorsLeft(Total(before), r.sector);
    forall x | s * SECTOR_SIZE <= x < (s + 1) * SECTOR_SIZE
      ensures after[x] == if r.sector <= s < r.sector + n then r.data[x - r.sector * SECTOR_SIZE] else before[x]
    {
    }
  }

  lemma {:induction false} StillValid(disks: Disks, rs: seq<Record>)
    requires rs != [] && forall i :: 0 <= i < |rs| ==> ValidRecord(disks, rs[i])
    ensures ValidRecord(disks, rs[0])
    ensures forall i :: 0 <= i < |rs[1..]| ==> ValidRecord(Applied(disks, rs[0]), rs[1..][i])
  {
    assert ValidRecord(disks, rs[0]);
    AppliedKeeps(disks, rs[0]);
    forall i | 0 <= i < |rs[1..]|
      ensures ValidRecord(Applied(disks, rs[0]), rs[1..][i])
    {
      assert ValidRecord(disks, rs[i + 1]);
    }
  }

  function AppliedAll(disks: Disks, rs: seq<Record>): Disks
    requires forall i :: 0 <= i < |rs| ==> ValidRecord(disks, rs[i])
    decreases |rs|
  {
    if rs == [] then disks else
      assert ValidRecord(disks, rs[0]);
      StillValid(disks, rs);
      AppliedAll(Applied(disks, rs[0]), rs[1..])
  }

  lemma {:induction false} FlagTests()
    ensures And(FLAG_DEVICE_BLOCK, FLAG_DEVICE_BLOCK) != 0 && And(FLAG_DEVICE_BLOCK, FLAG_EOS) == 0
    ensures And(FLAG_PROGRESS, FLAG_DEVICE_BLOCK) == 0 && And(FLAG_PROGRESS, FLAG_PROGRESS) != 0
    ensures And(FLAG_PROGRESS, FLAG_EOS) == 0
    ensures And(FLAG_EOS, FLAG_DEVICE_BLOCK) == 0 && And(FLAG_EOS, FLAG_PROGRESS) == 0 && And(FLAG_EOS, FLAG_EOS) != 0
  {
  }

  /** A sector number shifted up and ORed with flags splits back into both. */
  lemma {:induction false} SplitWord(n: nat, flags: nat)
    requires n * SECTOR_SIZE < WORD_LIMIT && flags < SECTOR_SIZE
    ensures Or(n * SECTOR_SIZE, flags) == n * SECTOR_SIZE + flags < WORD_LIMIT
    ensures And(n * SECTOR_SIZE + flags, SECTOR_SIZE - 1) == flags && (n * SECTOR_SIZE + flags) / SECTOR_SIZE == n
  {
    hide And, Or, Low;
    assert Pow2(SECTOR_BITS) == SECTOR_SIZE;
    LowIsMod(n * SECTOR_SIZE, SECTOR_BITS);
    SplitAbove(n * SECTOR_SIZE, flags);
  }

  lemma {:induction false} SplitAbove(hi: nat, flags: nat)
    requires Low(hi, SECTOR_BITS) == 0 && flags < SECTOR_SIZE == Pow2(SECTOR_BITS)
    ensures Or(hi, flags) == hi + flags && And(hi + flags, SECTOR_SIZE - 1) == flags
  {
    hide Pow2, And, Or, Low;
    OrAbove(hi, 0, flags, SECTOR_BITS);
    OrZero(flags);
    LowOfSum(hi, flags, SECTOR_BITS);
    AndLowMask(hi + flags, SECTOR_BITS);
  }

  lemma {:induction false} BlockLoads(disks: Disks, r: Record, rest: seq<Byte>)
    requires r.Block? && ValidRecord(disks, r)
    ensures Load(disks, Send(r) + rest) == Load(Applied(disks, r), rest)
  {
    hide PutWord, GetWord, GetName, And, Or;
    var body := PutName(r.name) + (r.data + rest);
    SplitWord(r.sector, FLAG_DEVICE_BLOCK);
    FlagTests();
    GetPutWord(r.sector * SECTOR_SIZE + FLAG_DEVICE_BLOCK, body);
    GetPutName(r.name, r.data + rest);
    GetPutBuffer(r.data, rest);
    assert Send(r) + rest == PutWord(r.sector * SECTOR_SIZE + FLAG_DEVICE_BLOCK) + body;
  }

  lemma {:induction false} ProgressLoads(disks: Disks, r: Record, rest: seq<Byte>)
    requires r.Progress? && ValidRecord(disks, r)
    ensures Load(disks, Send(r) + rest) == Load(disks, rest)
  {
    SplitWord(r.percent, FLAG_PROGRESS);
    FlagTests();
    GetPutWord(r.percent * SECTOR_SIZE + FLAG_PROGRESS, rest);
  }

  lemma {:induction false} EosLoads(disks: Disks)
    ensures Load(disks, PutWord(FLAG_EOS)) == Ok(disks, [])
  {
    SplitWord(0, FLAG_EOS);
    FlagTests();
    GetPutWord(FLAG_EOS, []);
    assert PutWord(FLAG_EOS) + [] == PutWord(FLAG_EOS);
  }

  /** Whatever blocks and progress records are sent, the receiver writes exactly those blocks, in the order
      they were sent, each cut off at the end of its device. */
  lemma {:induction false} StreamLoads(disks: Disks, rs: seq<Record>)
    requires forall i :: 0 <= i < |rs| ==> ValidRecord(disks, rs[i])
    ensures Load(disks, SendAll(rs)) == Ok(AppliedAll(disks, rs), [])
    decreases |rs|
  {
    if rs == [] {
      EosLoads(disks);
    } else {
      assert ValidRecord(disks, rs[0]);
      var next := Applied(disks, rs[0]);
      StillValid(disks, rs);
      if rs[0].Block? {
        BlockLoads(disks, rs[0], SendAll(rs[1..]));
      } else {
        ProgressLoads(disks, rs[0], SendAll(rs[1..]));
      }
      StreamLoads(next, rs[1..]);
    }
  }

  // ----- One section for each time the sender is called -----

  /** Each call of the sender writes its records and an end mark. */
  function SendSections(rss: seq<seq<Record>>): seq<seq<Byte>> {
    if rss == [] then [] else [SendAll(rss[0])] + SendSections(rss[1..])
  }

  /** block_load is called once for each of them. */
  function LoadSections(disks: Disks, sections: seq<seq<Byte>>): Loaded
    decreases |sections|
  {
    if sections == [] then Ok(disks, []) else
    match Load(disks, sections[0])
    case Err(e) => Err(e)
    case Ok(disks', rest) => if rest != [] then Err(EINVAL) else LoadSections(disks', sections[1..])
  }

  function Joined(rss: seq<seq<Record>>): seq<Record> { if rss == [] then [] else rss[0] + Joined(rss[1..]) }

  ghost predicate AllValid(disks: Disks, rs: seq<Record>) { forall i :: 0 <= i < |rs| ==> ValidRecord(disks, rs[i]) }

  /** Records loaded in two parts. */
  lemma {:induction false} AppliedTwice(disks: Disks, a: seq<Record>, b: seq<Record>)
    requires AllValid(disks, a + b)
    ensures AllValid(disks, a) && AllValid(AppliedAll(disks, a), b)
    ensures AppliedAll(disks, a + b) == AppliedAll(AppliedAll(disks, a), b)
    decreases |a|
  {
    hide ValidRecord, Applied;
    assert forall i :: 0 <= i < |a| ==> (a + b)[i] == a[i];
    if a == [] {
      assert a + b == b;
    } else {
      StillValid(disks, a + b);
      assert (a + b)[1..] == a[1..] + b;
      AppliedTwice(Applied(disks, a[0]), a[1..], b);
    }
  }

  /** However the records are split up into sections, loading these one by one loads the records in order. */
  lemma {:induction false} SectionsLoad(disks: Disks, rss: seq<seq<Record>>)
    requires AllValid(disks, Joined(rss))
    ensures LoadSections(disks, SendSections(rss)) == Ok(AppliedAll(disks, Joined(rss)), [])
    decreases |rss|
  {
    hide ValidRecord, Load, SendAll;
    if rss != [] {
      AppliedTwice(disks, rss[0], Joined(rss[1..]));
      StreamLoads(disks, rss[0]);
      SectionsLoad(AppliedAll(disks, rss[0]), rss[1..]);
    }
  }

  // ----- block_load -----

  class BlockReceiver {
    var disks: Disks
    /** What a fresh buffer holds. */
    const junk: seq<Byte>

    constructor (disks: Disks, junk: seq<Byte>)
      ensures this.disks == disks && this.junk == junk
    {
      this.disks, this.junk := disks, junk;
    }

    /** A record of a device block. The device's length is only asked for when the device is not that of the
        record before, `prev`, whose length is `total`. */
    method ReadBlock(s: seq<Byte>, addr: nat, prev: Option<seq<Byte>>, total: nat)
      returns (r: Loaded, prev': Option<seq<Byte>>, total': nat)
      requires Remembered(disks, prev, total) && |junk| == BLOCK_SIZE
      modifies this
      ensures r == LoadBlock(old(disks), s, addr)
      ensures r.Ok? ==> disks == r.disks && Remembered(disks, prev', total')
      ensures r.Err? ==> disks == LeftBlock(old(disks), s, addr, junk)
    {
      hide GetName;
      prev', total' := prev, total;
      var got := GetName(s);
      if got.Short? {
        return Err(EINVAL), prev', total';
      }
      var name := got.value;
      if name !in disks {
        return Err(EINVAL), prev', total';
      }
      if prev != Some(name) {
        prev', total' := Some(name), Total(disks[name]);
        if total' <= 0 {
          return Err(EINVAL), prev', total';
        }
      }
      var n := if total' - addr < CHUNK then total' - addr else CHUNK;
      var buf := GetBuffer(got.rest, BLOCK_SIZE);
      if n < 0 {
        return Err(EIO), prev', total';
      }
      var data := if buf.Got? then buf.value else got.rest + junk[|got.rest|..];
      disks := disks[name := Spliced(disks[name], addr * SECTOR_SIZE, data[..n * SECTOR_SIZE])];
      r := if buf.Got? then Ok(disks, buf.rest) else Err(EIO);
    }

    /** The whole loop: what it loads is what the specification loads, or it fails for the same reason and leaves
        what the specification says. */
    method BlockLoad(s: seq<Byte>) returns (ret: Option<Error>, rest: seq<Byte>)
      requires |junk| == BLOCK_SIZE
      modifies this
      ensures match Load(old(disks), s)
              case Ok(d, left) => ret == None && disks == d && rest == left
              case Err(e) => ret == Some(e) && disks == Left(old(disks), s, junk)
    {
      hide LoadBlock, LeftBlock, And;
      rest := s;
      var prev: Option<seq<Byte>>, total := None, 0;
      while true
        invariant Load(old(disks), s) == Load(disks, rest) && Remembered(disks, prev, total)
        invariant Left(old(disks), s, junk) == Left(disks, rest, junk)
        decreases |rest|
      {
        var word := GetWord(rest);
        if word.Short? {
          return Some(EINVAL), rest;
        }
        var flags, addr := And(word.value, SECTOR_SIZE - 1), word.value / SECTOR_SIZE;
        rest := word.rest;
        if And(flags, FLAG_DEVICE_BLOCK) != 0 {
          BlockShrinks(disks, rest, addr);
          var r;
          r, prev, total := ReadBlock(rest, addr, prev, total);
          if r.Err? {
            return Some(r.error), rest;
          }
          rest := r.rest;
        } else if And(flags, FLAG_PROGRESS) == 0 && And(flags, FLAG_EOS) == 0 {
          return Some(EINVAL), rest;
        }
        if And(flags, FLAG_EOS) != 0 {
          return None, rest;
        }
      }
    }
  }

  ghost predicate Remembered(disks: Disks, prev: Option<seq<Byte>>, total: nat) {
    prev.Some? ==> prev.value in disks && total == Total(disks[prev.value]) && total > 0
  }
}
