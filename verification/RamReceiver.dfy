/** The receiving side of RAM migration: ram_load and host_from_stream_offset. */
module RamReceiver {
  import opened NatBits
  import opened Wire
  import opened RamFormat

  /** Destination RAM, and the static `block` of host_from_stream_offset. */
  datatype Dest = Dest(ram: Memory, block: Option<Id>)

  ghost predicate ValidDest(d: Dest) {
    d.block.Some? ==> d.block.value in d.ram
  }

  /** EINVAL and EIO are returned; WILD is a write through a null or out-of-block pointer. */
  datatype Error = EINVAL | EIO | WILD

  datatype Result<+T> = Ok(value: T, rest: seq<Byte>) | Err(error: Error)

  /** The block list of a MEM_SIZE record, read until its lengths use up `total`. A name cut off by the end
      of the stream is the name of no block. */
  function LoadHeader(ram: Memory, s: seq<Byte>, total: nat): Result<()>
    decreases |s|
  {
    if total == 0 then Ok((), s) else
    match GetName(s)
    case Short => Err(EINVAL)
    case Got(id, s1) =>
      match GetWord(s1)
      case Short =>
        var length := GetCutWord(s1);
        if id !in ram || |ram[id]| * PAGE_SIZE != length || Subtract(total, length) != 0 then Err(EINVAL) else Err(EIO)
      case Got(length, s2) =>
        if id !in ram || |ram[id]| * PAGE_SIZE != length then Err(EINVAL)
        else LoadHeader(ram, s2, Subtract(total, length))
  }

  /** Subtraction of 64-bit words. */
  function Subtract(a: nat, b: nat): nat {
    (a + WORD_LIMIT - b % WORD_LIMIT) % WORD_LIMIT
  }

  datatype Found = Found(host: Option<Id>, rest: seq<Byte>)

  /** The block a page record is for; None when the record names no block of ours. */
  function FindHost(d: Dest, s: seq<Byte>, flags: nat): Found {
    if And(flags, FLAG_CONTINUE) != 0 then Found(d.block, s) else
    match GetName(s)
    case Short => Found(None, [])
    case Got(id, rest) => Found(if id in d.ram then Some(id) else None, rest)
  }

  function StorePage(ram: Memory, id: Id, addr: nat, p: Page, rest: seq<Byte>): Result<Dest>
    requires id in ram
  {
    var a := PageAddr(id, addr / PAGE_SIZE);
    if a.page >= |ram[id]| then Err(WILD) else Ok(Dest(WritePage(ram, a, p), Some(id)), rest)
  }

  function LoadCompressed(d: Dest, s: seq<Byte>, flags: nat, addr: nat): Result<Dest>
    requires ValidDest(d)
  {
    match FindHost(d, s, flags)
    case Found(None, _) => Err(EINVAL)
    case Found(Some(id), s1) =>
      match GetByte(s1)
      case Short => Err(if addr / PAGE_SIZE >= |d.ram[id]| then WILD else EIO)
      case Got(ch, s2) => StorePage(d.ram, id, addr, Fill(ch), s2)
  }

  /** Unlike a compressed page, a full page is stored without looking at a null host; what there is of it is
      stored even when the stream ends within it. */
  function LoadFull(d: Dest, s: seq<Byte>, flags: nat, addr: nat): Result<Dest>
    requires ValidDest(d)
  {
    match FindHost(d, s, flags)
    case Found(None, s1) => Err(if s1 == [] then EIO else WILD)
    case Found(Some(id), s1) =>
      match GetBuffer(s1, PAGE_SIZE)
      case Short => Err(if s1 != [] && addr / PAGE_SIZE >= |d.ram[id]| then WILD else EIO)
      case Got(p, s2) => StorePage(d.ram, id, addr, p, s2)
  }

  /** What follows the flagged word of a record. */
  function LoadBody(d: Dest, s: seq<Byte>, flags: nat, addr: nat): Result<Dest>
    requires ValidDest(d)
  {
    var h := if And(flags, FLAG_MEM_SIZE) != 0 then LoadHeader(d.ram, s, addr) else Ok((), s);
    match h
    case Err(e) => Err(e)
    case Ok(_, s1) =>
      if And(flags, FLAG_COMPRESS) != 0 then LoadCompressed(d, s1, flags, addr)
      else if And(flags, FLAG_PAGE) != 0 then LoadFull(d, s1, flags, addr)
      else Ok(d, s1)
  }

  lemma {:induction false} HeaderShrinks(ram: Memory, s: seq<Byte>, total: nat)
    ensures var r := LoadHeader(ram, s, total); r.Ok? ==> |r.rest| <= |s|
    decreases |s|
  {
    if total != 0 && GetName(s).Got? {
      var id, s1 := GetName(s).value, GetName(s).rest;
      if GetWord(s1).Got? && id in ram && |ram[id]| * PAGE_SIZE == GetWord(s1).value {
        HeaderShrinks(ram, GetWord(s1).rest, Subtract(total, GetWord(s1).value));
      }
    }
  }

  lemma {:induction false} BodyShrinks(d: Dest, s: seq<Byte>, flags: nat, addr: nat)
    requires ValidDest(d)
    ensures var r := LoadBody(d, s, flags, addr); r.Ok? ==> |r.rest| <= |s| && ValidDest(r.value)
  {
    hide And, LoadHeader;
    HeaderShrinks(d.ram, s, addr);
  }

  /** ram_load's loop: records up to and including one flagged EOS. */
  function LoadRecords(d: Dest, s: seq<Byte>): Result<Dest>
    requires ValidDest(d)
    decreases |s|
  {
    match GetWord(s)
    case Short => Err(EIO)
    case Got(w, s1) =>
      var flags, addr := And(w, PAGE_SIZE - 1), And(w, PAGE_MASK);
      BodyShrinks(d, s1, flags, addr);
      match LoadBody(d, s1, flags, addr)
      case Err(e) => Err(e)
      case Ok(d', s2) =>
        if And(flags, FLAG_EOS) != 0 then Ok(d', s2) else LoadRecords(d', s2)
  }

  function Load(d: Dest, s: seq<Byte>, version: int): Result<Dest>
    requires ValidDest(d)
  {
    if version != 4 then Err(EINVAL) else LoadRecords(d, s)
  }

  // ----- What a failing load leaves behind -----

  /** The page with its first bytes replaced by what there was of a full page. */
  function Partial(p: Page, got: seq<Byte>): Page
    requires |got| < PAGE_SIZE
  {
    got + p[|got|..]
  }

  /** After a compressed page has failed, other than by a wild write: cut off, it has been filled with zeros. */
  function LeftCompressed(d: Dest, s: seq<Byte>, flags: nat, addr: nat): Dest
    requires ValidDest(d)
  {
    match FindHost(d, s, flags)
    case Found(None, _) => d.(block := None)
    case Found(Some(id), _) =>
      var a := PageAddr(id, addr / PAGE_SIZE);
      Dest(if a.page < |d.ram[id]| then WritePage(d.ram, a, Fill(0)) else d.ram, Some(id))
  }

  /** After a full page has: cut off, it has been overwritten as far as it went. */
  function LeftFull(d: Dest, s: seq<Byte>, flags: nat, addr: nat): Dest
    requires ValidDest(d)
  {
    match FindHost(d, s, flags)
    case Found(None, _) => d.(block := None)
    case Found(Some(id), s1) =>
      var a := PageAddr(id, addr / PAGE_SIZE);
      Dest(if s1 != [] && a.page < |d.ram[id]| && |s1| < PAGE_SIZE then WritePage(d.ram, a, Partial(d.ram[id][a.page], s1))
           else d.ram, Some(id))
  }

  function LeftBody(d: Dest, s: seq<Byte>, flags: nat, addr: nat): Dest
    requires ValidDest(d)
  {
    var h := if And(flags, FLAG_MEM_SIZE) != 0 then LoadHeader(d.ram, s, addr) else Ok((), s);
    if h.Err? then d
    else if And(flags, FLAG_COMPRESS) != 0 then LeftCompressed(d, h.rest, flags, addr)
    else if And(flags, FLAG_PAGE) != 0 then LeftFull(d, h.rest, flags, addr)
    else d
  }

  /** After the whole loop has failed so: the records before have been loaded. */
  function LeftRecords(d: Dest, s: seq<Byte>): Dest
    requires ValidDest(d)
    decreases |s|
  {
    match GetWord(s)
    case Short => d
    case Got(w, s1) =>
      var flags, addr := And(w, PAGE_SIZE - 1), And(w, PAGE_MASK);
      BodyShrinks(d, s1, flags, addr);
      match LoadBody(d, s1, flags, addr)
      case Err(_) => LeftBody(d, s1, flags, addr)
      case Ok(d', s2) => if And(flags, FLAG_EOS) != 0 then d' else LeftRecords(d', s2)
  }

  /** The receiver as the program has it: RAM and the static block updated in place. */
  class Receiver {
    var ram: Memory
    var block: Option<Id>

    ghost predicate Valid()
      reads this
    {
      ValidDest(Dest(ram, block))
    }

    constructor (ram: Memory)
      ensures Valid() && this.ram == ram && block == None
    {
      this.ram := ram;
      block := None;
    }

    /** What a load that returns 0 leaves is exactly what the specification loads; a failing
        one fails for the reason the specification gives and, unless it would write wildly, leaves what the
        specification says. */
    method RamLoad(f: seq<Byte>, version: int) returns (r: Result<()>)
      requires Valid()
      modifies this
      ensures Valid()
      ensures match Load(old(Dest(ram, block)), f, version)
              case Ok(d, rest) => r == Ok((), rest) && ram == d.ram && block == d.block
              case Err(e) => r == Err(e)
      ensures r.Err? && r.error != WILD ==>
                Dest(ram, block) == old(if version == 4 then LeftRecords(Dest(ram, block), f) else Dest(ram, block))
    {
      hide And, LoadBody, LeftBody;
      if version < 4 || version > 4 {
        return Err(EINVAL);
      }
      var s := f;
      var done := false;
      while !done
        invariant Valid()
        invariant done ==> Load(old(Dest(ram, block)), f, version) == Ok(Dest(ram, block), s)
        invariant !done ==>
          && Load(old(Dest(ram, block)), f, version) == LoadRecords(Dest(ram, block), s)
          && LeftRecords(Dest(ram, block), s) == old(LeftRecords(Dest(ram, block), f))
        decreases if done then 0 else 1, |s|
      {
        var w := GetWord(s);
        if w.Short? { return Err(EIO); }
        var flags, addr := And(w.value, PAGE_SIZE - 1), And(w.value, PAGE_MASK);
        BodyShrinks(Dest(ram, block), w.rest, flags, addr);
        var r := ReadBody(w.rest, flags, addr);
        if r.Err? { return Err(r.error); }
        s := r.rest;
        done := And(flags, FLAG_EOS) != 0;
      }
      return Ok((), s);
    }

    /** What follows the word of a record. */
    method ReadBody(f: seq<Byte>, flags: nat, addr: nat) returns (r: Result<()>)
      requires Valid()
      modifies this
      ensures match LoadBody(old(Dest(ram, block)), f, flags, addr)
              case Ok(d, rest) => r == Ok((), rest) && ram == d.ram && block == d.block
              case Err(e) => r == Err(e)
      ensures r.Err? && r.error != WILD ==> Dest(ram, block) == old(LeftBody(Dest(ram, block), f, flags, addr))
      ensures Valid()
    {
      hide And, LoadHeader, LoadCompressed, LoadFull, LeftCompressed, LeftFull;
      var s := f;
      if And(flags, FLAG_MEM_SIZE) != 0 {
        var h := CheckBlocks(s, addr);
        if h.Err? { return Err(h.error); }
        s := h.rest;
      }
      if And(flags, FLAG_COMPRESS) != 0 {
        r := ReadCompressed(s, flags, addr);
      } else if And(flags, FLAG_PAGE) != 0 {
        r := ReadFull(s, flags, addr);
      } else {
        r := Ok((), s);
      }
    }

    method ReadCompressed(s: seq<Byte>, flags: nat, addr: nat) returns (r: Result<()>)
      requires Valid()
      modifies this
      ensures match LoadCompressed(old(Dest(ram, block)), s, flags, addr)
              case Ok(d, rest) => r == Ok((), rest) && ram == d.ram && block == d.block
              case Err(e) => r == Err(e)
      ensures r.Err? && r.error != WILD ==> Dest(ram, block) == old(LeftCompressed(Dest(ram, block), s, flags, addr))
      ensures Valid()
    {
      hide FindHost, Fill;
      var found := HostFromStreamOffset(s, flags);
      if found.host.None? { return Err(EINVAL); }
      var ch := GetByte(found.rest);
      var at := PageAddr(found.host.value, addr / PAGE_SIZE);
      if at.page >= |ram[at.id]| { return Err(WILD); }
      ram := WritePage(ram, at, Fill(if ch.Got? then ch.value else 0));
      if ch.Short? { return Err(EIO); }
      return Ok((), ch.rest);
    }

    method ReadFull(s: seq<Byte>, flags: nat, addr: nat) returns (r: Result<()>)
      requires Valid()
      modifies this
      ensures match LoadFull(old(Dest(ram, block)), s, flags, addr)
              case Ok(d, rest) => r == Ok((), rest) && ram == d.ram && block == d.block
              case Err(e) => r == Err(e)
      ensures r.Err? && r.error != WILD ==> Dest(ram, block) == old(LeftFull(Dest(ram, block), s, flags, addr))
      ensures Valid()
    {
      hide FindHost;
      var found := HostFromStreamOffset(s, flags);
      if found.rest == [] { return Err(EIO); }
      if found.host.None? { return Err(WILD); }
      var at := PageAddr(found.host.value, addr / PAGE_SIZE);
      if at.page >= |ram[at.id]| { return Err(WILD); }
      var page := GetBuffer(found.rest, PAGE_SIZE);
      if page.Short? {
        ram := WritePage(ram, at, Partial(ram[at.id][at.page], found.rest));
        return Err(EIO);
      }
      ram := WritePage(ram, at, page.value);
      return Ok((), page.rest);
    }

    /** The loop over the announced block list. */
    method CheckBlocks(f: seq<Byte>, announced: nat) returns (r: Result<()>)
      ensures r == LoadHeader(ram, f, announced)
    {
      var total, s := announced, f;
      while total != 0
        invariant LoadHeader(ram, f, announced) == LoadHeader(ram, s, total)
        decreases |s|
      {
        var name := GetName(s);
        if name.Short? { return Err(EINVAL); }
        var length := GetWord(name.rest);
        if length.Short? {
          var cut := GetCutWord(name.rest);
          if name.value !in ram || |ram[name.value]| * PAGE_SIZE != cut || Subtract(total, cut) != 0 { return Err(EINVAL); }
          return Err(EIO);
        }
        if name.value !in ram || |ram[name.value]| * PAGE_SIZE != length.value { return Err(EINVAL); }
        total, s := Subtract(total, length.value), length.rest;
      }
      return Ok((), s);
    }

    method HostFromStreamOffset(s: seq<Byte>, flags: nat) returns (r: Found)
      requires Valid()
      modifies this`block
      ensures Valid()
      ensures r == FindHost(Dest(ram, old(block)), s, flags) && block == r.host
    {
      if And(flags, FLAG_CONTINUE) != 0 {
        return Found(block, s);
      }
      var name := GetName(s);
      if name.Short? {
        block := None;
        return Found(None, []);
      }
      block := if name.value in ram then Some(name.value) else None;
      return Found(block, name.rest);
    }
  }
}
