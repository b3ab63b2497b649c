/** Byte-granular reads and writes built on whole sectors (bdrv_pread and bdrv_pwrite in block.c). */
module ByteIo {
  import opened Sectors
  import opened Splicing
  import opened Wire

  /** How a sector request goes: success, or failure; a failing write has changed the bytes for
      which `wrote` holds. */
  datatype Fault = Fault(ok: bool, wrote: nat -> bool)

  /** Nothing outside [lo, hi) differs. */
  ghost predicate SameOutside(a: seq<Byte>, b: seq<Byte>, lo: nat, hi: nat) {
    |a| == |b| && forall x :: 0 <= x < |a| && !(lo <= x < hi) ==> a[x] == b[x]
  }

  /** Each byte is as before, or as the write would have left it. */
  ghost predicate Torn(before: seq<Byte>, after: seq<Byte>, off: nat, buf: seq<Byte>) {
    && |after| == |before|
    && forall x :: 0 <= x < |after| ==>
         after[x] == before[x] || (0 <= x - off < |buf| && after[x] == buf[x - off])
  }

  /** From one list of faults to come to the other, every request has been answered with success. */
  ghost predicate Passed(before: seq<Fault>, after: seq<Fault>) {
    |after| <= |before| && after == before[|before| - |after|..] && forall i :: 0 <= i < |before| - |after| ==> before[i].ok
  }

  /** Every request but the last has, and the last with failure. */
  ghost predicate Hit(before: seq<Fault>, after: seq<Fault>) {
    |after| < |before| && !before[|before| - |after| - 1].ok && after == before[|before| - |after|..]
    && forall i :: 0 <= i < |before| - |after| - 1 ==> before[i].ok
  }

  /** n requests to the device succeed exactly if their range is on it and none of them meets a fault, and they stop at
      the first that does. */
  ghost predicate Goes(ok: bool, inRange: bool, n: nat, before: seq<Fault>, after: seq<Fault>) {
    && |after| <= |before| <= |after| + n
    && if ok then inRange && Passed(before, after) && (|before| == |after| + n || after == [])
       else Hit(before, after) || (!inRange && Passed(before, after))
  }

  lemma {:induction false} GoesNone(before: seq<Fault>)
    ensures Goes(true, true, 0, before, before)
  {
  }

  lemma {:induction false} GoesOn(m: nat, a: seq<Fault>, b: seq<Fault>, ok: bool, inRange: bool, n: nat, c: seq<Fault>)
    requires Goes(true, true, m, a, b) && Goes(ok, inRange, n, b, c)
    ensures Goes(ok, inRange, m + n, a, c)
  {
  }

  /** On a device of whole sectors, a range is on it only if the sector of its first byte is. */
  lemma {:induction false} HeadOnDevice(size: nat, offset: nat, count: nat)
    requires size % SECTOR_SIZE == 0 && count > 0
    ensures offset + count <= size ==> (offset / SECTOR_SIZE + 1) * SECTOR_SIZE <= size
  {
  }

  /** And the last, partial sector is on it exactly if the range is. */
  lemma {:induction false} TailOnDevice(size: nat, first: nat, count: nat)
    requires size % SECTOR_SIZE == 0 && count % SECTOR_SIZE > 0
    ensures first * SECTOR_SIZE + count <= size <==> (first + count / SECTOR_SIZE + 1) * SECTOR_SIZE <= size
  {
  }

  /** Requests that stop short of all there are to be. */
  lemma {:induction false} GoesStop(inRange: bool, m: nat, before: seq<Fault>, after: seq<Fault>, all: bool, n: nat)
    requires Goes(false, inRange, m, before, after) && m <= n && (all ==> inRange)
    ensures Goes(false, all, n, before, after)
  {
  }

  /** The bytes before the first sector boundary. */
  function Head(offset: nat, count: nat): nat {
    var len := (SECTOR_SIZE - offset % SECTOR_SIZE) % SECTOR_SIZE;
    if len > count then count else len
  }

  function One(n: nat): nat { if n > 0 then 1 else 0 }

  /** The sector reads of a byte range: one for each of the part before a boundary, the whole sectors and the rest. */
  function Reads(offset: nat, count: nat): nat {
    var rest := count - Head(offset, count);
    One(Head(offset, count)) + One(rest / SECTOR_SIZE) + One(rest % SECTOR_SIZE)
  }

  lemma {:induction false} OneOf(n: nat)
    ensures One(n) == if n > 0 then 1 else 0
  {
  }

  lemma {:induction false} ReadsOf(offset: nat, count: nat, len: nat)
    requires len == Head(offset, count)
    ensures len <= count && Reads(offset, count) == One(len) + One((count - len) / SECTOR_SIZE) + One((count - len) % SECTOR_SIZE)
  {
  }

  /** The requests of a byte write: a part of a sector is read and written. */
  function Writes(offset: nat, count: nat): nat {
    var rest := count - Head(offset, count);
    2 * One(Head(offset, count)) + One(rest / SECTOR_SIZE) + 2 * One(rest % SECTOR_SIZE)
  }

  class Disk {
    var bytes: seq<Byte>
    var faults: seq<Fault>

    ghost predicate Valid()
      reads this
    {
      |bytes| % SECTOR_SIZE == 0
    }

    constructor (bytes: seq<Byte>, faults: seq<Fault>)
      requires |bytes| % SECTOR_SIZE == 0
      ensures Valid() && this.bytes == bytes && this.faults == faults
    {
      this.bytes, this.faults := bytes, faults;
    }

    method NextFault() returns (f: Fault)
      modifies this`faults
      ensures Goes(f.ok, true, 1, old(faults), faults)
    {
      if faults == [] {
        return Fault(true, x => false);
      }
      f := faults[0];
      faults := faults[1..];
    }

    /** bdrv_read: whole sectors, or an error; always an error past the end of the device. */
    method BdrvRead(sector: nat, n: nat) returns (ok: bool, buf: seq<Byte>)
      requires Valid()
      modifies this`faults
      ensures ok ==> (sector + n) * SECTOR_SIZE <= |bytes|
      ensures ok ==> buf == bytes[sector * SECTOR_SIZE..(sector + n) * SECTOR_SIZE]
      ensures Goes(ok, (sector + n) * SECTOR_SIZE <= |bytes|, 1, old(faults), faults)
    {
      buf := [];
      if (sector + n) * SECTOR_SIZE > |bytes| { return false, []; }
      var f := NextFault();
      if !f.ok { return false, []; }
      return true, bytes[sector * SECTOR_SIZE..(sector + n) * SECTOR_SIZE];
    }

    /** bdrv_write: the sectors are replaced; a failing write leaves each byte old or new. */
    method BdrvWrite(sector: nat, buf: seq<Byte>) returns (ok: bool)
      requires Valid() && |buf| % SECTOR_SIZE == 0
      modifies this
      ensures Valid()
      ensures ok ==> sector * SECTOR_SIZE + |buf| <= |old(bytes)|
                     && bytes == Spliced(old(bytes), sector * SECTOR_SIZE, buf)
      ensures !ok ==> Torn(old(bytes), bytes, sector * SECTOR_SIZE, buf)
      ensures Goes(ok, sector * SECTOR_SIZE + |buf| <= |old(bytes)|, 1, old(faults), faults)
    {
      var off := sector * SECTOR_SIZE;
      if off + |buf| > |bytes| { return false; }
      var f := NextFault();
      if !f.ok {
        var before := bytes;
        bytes := seq(|before|, x requires 0 <= x < |before| =>
          if 0 <= x - off < |buf| && f.wrote(x) then buf[x - off] else before[x]);
        return false;
      }
      bytes := Spliced(bytes, off, buf);
      return true;
    }

    /** bdrv_pread: on success exactly the bytes asked for, and it fails only for a range that is not on the device
        or a fault that is met. The disk is only read. */
    method Pread(offset: nat, count1: nat) returns (ok: bool, buf: seq<Byte>)
      requires Valid()
      modifies this`faults
      ensures ok && count1 > 0 ==> offset + count1 <= |bytes|
      ensures ok && count1 > 0 ==> buf == bytes[offset..offset + count1]
      ensures ok && count1 == 0 ==> buf == []
      ensures Goes(ok, count1 == 0 || offset + count1 <= |bytes|, Reads(offset, count1), old(faults), faults)
    {
      hide Goes, Reads, One;
      buf := [];
      var count := count1;
      var len := (SECTOR_SIZE - offset % SECTOR_SIZE) % SECTOR_SIZE;
      if len > count { len := count; }
      ReadsOf(offset, count1, len);
      OneOf(len);
      OneOf(0);
      var sector := offset / SECTOR_SIZE;
      GoesNone(faults);
      if len > 0 {
        ok, buf := ReadHead(offset, len);
        if !ok {
          HeadOnDevice(|bytes|, offset, count1);
          GoesStop((sector + 1) * SECTOR_SIZE <= |bytes|, 1, old(faults), faults, offset + count1 <= |bytes|, Reads(offset, count1));
          return;
        }
        count := count - len;
        if count == 0 { return true, buf; }
        sector := sector + 1;
      }
      if count == 0 { return true, buf; }
      HeadAligns(offset, len);
      ghost var mid := faults;
      var rest;
      ok, rest := ReadRest(sector, count);
      GoesOn(One(len), old(faults), mid, ok, offset + count1 <= |bytes|, One(count / SECTOR_SIZE) + One(count % SECTOR_SIZE), faults);
      if !ok { return; }
      SlicesJoin(bytes, offset, offset + len, offset + count1, buf, rest);
      buf := buf + rest;
    }

    /** The part before a sector boundary. */
    method ReadHead(offset: nat, len: nat) returns (ok: bool, buf: seq<Byte>)
      requires Valid() && 0 < len && offset % SECTOR_SIZE + len <= SECTOR_SIZE
      modifies this`faults
      ensures ok ==> offset + len <= |bytes| && buf == bytes[offset..offset + len]
      ensures Goes(ok, (offset / SECTOR_SIZE + 1) * SECTOR_SIZE <= |bytes|, 1, old(faults), faults)
    {
      hide Goes;
      var sector := offset / SECTOR_SIZE;
      var tmp;
      ok, tmp := BdrvRead(sector, 1);
      if !ok { return false, []; }
      buf := tmp[offset % SECTOR_SIZE..offset % SECTOR_SIZE + len];
      SliceWithin(bytes, sector * SECTOR_SIZE, (sector + 1) * SECTOR_SIZE, offset % SECTOR_SIZE, len);
    }

    /** The whole sectors and the last partial one. */
    method ReadRest(first: nat, count1: nat) returns (ok: bool, buf: seq<Byte>)
      requires Valid() && count1 > 0
      modifies this`faults
      ensures ok ==> first * SECTOR_SIZE + count1 <= |bytes|
      ensures ok ==> buf == bytes[first * SECTOR_SIZE..first * SECTOR_SIZE + count1]
      ensures Goes(ok, first * SECTOR_SIZE + count1 <= |bytes|, One(count1 / SECTOR_SIZE) + One(count1 % SECTOR_SIZE), old(faults), faults)
    {
      hide Goes;
      buf := [];
      var n := count1 / SECTOR_SIZE;
      GoesNone(faults);
      if n > 0 {
        ok, buf := BdrvRead(first, n);
        if !ok {
          GoesStop((first + n) * SECTOR_SIZE <= |bytes|, 1, old(faults), faults, first * SECTOR_SIZE + count1 <= |bytes|,
                   One(n) + One(count1 % SECTOR_SIZE));
          return;
        }
      }
      ok := true;
      var count := count1 - n * SECTOR_SIZE;
      if count > 0 {
        ghost var mid := faults;
        var tmp;
        ok, tmp := BdrvRead(first + n, 1);
        TailOnDevice(|bytes|, first, count1);
        GoesOn(One(n), old(faults), mid, ok, (first + n + 1) * SECTOR_SIZE <= |bytes|, 1, faults);
        if !ok { return; }
        ghost var lo, end := first * SECTOR_SIZE, (first + n) * SECTOR_SIZE;
        SlicePrefix(bytes, end, (first + n + 1) * SECTOR_SIZE, count);
        SlicesJoin(bytes, lo, end, end + count, buf, tmp[..count]);
        buf := buf + tmp[..count];
      }
    }

    /** bdrv_pwrite: on success exactly the given bytes change, to exactly the given data; on
        failure, wherever it strikes, nothing outside the range has changed. It fails only for a range that is not on
        the device or a fault that is met. */
    method Pwrite(offset: nat, data: seq<Byte>) returns (ok: bool)
      requires Valid()
      modifies this
      ensures Valid()
      ensures ok && data != [] ==> offset + |data| <= |old(bytes)| && bytes == Spliced(old(bytes), offset, data)
      ensures ok && data == [] ==> bytes == old(bytes)
      ensures SameOutside(old(bytes), bytes, offset, offset + |data|)
      ensures Goes(ok, data == [] || offset + |data| <= |old(bytes)|, Writes(offset, |data|), old(faults), faults)
    {
      hide Goes, Spliced, Reads;
      var count := |data|;
      var len := (SECTOR_SIZE - offset % SECTOR_SIZE) % SECTOR_SIZE;
      if len > count { len := count; }
      var sector := offset / SECTOR_SIZE;
      GoesNone(faults);
      if len > 0 {
        ok := PatchSector(sector, offset % SECTOR_SIZE, data[..len]);
        if !ok {
          HeadOnDevice(|bytes|, offset, |data|);
          GoesStop(sector * SECTOR_SIZE + SECTOR_SIZE <= |bytes|, 2, old(faults), faults, offset + |data| <= |bytes|, Writes(offset, |data|));
          return;
        }
        count := count - len;
        if count == 0 {
          assert data[..len] == data;
          return true;
        }
        sector := sector + 1;
      }
      if count == 0 { return true; }
      HeadAligns(offset, len);
      ghost var mid := faults;
      ok := WriteRest(sector, offset, data, len, old(bytes));
      GoesOn(2 * One(len), old(faults), mid, ok, offset + |data| <= |bytes|, One(count / SECTOR_SIZE) + 2 * One(count % SECTOR_SIZE), faults);
      assert data[..|data|] == data;
    }

    /** The whole sectors and the last partial one, once `done` bytes have been written. */
    method WriteRest(first: nat, ghost offset: nat, data: seq<Byte>, done: nat, ghost before: seq<Byte>)
      returns (ok: bool)
      requires Valid() && done < |data| && offset + done == first * SECTOR_SIZE
      requires WrittenUpTo(before, bytes, offset, data, done)
      modifies this
      ensures Valid()
      ensures ok ==> WrittenUpTo(before, bytes, offset, data, |data|)
      ensures SameOutside(before, bytes, offset, offset + |data|)
      ensures Goes(ok, offset + |data| <= |before|, One((|data| - done) / SECTOR_SIZE) + 2 * One((|data| - done) % SECTOR_SIZE), old(faults), faults)
    {
      hide Goes, WrittenUpTo, SameOutside;
      var n := (|data| - done) / SECTOR_SIZE;
      var pos := done + n * SECTOR_SIZE;
      ghost var all := One(n) + 2 * One((|data| - done) % SECTOR_SIZE);
      PartsLonger(before, bytes, offset, data, done);
      GoesNone(faults);
      if n > 0 {
        ok := WriteWhole(first, offset, data, done, n, before);
        if !ok {
          GoesStop(offset + pos <= |before|, 1, old(faults), faults, offset + |data| <= |before|, all);
          return;
        }
        PartsLonger(before, bytes, offset, data, pos);
      }
      ok := true;
      if pos < |data| {
        ghost var mid := faults;
        ok := WriteTail(first + n, offset, data, pos, before);
        GoesOn(One(n), old(faults), mid, ok, offset + |data| <= |before|, 2, faults);
      }
    }

    method WriteWhole(first: nat, ghost offset: nat, data: seq<Byte>, done: nat, n: nat, ghost before: seq<Byte>)
      returns (ok: bool)
      requires Valid() && n > 0 && done + n * SECTOR_SIZE <= |data| && offset + done == first * SECTOR_SIZE
      requires WrittenUpTo(before, bytes, offset, data, done)
      modifies this
      ensures Valid() && |bytes| == |before|
      ensures ok ==> offset + done + n * SECTOR_SIZE <= |before| && WrittenUpTo(before, bytes, offset, data, done + n * SECTOR_SIZE)
      ensures SameOutside(before, bytes, offset, offset + |data|)
      ensures Goes(ok, offset + done + n * SECTOR_SIZE <= |before|, 1, old(faults), faults)
    {
      hide Goes;
      var pos := done + n * SECTOR_SIZE;
      PartsOutside(before, bytes, offset, data, done);
      ok := BdrvWrite(first, data[done..pos]);
      if ok {
        SplicePieces(before, bytes, offset, data, done, pos - done);
      }
    }

    method WriteTail(sector: nat, ghost offset: nat, data: seq<Byte>, done: nat, ghost before: seq<Byte>)
      returns (ok: bool)
      requires Valid() && done < |data| < done + SECTOR_SIZE && offset + done == sector * SECTOR_SIZE
      requires WrittenUpTo(before, bytes, offset, data, done)
      modifies this
      ensures Valid()
      ensures ok ==> WrittenUpTo(before, bytes, offset, data, |data|)
      ensures SameOutside(before, bytes, offset, offset + |data|)
      ensures Goes(ok, offset + |data| <= |before|, 2, old(faults), faults)
    {
      hide Goes;
      PartsOutside(before, bytes, offset, data, done);
      assert data[done..] == data[done..done + (|data| - done)];
      TailOnDevice(|bytes|, sector, |data| - done);
      ok := PatchSector(sector, 0, data[done..]);
      if ok { SplicePieces(before, bytes, offset, data, done, |data| - done); }
    }

    /** Read one sector, replace part of it, write it back. */
    method PatchSector(sector: nat, at: nat, part: seq<Byte>) returns (ok: bool)
      requires Valid() && at + |part| <= SECTOR_SIZE
      modifies this
      ensures Valid()
      ensures ok ==> sector * SECTOR_SIZE + SECTOR_SIZE <= |old(bytes)|
                     && bytes == Spliced(old(bytes), sector * SECTOR_SIZE + at, part)
      ensures SameOutside(old(bytes), bytes, sector * SECTOR_SIZE + at, sector * SECTOR_SIZE + at + |part|)
      ensures Goes(ok, sector * SECTOR_SIZE + SECTOR_SIZE <= |old(bytes)|, 2, old(faults), faults)
    {
      hide Goes;
      ghost var inRange := sector * SECTOR_SIZE + SECTOR_SIZE <= |bytes|;
      var tmp;
      ok, tmp := BdrvRead(sector, 1);
      if !ok {
        GoesStop(inRange, 1, old(faults), faults, inRange, 2);
        return;
      }
      tmp := Spliced(tmp, at, part);
      ghost var mid := faults;
      ok := BdrvWrite(sector, tmp);
      GoesOn(1, old(faults), mid, ok, inRange, 1, faults);
    }
  }

  /** The first `done` bytes of a write have been written. */
  ghost predicate WrittenUpTo(before: seq<Byte>, now: seq<Byte>, offset: nat, data: seq<Byte>, done: nat)
    requires done <= |data|
  {
    if done == 0 then now == before
    else offset + done <= |before| && now == Spliced(before, offset, data[..done])
  }

  lemma {:induction false} PartsOutside(before: seq<Byte>, now: seq<Byte>, offset: nat, data: seq<Byte>, done: nat)
    requires done <= |data| && WrittenUpTo(before, now, offset, data, done)
    ensures SameOutside(before, now, offset, offset + done)
  {
  }

  lemma {:induction false} PartsLonger(before: seq<Byte>, now: seq<Byte>, offset: nat, data: seq<Byte>, done: nat)
    requires done <= |data| && WrittenUpTo(before, now, offset, data, done)
    ensures |now| == |before| && SameOutside(before, now, offset, offset + |data|)
  {
  }

  /** The next piece of a write that has got as far as `done`. */
  lemma {:induction false} SplicePieces(before: seq<Byte>, after: seq<Byte>, offset: nat, data: seq<Byte>,
                                        done: nat, more: nat)
    requires done + more <= |data| && offset + done + more <= |before|
    requires after == Spliced(if done == 0 then before else Spliced(before, offset, data[..done]), offset + done,
                              data[done..done + more])
    ensures after == Spliced(before, offset, data[..done + more])
    ensures more > 0 ==> WrittenUpTo(before, after, offset, data, done + more)
  {
  }

  /** The first, partial piece reaches to a sector boundary. */
  lemma {:induction false} HeadAligns(offset: nat, len: nat)
    requires len == (SECTOR_SIZE - offset % SECTOR_SIZE) % SECTOR_SIZE
    ensures offset + len == (offset / SECTOR_SIZE + if len > 0 then 1 else 0) * SECTOR_SIZE
  {
  }

  lemma {:induction false} SliceWithin(s: seq<Byte>, lo: nat, hi: nat, at: nat, n: nat)
    requires lo <= hi <= |s| && at + n <= hi - lo
    ensures s[lo..hi][at..at + n] == s[lo + at..lo + at + n]
  {
    var a, b := s[lo..hi][at..at + n], s[lo + at..lo + at + n];
    assert |a| == |b|;
    forall i | 0 <= i < n
      ensures a[i] == b[i]
    {
      assert a[i] == s[lo..hi][at + i] == s[lo + at + i];
    }
  }

  lemma {:induction false} SlicePrefix(s: seq<Byte>, lo: nat, hi: nat, n: nat)
    requires lo <= hi <= |s| && n <= hi - lo
    ensures s[lo..hi][..n] == s[lo..lo + n]
  {
  }

  lemma {:induction false} SlicesJoin(bytes: seq<Byte>, lo: nat, mid: nat, hi: nat, a: seq<Byte>, b: seq<Byte>)
    requires lo <= mid <= hi <= |bytes|
    requires a == bytes[lo..mid] && b == bytes[mid..hi]
    ensures a + b == bytes[lo..hi]
  {
  }
}
