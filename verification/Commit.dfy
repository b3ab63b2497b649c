/** Committing an overlay image into its backing file (the loop of bdrv_commit in block.c). */
module Commit {
  import opened Allocation
  import opened Wire

  const COMMIT_BUF_SECTORS: nat := 2048

  /** The contents of one sector. */
  type Data = seq<Byte>

  /** What a sector past the end of the backing file reads as. */
  function Zeroes(): Data { seq(512, i => 0) }

  /** What the guest sees at sector x: the overlay where it is allocated, else the backing file. */
  function View(overlay: map<nat, Data>, backing: seq<Data>, x: nat): Data {
    if x in overlay then overlay[x] else if x < |backing| then backing[x] else Zeroes()
  }

  /** How the environment answers one turn of the loop: at most how far is_allocated looks, whether
      the read and the write succeed, and which sectors a failing write has written all the same. */
  datatype Turn = Turn(look: nat, readOk: bool, writeOk: bool, torn: set<nat>)

  /** Neither its read nor its write fails. */
  predicate Fine(turn: Turn) { turn.readOk && turn.writeOk }

  /** The environment's answer to the i-th turn. */
  function TurnAt(turns: seq<Turn>, i: nat): Turn {
    if i < |turns| then turns[i] else Turn(COMMIT_BUF_SECTORS, true, true, {})
  }

  /** Where the turns have begun, one after the other from the first sector on: each has looked at some sectors, not
      more than fit the buffer, that are all in the overlay or all not. */
  ghost predicate Turned(at: seq<nat>, overlay: map<nat, Data>) {
    && at != [] && at[0] == 0
    && forall k :: 0 <= k < |at| - 1 ==> LookedAt(at[k], at[k + 1], overlay)
  }

  ghost predicate LookedAt(from: nat, to: nat, overlay: map<nat, Data>) {
    from < to <= from + COMMIT_BUF_SECTORS && forall x :: from <= x < to ==> (x in overlay <==> from in overlay)
  }

  /** The k-th turn that has been taken copies nothing, or succeeds. */
  ghost predicate WentWell(at: seq<nat>, overlay: map<nat, Data>, turns: seq<Turn>, k: nat)
    requires k < |at|
  {
    at[k] in overlay ==> Fine(TurnAt(turns, k))
  }

  /** The turns have gone well up to the end of the device; or all before the last have, and the last copies and fails,
      or the backing file is too short. */
  ghost predicate Answered(ok: bool, fits: bool, at: seq<nat>, overlay: map<nat, Data>, turns: seq<Turn>, total: nat) {
    && Turned(at, overlay) && (forall k :: 0 <= k < |at| - 1 ==> WentWell(at, overlay, turns, k))
    && var last := |at| - 1;
       if ok then fits && at[last] == total else at[last] in overlay && (!fits || !Fine(TurnAt(turns, last)))
  }

  lemma {:induction false} TurnedOn(at: seq<nat>, overlay: map<nat, Data>, turns: seq<Turn>, next: nat)
    requires Turned(at, overlay) && LookedAt(at[|at| - 1], next, overlay) && WentWell(at, overlay, turns, |at| - 1)
    requires forall k :: 0 <= k < |at| - 1 ==> WentWell(at, overlay, turns, k)
    ensures Turned(at + [next], overlay) && forall k :: 0 <= k < |at| ==> WentWell(at + [next], overlay, turns, k)
  {
    forall k | 0 <= k < |at|
      ensures WentWell(at + [next], overlay, turns, k)
    {
      assert WentWell(at, overlay, turns, k);
    }
  }

  /** What bdrv_make_empty does, if the driver has it: a failing one leaves some of the overlay, those in
      `kept`. */
  datatype MakeEmpty = Missing | Empties | Fails(kept: set<nat>)

  /** The overlay after it. */
  function Emptied(overlay: map<nat, Data>, how: MakeEmpty): map<nat, Data> {
    match how
    case Missing => overlay
    case Empties => map[]
    case Fails(kept) => map x | x in overlay && x in kept :: overlay[x]
  }

  /** A write of n sectors at `sector`; a failing one writes only those in `done`. */
  function WriteSectors(backing: seq<Data>, sector: nat, data: seq<Data>, done: set<nat>): (r: seq<Data>)
    requires sector + |data| <= |backing|
    ensures |r| == |backing|
    ensures forall x :: 0 <= x < |r| ==>
              r[x] == if sector <= x < sector + |data| && x in done then data[x - sector] else backing[x]
  {
    seq(|backing|, x requires 0 <= x < |backing| =>
      if sector <= x < sector + |data| && x in done then data[x - sector] else backing[x])
  }

  /** A write to the backing file where the overlay hides it is invisible, whatever is written and
      however much of it is. */
  lemma {:induction false} HiddenWrite(overlay: map<nat, Data>, backing: seq<Data>, sector: nat, data: seq<Data>,
                                       done: set<nat>, x: nat)
    requires sector + |data| <= |backing|
    requires forall y :: sector <= y < sector + |data| ==> y in overlay
    ensures View(overlay, WriteSectors(backing, sector, data, done), x) == View(overlay, backing, x)
  {
  }

  class Chain {
    const totalSectors: nat
    var overlay: map<nat, Data>
    var backing: seq<Data>

    ghost predicate Valid()
      reads this
    {
      forall x :: x in overlay ==> x < totalSectors
    }

    ghost function Visible(x: nat): Data
      reads this
    {
      View(overlay, backing, x)
    }

    constructor (totalSectors: nat, overlay: map<nat, Data>, backing: seq<Data>)
      requires forall x :: x in overlay ==> x < totalSectors
      ensures Valid() && this.totalSectors == totalSectors && this.overlay == overlay && this.backing == backing
    {
      this.totalSectors, this.overlay, this.backing := totalSectors, overlay, backing;
    }

    /** bdrv_read of allocated sectors. */
    method ReadOverlay(sector: nat, n: nat) returns (buf: seq<Data>)
      requires forall x :: sector <= x < sector + n ==> x in overlay
      ensures |buf| == n && forall i :: 0 <= i < n ==> buf[i] == Visible(sector + i)
    {
      buf := [];
      while |buf| < n
        invariant |buf| <= n && forall i :: 0 <= i < |buf| ==> buf[i] == Visible(sector + i)
      {
        buf := buf + [overlay[sector + |buf|]];
      }
    }

    /** One turn of the loop. Whatever succeeds or fails, the guest sees the same disk afterwards;
        after success the sectors looked at hold in the backing file what the guest sees. */
    method CommitTurn(sector: nat, turn: Turn) returns (ok: bool, n: nat)
      requires Valid() && sector < totalSectors
      modifies this`backing
      ensures Valid() && |backing| == |old(backing)|
      ensures forall x :: Visible(x) == old(Visible(x))
      ensures forall x :: 0 <= x < |backing| && (x < sector || x !in overlay) ==> backing[x] == old(backing[x])
      ensures ok ==> 1 <= n && sector + n <= totalSectors
      ensures ok ==> forall x :: sector <= x < sector + n ==> Settled(x)
      ensures ok ==> forall x :: sector <= x < sector + n && x in overlay ==> x < |backing| && Fine(turn)
      ensures ok ==> LookedAt(sector, sector + n, overlay)
      ensures !ok ==> sector in overlay && (!Fine(turn) || exists x :: x in overlay && x >= |backing|)
    {
      var present;
      var here := overlay;
      var isHere := (x: nat) => x in here;
      present, n := IsAllocated(isHere, totalSectors, sector, COMMIT_BUF_SECTORS, turn.look);
      forall x: nat | sector <= x < sector + n
        ensures x in overlay <==> present
      {
        assert isHere(x) == present;
      }
      if present {
        if !turn.readOk { return false, n; }
        var buf := ReadOverlay(sector, n);
        if sector + n > |backing| {
          assert sector + n - 1 in overlay;
          return false, n;
        }
        ghost var before := backing;
        var done := if turn.writeOk then overlay.Keys else turn.torn;
        forall x ensures View(overlay, WriteSectors(backing, sector, buf, done), x) == Visible(x) {
          HiddenWrite(overlay, backing, sector, buf, done, x);
        }
        backing := WriteSectors(backing, sector, buf, done);
        if !turn.writeOk { return false, n; }
      }
      ok := true;
    }

    /** The backing file has a place for every sector of the overlay. */
    ghost predicate Fits()
      reads this
    {
      forall x :: x in overlay ==> x < |backing|
    }

    /** Emptying the overlay would not change sector x. */
    ghost predicate Settled(x: nat)
      reads this
    {
      View(map[], backing, x) == Visible(x)
    }

    /** The whole commit. On every outcome, mid-loop failures included, the guest-visible disk is
        what it was and sectors that are not in the overlay are untouched. Once everything has been copied,
        every sector of the device is settled, so that the overlay can be emptied, wholly or in part,
        without a visible change. That comes about exactly if the backing file is long enough and no turn that
        copies fails; `at` says where each turn begins. */
    method BdrvCommit(turns: seq<Turn>, makeEmpty: MakeEmpty) returns (ok: bool, copied: bool, ghost at: seq<nat>)
      requires Valid()
      modifies this
      ensures Valid() && |backing| == |old(backing)|
      ensures forall x :: Visible(x) == old(Visible(x))
      ensures forall x :: 0 <= x < |backing| && x !in old(overlay) ==> backing[x] == old(backing[x])
      ensures copied ==> forall x :: 0 <= x < totalSectors && x < |backing| ==> backing[x] == old(Visible(x))
      ensures overlay == if copied then Emptied(old(overlay), makeEmpty) else old(overlay)
      ensures ok <==> copied && !makeEmpty.Fails?
      ensures Answered(copied, old(Fits()), at, old(overlay), turns, totalSectors)
    {
      copied, at := CopyAll(turns);
      if !copied { return false, false, at; }
      label emptying:
      overlay := Emptied(overlay, makeEmpty);
      forall x: nat ensures Visible(x) == old(Visible(x)) {
        if x < totalSectors { assert old@emptying(Settled(x)); }
      }
      forall x | 0 <= x < totalSectors && x < |backing| ensures backing[x] == old(Visible(x)) {
        assert old@emptying(Settled(x));
      }
      ok := !makeEmpty.Fails?;
    }

    /** The loop over the device. */
    method CopyAll(turns: seq<Turn>) returns (ok: bool, ghost at: seq<nat>)
      requires Valid()
      modifies this`backing
      ensures Valid() && |backing| == |old(backing)|
      ensures forall x :: Visible(x) == old(Visible(x))
      ensures forall x :: 0 <= x < |backing| && x !in overlay ==> backing[x] == old(backing[x])
      ensures ok ==> forall x :: 0 <= x < totalSectors ==> Settled(x)
      ensures Answered(ok, Fits(), at, overlay, turns, totalSectors)
    {
      at := [0];
      var sector, i := 0, 0;
      while sector < totalSectors
        invariant 0 <= sector <= totalSectors && 0 <= i && Valid() && |backing| == |old(backing)|
        invariant forall x :: Visible(x) == old(Visible(x))
        invariant forall x :: 0 <= x < |backing| && x !in overlay ==> backing[x] == old(backing[x])
        invariant forall x :: 0 <= x < sector ==> Settled(x)
        invariant forall x :: 0 <= x < sector && x in overlay ==> x < |backing|
        invariant |at| == i + 1 && at[i] == sector && Turned(at, overlay) && forall k :: 0 <= k < i ==> WentWell(at, overlay, turns, k)
      {
        var turn := TurnAt(turns, i);
        var n;
        label before:
        ok, n := CommitTurn(sector, turn);
        if !ok { return; }
        forall x | 0 <= x < sector ensures Settled(x) {
          assert old@before(Settled(x));
        }
        assert sector in overlay ==> Fine(turn);
        TurnedOn(at, overlay, turns, sector + n);
        at := at + [sector + n];
        sector, i := sector + n, i + 1;
      }
      ok := true;
    }
  }
}
