/** From every state, whatever the interleaving so far, every request can still be brought to a successful end. */
module CopyProgress {
  import opened Clusters
  import opened CopyOnRead
  import opened CopyResults

  /** Some steps lead from s to t. */
  ghost predicate Reaches(s: Device, t: Device) {
    Inv(s) && exists steps :: CanRun(s, steps) && Run(s, steps) == t
  }

  lemma {:induction false} ReachSelf(s: Device)
    requires Inv(s)
    ensures Reaches(s, s)
  {
    assert CanRun(s, []) && Run(s, []) == s;
  }

  lemma {:induction false} ReachOn(s: Device, t: Device, step: Step)
    requires Reaches(s, t) && Inv(t) && Enabled(t, step)
    ensures Inv(Apply(t, step)) && Reaches(s, Apply(t, step))
  {
    hide Apply, Enabled, Serialised, AllGood, CorIds;
    StepKeeps(t, step);
    var steps :| CanRun(s, steps) && Run(s, steps) == t;
    OneMore(s, steps, step);
  }

  lemma {:induction false} OneMore(s: Device, steps: seq<Step>, step: Step)
    requires Inv(s) && CanRun(s, steps) && Inv(Run(s, steps)) && Enabled(Run(s, steps), step)
    ensures CanRun(s, steps + [step]) && Run(s, steps + [step]) == Apply(Run(s, steps), step)
    decreases |steps|
  {
    hide Apply, Enabled, Serialised, AllGood, CorIds;
    if steps == [] {
      assert steps + [step] == [step] && [step][1..] == [];
      StepKeeps(s, step);
    } else {
      StepKeeps(s, steps[0]);
      assert (steps + [step])[1..] == steps[1..] + [step];
      OneMore(Apply(s, steps[0]), steps[1..], step);
    }
  }

  /** A state on the way of request id, which is as it was submitted. */
  ghost predicate OnWay(s: Device, t: Device, id: nat) {
    Reaches(s, t) && Inv(t) && Served(s, id) && Served(t, id) && t.cos[id].req == s.cos[id].req && t.cluster == s.cluster
  }

  /** One more step on its way. */
  lemma {:induction false} OnWayStep(s: Device, t: Device, id: nat, step: Step)
    requires OnWay(s, t, id) && Enabled(t, step) && !IsEnd(step, id)
    ensures OnWay(s, Apply(t, step), id)
  {
    hide Apply, Enabled, Serialised, AllGood, CorIds, Reaches;
    ReachOn(s, t, step);
    ServedStep(t, step, id);
  }

  // ----- The others out of the way -----

  lemma {:induction false} RemoveShorter(xs: seq<nat>, x: nat)
    requires x in xs
    ensures |Remove(xs, x)| == |xs| - 1
  {
    if xs[0] != x {
      RemoveShorter(xs[1..], x);
    }
  }

  /** The other requests that are being served may all fail. */
  lemma {:induction false} OthersEnd(s: Device, t: Device, id: nat) returns (u: Device)
    requires OnWay(s, t, id)
    ensures OnWay(s, u, id) && forall j :: j in u.tracked ==> j == id
    decreases |t.tracked|
  {
    hide Serialised, AllGood, CorIds, Reaches, Remove, AfterEnd;
    u := t;
    if j :| j in t.tracked && j != id {
      OnWayStep(s, t, id, End(j, false));
      RemoveShorter(t.tracked, j);
      u := OthersEnd(s, Apply(t, End(j, false)), id);
    }
  }

  lemma {:induction false} HasFirst(xs: seq<nat>)
    ensures xs == [] || xs[0] in xs
  {
  }

  /** With no other request being served, this one is. */
  lemma {:induction false} GetsServed(s: Device, t: Device, id: nat) returns (u: Device)
    requires OnWay(s, t, id) && forall j :: j in t.tracked ==> j == id
    ensures OnWay(s, u, id) && TrackedPhase(u.cos[id].phase)
  {
    hide Serialised, AllGood, CorIds, Reaches, Region;
    u := t;
    if !TrackedPhase(t.cos[id].phase) {
      assert t.cos[id].phase.Woken?;
      HasFirst(t.tracked);
      OnWayStep(s, t, id, Resume(id));
      u := Apply(t, Resume(id));
    }
  }

  // ----- Reading and writing every sector -----

  ghost predicate InPhase(t: Device, id: nat, p: Phase) { id in t.cos && t.cos[id].phase == p }

  lemma {:induction false} ReadsAll(s: Device, t: Device, id: nat, n: nat) returns (u: Device)
    requires OnWay(s, t, id) && (InPhase(t, id, Reading) || InPhase(t, id, Filling)) && n <= ReadRange(t, t.cos[id]).count
    ensures OnWay(s, u, id) && InPhase(u, id, t.cos[id].phase)
    ensures var r := ReadRange(t, t.cos[id]); forall x :: r.start <= x < r.start + n ==> x in u.cos[id].buf
    decreases n
  {
    hide Serialised, AllGood, CorIds, Reaches, RoundToClusters;
    u := t;
    if n > 0 {
      u := ReadsAll(s, t, id, n - 1);
      var x := ReadRange(t, t.cos[id]).start + (n - 1);
      OnWayStep(s, u, id, ReadSector(id, x));
      u := Apply(u, ReadSector(id, x));
    }
  }

  lemma {:induction false} WritesBack(s: Device, t: Device, id: nat, n: nat) returns (u: Device)
    requires OnWay(s, t, id) && InPhase(t, id, WritingBack) && n <= Region(t, t.cos[id].req).count
    ensures OnWay(s, u, id) && InPhase(u, id, WritingBack)
    ensures var r := Region(t, t.cos[id].req); forall x :: r.start <= x < r.start + n ==> x in u.cos[id].done
    decreases n
  {
    hide Serialised, CorIds, Reaches, RoundToClusters;
    u := t;
    if n > 0 {
      u := WritesBack(s, t, id, n - 1);
      var x := Region(t, t.cos[id].req).start + (n - 1);
      assert Good(u, u.cos[id]) && Region(u, u.cos[id].req).Contains(x);
      OnWayStep(s, u, id, WriteBack(id, x));
      u := Apply(u, WriteBack(id, x));
    }
  }

  lemma {:induction false} WritesAll(s: Device, t: Device, id: nat, n: nat) returns (u: Device)
    requires OnWay(s, t, id) && InPhase(t, id, Writing) && n <= t.cos[id].req.range.count
    ensures OnWay(s, u, id) && InPhase(u, id, Writing)
    ensures var r := t.cos[id].req.range; forall x :: r.start <= x < r.start + n ==> x in u.cos[id].done
    decreases n
  {
    hide Serialised, CorIds, Reaches, Region;
    u := t;
    if n > 0 {
      u := WritesAll(s, t, id, n - 1);
      var x := t.cos[id].req.range.start + (n - 1);
      assert Good(u, u.cos[id]);
      OnWayStep(s, u, id, WriteSector(id, x));
      u := Apply(u, WriteSector(id, x));
    }
  }

  lemma {:induction false} StartsFilling(s: Device, t: Device, id: nat) returns (u: Device)
    requires OnWay(s, t, id) && InPhase(t, id, Checking)
    ensures OnWay(s, u, id) && InPhase(u, id, Filling)
  {
    hide Serialised, AllGood, CorIds, Reaches;
    OnWayStep(s, t, id, Check(id, false));
    u := Apply(t, Check(id, false));
  }

  /** A copy-on-read that has begun to fill its bounce buffer. */
  lemma {:induction false} Copies(s: Device, t: Device, id: nat) returns (u: Device)
    requires OnWay(s, t, id) && InPhase(t, id, Filling)
    ensures OnWay(s, u, id) && InPhase(u, id, WritingBack)
  {
    hide Serialised, AllGood, CorIds, Reaches, RoundToClusters;
    u := ReadsAll(s, t, id, Region(t, t.cos[id].req).count);
    OnWayStep(s, u, id, Filled(id));
    u := Apply(u, Filled(id));
  }

  /** Whatever has happened so far: any request in flight can still succeed. */
  lemma {:induction false} CanSucceed(s: Device, id: nat) returns (u: Device)
    requires Inv(s) && Served(s, id)
    ensures Reaches(s, u) && Inv(u) && Enabled(u, End(id, true))
  {
    hide Inv, Reaches, Apply;
    ReachSelf(s);
    u := OthersEnd(s, s, id);
    u := GetsServed(s, u, id);
    if InPhase(u, id, Checking) {
      u := StartsFilling(s, u, id);
    }
    if InPhase(u, id, Filling) {
      u := Copies(s, u, id);
    }
    if InPhase(u, id, WritingBack) {
      u := WritesBack(s, u, id, Region(u, u.cos[id].req).count);
    } else if InPhase(u, id, Reading) {
      u := ReadsAll(s, u, id, u.cos[id].req.range.count);
    } else {
      u := WritesAll(s, u, id, u.cos[id].req.range.count);
    }
  }
}
