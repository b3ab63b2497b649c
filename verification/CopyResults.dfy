/** What requests come to, over every interleaving: reads return what the disk held while they were served, guest
    writes take effect, a copy-on-read leaves its clusters in the overlay, and every request can succeed. */
module CopyResults {
  import opened Clusters
  import opened CopyOnRead

  // ----- A request from its submission to its end -----

  /** The request is waiting or being served. */
  ghost predicate Served(s: Device, id: nat) { id in s.cos && !s.cos[id].phase.Finished? }

  ghost predicate NoEnd(steps: seq<Step>, id: nat) { forall i :: 0 <= i < |steps| ==> !IsEnd(steps[i], id) }

  predicate IsEnd(step: Step, id: nat) { step.End? && step.id == id }

  /** What one step does to a request it does not end. */
  lemma {:induction false} ServedStep(s: Device, step: Step, id: nat)
    requires (forall i :: i in s.tracked ==> i in s.cos) && Enabled(s, step) && Served(s, id) && !IsEnd(step, id)
    ensures Served(Apply(s, step), id) && Apply(s, step).cos[id].req == s.cos[id].req && Apply(s, step).cluster == s.cluster
    ensures Apply(s, step).cos[id].buf == if step.ReadSector? && step.id == id then s.cos[id].buf[step.x := View(s, step.x)] else s.cos[id].buf
    ensures Apply(s, step).cos[id].done
         == if (step.WriteBack? || step.WriteSector?) && step.id == id then s.cos[id].done + {step.x} else s.cos[id].done
  {
    hide FirstOverlap, Remove, View, Region, Complete, IsCor;
  }

  // ----- Reads -----

  /** Some time during the steps the guest's own writes have left v in sector x, which holds d before them. */
  ghost predicate Held(s: Device, steps: seq<Step>, x: nat, d: Data, v: Data)
    requires Inv(s) && CanRun(s, steps)
    decreases |steps|
  {
    d == v || (steps != [] && (StepKeeps(s, steps[0]); Held(Apply(s, steps[0]), steps[1..], x, Written(s, steps[0], x, d), v)))
  }

  /** A sector in the buffer is as it was before the steps, or has been read during them. */
  lemma {:induction false} BufferHeld(s: Device, steps: seq<Step>, id: nat, x: nat)
    requires Inv(s) && CanRun(s, steps) && Served(s, id) && NoEnd(steps, id)
    ensures Served(Run(s, steps), id) && Run(s, steps).cos[id].req == s.cos[id].req && Run(s, steps).cluster == s.cluster
    ensures var buf, buf' := s.cos[id].buf, Run(s, steps).cos[id].buf;
            x in buf' ==> (x in buf && buf[x] == buf'[x]) || Held(s, steps, x, View(s, x), buf'[x])
    decreases |steps|
  {
    hide Apply, Enabled, Serialised, AllGood, CorIds, View, Written;
    if steps != [] {
      assert !IsEnd(steps[0], id);
      ServedStep(s, steps[0], id);
      StepKeeps(s, steps[0]);
      BufferHeld(Apply(s, steps[0]), steps[1..], id, x);
    }
  }

  /** A sector that no guest write touches during the steps holds one value. */
  lemma {:induction false} HeldAlone(s: Device, steps: seq<Step>, x: nat, d: Data, v: Data)
    requires Inv(s) && CanRun(s, steps) && Held(s, steps, x, d, v)
    requires forall i :: 0 <= i < |steps| ==> !(steps[i].WriteSector? && steps[i].x == x)
    ensures v == d && Replay(s, steps, x, d) == d
    decreases |steps|
  {
    hide Apply, Enabled, Serialised, AllGood, CorIds;
    ReplayAlone(s, steps, x, d);
    if d != v {
      StepKeeps(s, steps[0]);
      HeldAlone(Apply(s, steps[0]), steps[1..], x, d, v);
    }
  }

  lemma {:induction false} ReplayAlone(s: Device, steps: seq<Step>, x: nat, d: Data)
    requires Inv(s) && CanRun(s, steps)
    requires forall i :: 0 <= i < |steps| ==> !(steps[i].WriteSector? && steps[i].x == x)
    ensures Replay(s, steps, x, d) == d
    decreases |steps|
  {
    hide Apply, Enabled, Serialised, AllGood, CorIds;
    if steps != [] {
      StepKeeps(s, steps[0]);
      ReplayAlone(Apply(s, steps[0]), steps[1..], x, d);
    }
  }

  /** The request has just been submitted. */
  lemma {:induction false} JustSubmitted(s: Device, id: nat, req: Request)
    requires Inv(s) && Enabled(s, Submit(id, req))
    ensures var t := Apply(s, Submit(id, req));
            Served(t, id) && t.cos[id].req == req && t.cos[id].buf == map[] && t.cos[id].done == {} && View(t, 0) == View(s, 0)
    ensures forall x :: View(Apply(s, Submit(id, req)), x) == View(s, x)
  {
    hide Serialised, AllGood, CorIds, FirstOverlap;
  }

  /** Over every run: a read that succeeds, plain or copy-on-read, has for each sector it asked for a value that the
      guest's own writes left there at some moment between its submission and its end. If no guest write
      touched the sector in between, that is what the disk holds at its end. */
  lemma {:induction false} ReadReturns(s: Device, id: nat, req: Request, steps: seq<Step>, x: nat)
    requires Inv(s) && Enabled(s, Submit(id, req)) && !req.kind.Write? && req.range.Contains(x)
    requires Inv(Apply(s, Submit(id, req))) && CanRun(Apply(s, Submit(id, req)), steps) && NoEnd(steps, id)
    requires Enabled(Run(Apply(s, Submit(id, req)), steps), End(id, true))
    ensures var t := Apply(s, Submit(id, req));
            var end := Run(t, steps);
            && x in end.cos[id].buf && Held(t, steps, x, View(s, x), end.cos[id].buf[x])
            && ((forall i :: 0 <= i < |steps| ==> !(steps[i].WriteSector? && steps[i].x == x)) ==> end.cos[id].buf[x] == View(end, x))
  {
    hide Apply, Run, CanRun, Held, Replay, Serialised, CorIds, AllGood;
    var t := Apply(s, Submit(id, req));
    var end := Run(t, steps);
    JustSubmitted(s, id, req);
    BufferHeld(t, steps, id, x);
    Transparent(t, steps, x);
    ReadComplete(end, id, x);
    if forall i :: 0 <= i < |steps| ==> !(steps[i].WriteSector? && steps[i].x == x) {
      HeldAlone(t, steps, x, View(s, x), end.cos[id].buf[x]);
    }
  }

  lemma {:induction false} ReadComplete(s: Device, id: nat, x: nat)
    requires Inv(s) && Enabled(s, End(id, true)) && !s.cos[id].req.kind.Write? && s.cos[id].req.range.Contains(x)
    ensures x in s.cos[id].buf
  {
    assert Good(s, s.cos[id]);
    if s.cos[id].phase.WritingBack? {
      CopyOnReadReturnsView(s, id, x);
    }
  }

  // ----- Guest writes -----

  /** A sector that the request has written holds its data, unless another guest write writes it. */
  lemma {:induction false} WriteHolds(s: Device, steps: seq<Step>, id: nat, x: nat)
    requires Inv(s) && CanRun(s, steps) && Served(s, id) && NoEnd(steps, id) && IsData(s, id, x)
    requires forall i :: 0 <= i < |steps| ==> !(steps[i].WriteSector? && steps[i].x == x && steps[i].id != id)
    requires x in s.cos[id].done ==> View(s, x) == DataAt(s, id, x)
    ensures Served(Run(s, steps), id) && Run(s, steps).cos[id].req == s.cos[id].req && IsData(Run(s, steps), id, x)
    ensures x in Run(s, steps).cos[id].done ==> View(Run(s, steps), x) == DataAt(s, id, x)
    decreases |steps|
  {
    hide Apply, Enabled, Serialised, AllGood, CorIds, View;
    if steps != [] {
      assert !IsEnd(steps[0], id);
      ServedStep(s, steps[0], id);
      StepKeeps(s, steps[0]);
      NotBack(s, steps[0], id);
      WriteHolds(Apply(s, steps[0]), steps[1..], id, x);
    }
  }

  ghost predicate IsData(s: Device, id: nat, x: nat)
    requires id in s.cos
  {
    var req := s.cos[id].req;
    req.kind.Write? && req.range.start <= x < req.range.start + |req.kind.data|
  }

  ghost function DataAt(s: Device, id: nat, x: nat): Data
    requires id in s.cos && IsData(s, id, x)
  {
    s.cos[id].req.kind.data[x - s.cos[id].req.range.start]
  }

  /** A guest write writes nothing back. */
  lemma {:induction false} NotBack(s: Device, step: Step, id: nat)
    requires Inv(s) && Enabled(s, step) && id in s.cos && s.cos[id].req.kind.Write?
    ensures !(step.WriteBack? && step.id == id)
  {
    hide Consistent, Serialised;
    assert Good(s, s.cos[id]);
  }

  /** Over every run: at the end of a guest write that succeeds, each of its sectors shows its data, unless another
      guest write wrote the sector meanwhile. */
  lemma {:induction false} WriteTakesEffect(s: Device, id: nat, req: Request, steps: seq<Step>, x: nat)
    requires Inv(s) && Enabled(s, Submit(id, req)) && req.kind.Write? && req.range.Contains(x)
    requires Inv(Apply(s, Submit(id, req))) && CanRun(Apply(s, Submit(id, req)), steps) && NoEnd(steps, id)
    requires Enabled(Run(Apply(s, Submit(id, req)), steps), End(id, true))
    requires forall i :: 0 <= i < |steps| ==> !(steps[i].WriteSector? && steps[i].x == x && steps[i].id != id)
    ensures View(Run(Apply(s, Submit(id, req)), steps), x) == req.kind.data[x - req.range.start]
  {
    hide Apply, Run, CanRun, Serialised, CorIds, AllGood, View;
    var t := Apply(s, Submit(id, req));
    JustSubmitted(s, id, req);
    WriteHolds(t, steps, id, x);
    Transparent(t, steps, x);
    WriteComplete(Run(t, steps), id, x);
  }

  lemma {:induction false} WriteComplete(s: Device, id: nat, x: nat)
    requires Inv(s) && Enabled(s, End(id, true)) && s.cos[id].req.kind.Write? && s.cos[id].req.range.Contains(x)
    ensures x in s.cos[id].done
  {
    assert Good(s, s.cos[id]);
  }

  // ----- Copy-on-read fills the overlay -----

  /** What has been written back, and what a copy-on-read found allocated, is in the overlay. */
  ghost predicate Placed(s: Device, co: Coroutine) {
    && (co.phase.WritingBack? ==> forall x :: x in co.done ==> x in s.overlay)
    && (co.phase.Reading? && IsCor(co) ==> forall x :: co.req.range.Contains(x) ==> x in s.overlay)
  }

  ghost predicate AllPlaced(s: Device) { forall i :: i in s.cos ==> Placed(s, s.cos[i]) }

  lemma {:induction false} GoodOne(s: Device, i: nat)
    requires Inv(s) && i in s.cos
    ensures Good(s, s.cos[i]) && forall j :: j in s.tracked ==> j in s.cos
  {
  }

  /** One coroutine of the next state comes from the same of this one. */
  lemma {:induction false} PlacedOne(s: Device, step: Step, i: nat)
    requires Inv(s) && Enabled(s, step) && AllPlaced(s) && i in Apply(s, step).cos
    ensures Placed(Apply(s, step), Apply(s, step).cos[i])
  {
    hide Consistent, Serialised, AllGood, FirstOverlap, Remove, Region, Complete, View, BufferCurrent, WholeBuffer;
    if i in s.cos {
      assert Placed(s, s.cos[i]);
      GoodOne(s, i);
    }
  }

  lemma {:induction false} PlacedStep(s: Device, step: Step)
    requires Inv(s) && Enabled(s, step) && AllPlaced(s)
    ensures AllPlaced(Apply(s, step)) && forall x :: x in s.overlay ==> x in Apply(s, step).overlay
  {
    hide Serialised, CorIds, FirstOverlap, Remove, AfterEnd, Region, Complete, View, Placed;
    forall i | i in Apply(s, step).cos
      ensures Placed(Apply(s, step), Apply(s, step).cos[i])
    {
      PlacedOne(s, step, i);
    }
  }

  lemma {:induction false} PlacedRun(s: Device, steps: seq<Step>)
    requires Inv(s) && CanRun(s, steps) && AllPlaced(s)
    ensures AllPlaced(Run(s, steps)) && forall x :: x in s.overlay ==> x in Run(s, steps).overlay
    decreases |steps|
  {
    hide Apply, Enabled, Serialised, AllGood, CorIds, AllPlaced;
    if steps != [] {
      StepKeeps(s, steps[0]);
      PlacedStep(s, steps[0]);
      PlacedRun(Apply(s, steps[0]), steps[1..]);
    }
  }

  /** Over every run of a device that begins with nothing in flight: when a copy-on-read succeeds, every sector it
      asked for is in the overlay, and if it copied, so is every sector of its clusters; and they stay there. */
  lemma {:induction false} CopyFills(s: Device, steps: seq<Step>, id: nat, later: seq<Step>, x: nat)
    requires s.tracked == [] && s.cos == map[] && s.inFlight == 0 && Inv(s) && CanRun(s, steps)
    requires Inv(Run(s, steps)) && CanRun(Run(s, steps), later)
    requires Enabled(Run(s, steps), End(id, true)) && IsCor(Run(s, steps).cos[id])
    requires var co := Run(s, steps).cos[id];
             co.req.range.Contains(x) || (co.phase.WritingBack? && Region(Run(s, steps), co.req).Contains(x))
    ensures x in Run(s, steps).overlay && x in Run(Run(s, steps), later).overlay
  {
    hide Run, CanRun, Serialised, CorIds;
    var end := Run(s, steps);
    PlacedRun(s, steps);
    PlacedRun(end, later);
    assert Placed(end, end.cos[id]) && Good(end, end.cos[id]);
    RoundCovers(end.cluster, end.cos[id].req.range);
  }

  // ----- What is allocated is not copied -----

  /** A copy-on-read that is told its sectors are allocated writes nothing back, however it is interleaved. */
  lemma {:induction false} AllocatedNotCopied(s: Device, steps: seq<Step>, id: nat)
    requires Inv(s) && CanRun(s, steps) && id in s.cos && s.cos[id].phase.Reading? && NoEnd(steps, id)
    ensures id in Run(s, steps).cos && Run(s, steps).cos[id].phase.Reading?
    ensures forall i :: 0 <= i < |steps| ==> !(steps[i].WriteBack? && steps[i].id == id)
    decreases |steps|
  {
    hide Apply, Serialised, AllGood, CorIds, Region, Complete;
    if steps != [] {
      assert !IsEnd(steps[0], id);
      StepKeeps(s, steps[0]);
      ReadingStays(s, steps[0], id);
      AllocatedNotCopied(Apply(s, steps[0]), steps[1..], id);
    }
  }

  lemma {:induction false} ReadingStays(s: Device, step: Step, id: nat)
    requires Inv(s) && Enabled(s, step) && id in s.cos && s.cos[id].phase.Reading? && !IsEnd(step, id)
    ensures id in Apply(s, step).cos && Apply(s, step).cos[id].phase.Reading? && !(step.WriteBack? && step.id == id)
  {
    hide Serialised, AllGood, CorIds, FirstOverlap, Remove, Region, Complete, View;
  }

  /** It can be told so exactly if they all are; that sets it reading, and any other answer filling its bounce buffer. */
  lemma {:induction false} CheckDecides(s: Device, id: nat)
    requires Inv(s) && id in s.cos && s.cos[id].phase.Checking?
    ensures Enabled(s, Check(id, false)) && Apply(s, Check(id, false)).cos[id].phase.Filling?
    ensures Enabled(s, Check(id, true)) <==> forall x :: s.cos[id].req.range.Contains(x) ==> x in s.overlay
    ensures Enabled(s, Check(id, true)) ==> Apply(s, Check(id, true)).cos[id].phase.Reading?
  {
    var r := s.cos[id].req.range;
    if forall x :: r.Contains(x) ==> x in s.overlay {
      forall x | r.start <= x < r.start + r.count
        ensures x in s.overlay
      {
        assert r.Contains(x);
      }
    }
  }

  // ----- Without copy-on-read nobody waits -----

  ghost predicate NobodyWaits(s: Device) {
    forall i :: i in s.cos ==> !IsCor(s.cos[i]) && TrackedPhase(s.cos[i].phase)
  }

  /** As long as no copy-on-read is submitted, every request is served at once, overlapping or not. */
  lemma {:induction false} NoWaiting(s: Device, steps: seq<Step>)
    requires Inv(s) && CanRun(s, steps) && NobodyWaits(s)
    requires forall i :: 0 <= i < |steps| && steps[i].Submit? ==> !steps[i].req.kind.CopyOnRead?
    ensures NobodyWaits(Run(s, steps))
    decreases |steps|
  {
    hide Apply, Enabled, Serialised, AllGood, CorIds, NobodyWaits;
    if steps != [] {
      StepKeeps(s, steps[0]);
      NoWaitingStep(s, steps[0]);
      NoWaiting(Apply(s, steps[0]), steps[1..]);
    }
  }

  lemma {:induction false} NoWaitingStep(s: Device, step: Step)
    requires Inv(s) && Enabled(s, step) && NobodyWaits(s) && (step.Submit? ==> !step.req.kind.CopyOnRead?)
    ensures NobodyWaits(Apply(s, step))
  {
    hide Serialised, FirstOverlap, Remove, Region, Complete, View;
    assert CorIds(s) == {};
    if !step.Submit? && !step.Decrement? && !step.Resume? {
      assert Good(s, s.cos[step.id]);
    }
  }

  // ----- Who meets an overlapping request waits for it -----

  /** The request looks at the list with this step. */
  ghost predicate LooksUp(s: Device, step: Step, id: nat) {
    step == Resume(id) || (step.Submit? && step.id == id && (s.inFlight > 0 || step.req.kind.CopyOnRead?))
  }

  /** It then waits for the first request on the list that overlaps its clusters, if there is one. */
  lemma {:induction false} WaitsForFirst(s: Device, step: Step, id: nat)
    requires Inv(s) && Enabled(s, step) && LooksUp(s, step, id)
    ensures var req := if step.Submit? then step.req else s.cos[id].req;
            var hit := FirstOverlap(s.tracked, s.cos, Region(s, req));
            var phase := Apply(s, step).cos[id].phase;
            if hit.Some? then phase == Waiting(hit.value) else TrackedPhase(phase)
  {
    hide Serialised, AllGood, CorIds, Region;
    if step.Submit? {
      SameRegion(s, Arrive(s, id, step.req), step.req);
      SameList(s.tracked, s.cos, Arrive(s, id, step.req).cos, Region(s, step.req));
    }
  }

  lemma {:induction false} SameList(tracked: seq<nat>, cos: map<nat, Coroutine>, cos': map<nat, Coroutine>, r: Range)
    requires forall i :: i in tracked ==> i in cos && i in cos' && cos'[i] == cos[i]
    ensures FirstOverlap(tracked, cos', r) == FirstOverlap(tracked, cos, r)
  {
    if tracked != [] {
      SameList(tracked[1..], cos, cos', r);
    }
  }

  /** And it goes on waiting until that request ends. */
  lemma {:induction false} WaitsUntilEnd(s: Device, steps: seq<Step>, id: nat)
    requires Inv(s) && CanRun(s, steps) && id in s.cos && s.cos[id].phase.Waiting? && NoEnd(steps, s.cos[id].phase.on)
    ensures id in Run(s, steps).cos && Run(s, steps).cos[id] == s.cos[id]
    decreases |steps|
  {
    hide Apply, Enabled, Serialised, AllGood, CorIds;
    if steps != [] {
      assert !IsEnd(steps[0], s.cos[id].phase.on);
      StepKeeps(s, steps[0]);
      WaitingStays(s, steps[0], id);
      WaitsUntilEnd(Apply(s, steps[0]), steps[1..], id);
    }
  }

  lemma {:induction false} WaitingStays(s: Device, step: Step, id: nat)
    requires Inv(s) && Enabled(s, step) && id in s.cos && s.cos[id].phase.Waiting? && !IsEnd(step, s.cos[id].phase.on)
    ensures id in Apply(s, step).cos && Apply(s, step).cos[id] == s.cos[id]
  {
    hide Serialised, AllGood, CorIds, FirstOverlap, Remove, Region, Complete, View;
  }
}
