/** Bottom halves and their re-entrant polling (async.c).

A callback may create, schedule, cancel and delete bottom halves and poll again, to any depth, so
polling is a machine with a stack of walks: each qemu_bh_poll in progress is one walk, and all but
the innermost are inside a callback.
*/
module BottomHalves {
  import opened Lists
  import opened Wire

  /** A QEMUBH; nodes are named by their addresses. */
  datatype Bh = Bh(scheduled: bool, idle: bool, deleted: bool, next: Option<nat>)

  /** A qemu_bh_poll in progress. `cursor` is where the walk goes on: the node to look at, or, while
      a callback runs, the saved `next`. `start` and `visited` record what the list was when the walk
      began and which nodes it has looked at since. */
  datatype Walk = Walk(cursor: Option<nat>, running: bool, ret: bool, start: seq<nat>, visited: seq<nat>)

  /** The allocated nodes, the head of the list, and the walks in progress, outermost first; the
      static nesting counter is their number. `order` records the list's nodes in order. */
  datatype Sched = Sched(heap: map<nat, Bh>, first: Option<nat>, walks: seq<Walk>, order: seq<nat>)

  // ----- Linked lists -----

  /** The i-th node, or null past the end. */
  function At(xs: seq<nat>, i: nat): Option<nat> { if i < |xs| then Some(xs[i]) else None }

  /** The i-th node of the list is allocated and points to the next. */
  ghost predicate NodeAt(heap: map<nat, Bh>, order: seq<nat>, i: nat)
    requires i < |order|
  {
    order[i] in heap && heap[order[i]].next == At(order, i + 1)
  }

  /** The nodes reached from p are these, in this order. */
  ghost predicate Linked(heap: map<nat, Bh>, p: Option<nat>, order: seq<nat>) {
    && p == At(order, 0)
    && forall i :: 0 <= i < |order| ==> NodeAt(heap, order, i)
  }

  predicate Keep(heap: map<nat, Bh>, id: nat) { id in heap && !heap[id].deleted }

  function Kept(heap: map<nat, Bh>, order: seq<nat>): seq<nat> {
    if order == [] then [] else (if Keep(heap, order[0]) then [order[0]] else []) + Kept(heap, order[1..])
  }

  lemma {:induction false} KeptIn(heap: map<nat, Bh>, order: seq<nat>)
    requires Distinct(order)
    ensures Distinct(Kept(heap, order))
    ensures forall id :: id in Kept(heap, order) <==> id in order && Keep(heap, id)
  {
    if order != [] {
      KeptIn(heap, order[1..]);
      assert order[0] !in order[1..];
      assert order == [order[0]] + order[1..];
    }
  }

  /** The nodes of a list, linked up in its order, everything else freed. */
  function Relink(heap: map<nat, Bh>, order: seq<nat>): (r: map<nat, Bh>)
    requires forall id :: id in order ==> id in heap
  {
    map id | id in heap && id in order :: heap[id].(next := At(order, IndexOf(order, id) + 1))
  }

  lemma {:induction false} RelinkLinks(heap: map<nat, Bh>, order: seq<nat>)
    requires Distinct(order) && forall id :: id in order ==> id in heap
    ensures Linked(Relink(heap, order), At(order, 0), order)
  {
    var r := Relink(heap, order);
    forall i | 0 <= i < |order|
      ensures NodeAt(r, order, i)
    {
      assert order[IndexOf(order, order[i])] == order[i];
    }
  }

  // ----- Steps -----

  datatype Step = New(id: nat) | Schedule(id: nat) | ScheduleIdle(id: nat) | Cancel(id: nat) | Delete(id: nat)
                | Poll | Visit | Return | Exit

  /** Code outside qemu_bh_poll is running: nothing polls, or the innermost poll is in a callback. */
  predicate InCaller(s: Sched) { s.walks == [] || s.walks[|s.walks| - 1].running }

  function Top(s: Sched): Walk
    requires s.walks != []
  {
    s.walks[|s.walks| - 1]
  }

  predicate Enabled(s: Sched, step: Step) {
    match step
    case New(id) => InCaller(s) && id !in s.heap
    case Schedule(id) => InCaller(s) && id in s.heap
    case ScheduleIdle(id) => InCaller(s) && id in s.heap
    case Cancel(id) => InCaller(s) && id in s.heap
    case Delete(id) => InCaller(s) && id in s.heap
    case Poll => InCaller(s)
    case Visit => s.walks != [] && !Top(s).running && Top(s).cursor.Some? && Top(s).cursor.value in s.heap
    case Return => s.walks != [] && Top(s).running
    case Exit => s.walks != [] && !Top(s).running && Top(s).cursor.None?
  }

  predicate Runnable(bh: Bh) { !bh.deleted && bh.scheduled }

  function SetTop(s: Sched, w: Walk): Sched
    requires s.walks != []
  {
    s.(walks := s.walks[|s.walks| - 1 := w])
  }

  function Apply(s: Sched, step: Step): Sched
    requires Enabled(s, step)
    requires forall id :: id in s.order ==> id in s.heap
  {
    match step
    case New(id) =>
      s.(heap := s.heap[id := Bh(false, false, false, s.first)], first := Some(id), order := [id] + s.order)
    case Schedule(id) =>
      if s.heap[id].scheduled then s else s.(heap := s.heap[id := s.heap[id].(scheduled := true, idle := false)])
    case ScheduleIdle(id) =>
      if s.heap[id].scheduled then s else s.(heap := s.heap[id := s.heap[id].(scheduled := true, idle := true)])
    case Cancel(id) => s.(heap := s.heap[id := s.heap[id].(scheduled := false)])
    case Delete(id) => s.(heap := s.heap[id := s.heap[id].(scheduled := false, deleted := true)])
    case Poll => s.(walks := s.walks + [Walk(s.first, false, false, s.order, [])])
    case Visit =>
      var w := Top(s);
      var id := w.cursor.value;
      var bh := s.heap[id];
      var w' := Advance(w, bh.next);
      if Runnable(bh) then
        SetTop(s, w'.(running := true, ret := w.ret || !bh.idle))
          .(heap := s.heap[id := bh.(scheduled := false, idle := false)])
      else SetTop(s, w')
    case Return => SetTop(s, Top(s).(running := false))
    case Exit =>
      var s' := s.(walks := s.walks[..|s.walks| - 1]);
      if s'.walks != [] then s' else
        var kept := Kept(s.heap, s.order);
        KeptSubset(s.heap, s.order);
        s'.(heap := Relink(s.heap, kept), first := At(kept, 0), order := kept)
  }

  lemma {:induction false} KeptSubset(heap: map<nat, Bh>, order: seq<nat>)
    ensures forall id :: id in Kept(heap, order) ==> id in order && id in heap
  {
    if order != [] { KeptSubset(heap, order[1..]); }
  }

  // ----- The invariant -----

  ghost predicate SuffixOf(xs: seq<nat>, ys: seq<nat>) {
    |xs| <= |ys| && forall i :: 0 <= i < |xs| ==> xs[i] == ys[|ys| - |xs| + i]
  }

  /** A walk has looked at the first nodes of the list it started with, in order, and goes on with
      the next of them. */
  ghost predicate ValidWalk(w: Walk, order: seq<nat>) {
    && SuffixOf(w.start, order)
    && w.visited <= w.start
    && w.cursor == At(w.start, |w.visited|)
  }

  /** The allocated nodes are exactly those of the list. */
  ghost predicate ValidList(heap: map<nat, Bh>, first: Option<nat>, order: seq<nat>) {
    Distinct(order) && (forall id :: id in order <==> id in heap) && Linked(heap, first, order)
  }

  ghost predicate ValidWalks(walks: seq<Walk>, order: seq<nat>) {
    && (forall i :: 0 <= i < |walks| ==> ValidWalk(walks[i], order))
    && (forall i :: 0 <= i < |walks| - 1 ==> walks[i].running)
  }

  ghost predicate Inv(s: Sched) {
    ValidList(s.heap, s.first, s.order) && ValidWalks(s.walks, s.order)
  }

  /** No walk, outer or inner, refers to a node that has been freed. */
  lemma {:induction false} NoDanglingCursor(s: Sched, i: nat)
    requires Inv(s) && i < |s.walks| && s.walks[i].cursor.Some?
    ensures s.walks[i].cursor.value in s.heap
  {
    var w := s.walks[i];
    assert ValidWalk(w, s.order);
    assert w.start[|w.visited|] == s.order[|s.order| - |w.start| + |w.visited|];
  }

  lemma {:induction false} FlagsKeep(s: Sched, id: nat, bh: Bh)
    requires Inv(s) && id in s.heap && bh.next == s.heap[id].next
    ensures Inv(s.(heap := s.heap[id := bh]))
  {
    FlagsKeepList(s.heap, s.first, s.order, id, bh);
  }

  lemma {:induction false} FlagsKeepList(heap: map<nat, Bh>, first: Option<nat>, order: seq<nat>, id: nat, bh: Bh)
    requires ValidList(heap, first, order) && id in heap && bh.next == heap[id].next
    ensures ValidList(heap[id := bh], first, order)
  {
    var heap' := heap[id := bh];
    forall i | 0 <= i < |order| ensures NodeAt(heap', order, i) {
      assert NodeAt(heap, order, i);
    }
  }

  lemma {:induction false} NewKeeps(s: Sched, id: nat)
    requires Inv(s) && id !in s.heap
    ensures Inv(s.(heap := s.heap[id := Bh(false, false, false, s.first)], first := Some(id), order := [id] + s.order))
  {
    NewKeepsList(s.heap, s.first, s.order, id);
    forall i | 0 <= i < |s.walks| ensures ValidWalk(s.walks[i], [id] + s.order) {
      NewKeepsWalk(s.walks[i], s.order, id);
    }
  }

  lemma {:induction false} NewKeepsList(heap: map<nat, Bh>, first: Option<nat>, order: seq<nat>, id: nat)
    requires ValidList(heap, first, order) && id !in heap
    ensures ValidList(heap[id := Bh(false, false, false, first)], Some(id), [id] + order)
  {
    var heap', order' := heap[id := Bh(false, false, false, first)], [id] + order;
    assert id !in order;
    forall i | 0 <= i < |order'|
      ensures NodeAt(heap', order', i)
    {
      if i > 0 { assert NodeAt(heap, order, i - 1); }
    }
  }

  lemma {:induction false} NewKeepsWalk(w: Walk, order: seq<nat>, id: nat)
    requires ValidWalk(w, order)
    ensures ValidWalk(w, [id] + order)
  {
  }

  /** Looking at one more node. */
  function Advance(w: Walk, next: Option<nat>): Walk
    requires w.cursor.Some?
  {
    w.(cursor := next, visited := w.visited + [w.cursor.value])
  }

  lemma {:induction false} VisitWalk(heap: map<nat, Bh>, first: Option<nat>, order: seq<nat>, w: Walk)
    requires Linked(heap, first, order) && ValidWalk(w, order) && w.cursor.Some?
    ensures w.cursor.value in heap && ValidWalk(Advance(w, heap[w.cursor.value].next), order)
  {
    var n, k := |w.visited|, |order| - |w.start|;
    assert w.start[n] == order[k + n];
    assert NodeAt(heap, order, k + n);
    assert n + 1 < |w.start| ==> w.start[n + 1] == order[k + n + 1];
  }

  lemma {:induction false} ExitKeeps(s: Sched)
    requires Inv(s) && Enabled(s, Exit)
    ensures Inv(Apply(s, Exit))
  {
    if |s.walks| == 1 {
      var kept := Kept(s.heap, s.order);
      KeptIn(s.heap, s.order);
      RelinkLinks(s.heap, kept);
    }
  }

  /** Every step keeps the invariant. */
  lemma {:induction false} StepKeeps(s: Sched, step: Step)
    requires Inv(s) && Enabled(s, step)
    ensures Inv(Apply(s, step))
  {
    match step
    case New(id) => NewKeeps(s, id);
    case Schedule(id) => FlagsKeep(s, id, s.heap[id].(scheduled := true, idle := false));
    case ScheduleIdle(id) => FlagsKeep(s, id, s.heap[id].(scheduled := true, idle := true));
    case Cancel(id) => FlagsKeep(s, id, s.heap[id].(scheduled := false));
    case Delete(id) => FlagsKeep(s, id, s.heap[id].(scheduled := false, deleted := true));
    case Poll => PollKeeps(s);
    case Visit => VisitKeeps(s);
    case Return =>
      assert ValidWalk(Top(s), s.order);
      TopKeeps(s, Top(s).(running := false));
    case Exit => ExitKeeps(s);
  }

  lemma {:induction false} PollKeeps(s: Sched)
    requires Inv(s) && InCaller(s)
    ensures Inv(s.(walks := s.walks + [Walk(s.first, false, false, s.order, [])]))
  {
    assert ValidWalk(Walk(s.first, false, false, s.order, []), s.order);
  }

  lemma {:induction false} TopKeeps(s: Sched, w: Walk)
    requires Inv(s) && s.walks != [] && ValidWalk(w, s.order)
    ensures Inv(SetTop(s, w))
  {
  }

  lemma {:induction false} VisitKeeps(s: Sched)
    requires Inv(s) && Enabled(s, Visit)
    ensures Inv(Apply(s, Visit))
  {
    var w := Top(s);
    var id := w.cursor.value;
    VisitWalk(s.heap, s.first, s.order, w);
    var bh := s.heap[id];
    var w' := Advance(w, bh.next);
    if Runnable(bh) {
      var run := w'.(running := true, ret := w.ret || !bh.idle);
      assert ValidWalk(run, s.order);
      TopKeeps(s, run);
      FlagsKeep(SetTop(s, run), id, bh.(scheduled := false, idle := false));
    } else {
      TopKeeps(s, w');
    }
  }

  // ----- Whole runs -----

  ghost predicate CanRun(s: Sched, steps: seq<Step>)
    requires Inv(s)
    decreases |steps|
  {
    steps == [] || (Enabled(s, steps[0]) && (StepKeeps(s, steps[0]); CanRun(Apply(s, steps[0]), steps[1..])))
  }

  ghost function Run(s: Sched, steps: seq<Step>): Sched
    requires Inv(s) && CanRun(s, steps)
    decreases |steps|
  {
    if steps == [] then s else
      StepKeeps(s, steps[0]);
      Run(Apply(s, steps[0]), steps[1..])
  }

  /** The step runs the callback of this node. */
  ghost predicate Runs(s: Sched, step: Step, id: nat) {
    step.Visit? && Enabled(s, step) && Top(s).cursor == Some(id) && Runnable(s.heap[id])
  }

  /** When the outermost poll ends, exactly the deleted nodes are freed and the rest keep their
      order and their flags. */
  lemma {:induction false} OutermostExitFrees(s: Sched, id: nat)
    requires Inv(s) && Enabled(s, Exit) && |s.walks| == 1
    ensures var s' := Apply(s, Exit);
            && (id in s'.heap <==> id in s.heap && !s.heap[id].deleted)
            && (id in s'.heap ==> s'.heap[id].(next := None) == s.heap[id].(next := None))
            && s'.order == Kept(s.heap, s.order)
  {
    KeptIn(s.heap, s.order);
  }

  /** The i-th step of the run ends the outermost poll. */
  ghost predicate EndsPollingAt(s: Sched, steps: seq<Step>, i: nat)
    requires Inv(s) && CanRun(s, steps) && i < |steps|
    decreases i
  {
    if i == 0 then steps[0] == Exit && |s.walks| == 1
    else (StepKeeps(s, steps[0]); EndsPollingAt(Apply(s, steps[0]), steps[1..], i - 1))
  }

  /** A step that frees a node ends the outermost poll and finds it deleted; a step that deletes a node is its
      delete. */
  lemma {:induction false} StepFrees(s: Sched, step: Step, id: nat)
    requires Inv(s) && Enabled(s, step) && id in s.heap
    ensures id !in Apply(s, step).heap ==> step == Exit && |s.walks| == 1 && s.heap[id].deleted
    ensures id in Apply(s, step).heap && Apply(s, step).heap[id].deleted && !s.heap[id].deleted ==> step == Delete(id)
  {
    hide Linked, ValidWalks, Kept, Relink;
    if step == Exit && |s.walks| == 1 {
      OutermostExitFrees(s, id);
    }
  }

  lemma {:induction false} FreedByPoll(s: Sched, steps: seq<Step>, id: nat) returns (m: nat)
    requires Inv(s) && CanRun(s, steps) && id in s.heap && id !in Run(s, steps).heap
    ensures m < |steps| && EndsPollingAt(s, steps, m)
    decreases |steps|
  {
    hide Apply, Enabled, Linked, ValidWalks;
    StepFrees(s, steps[0], id);
    StepKeeps(s, steps[0]);
    if id !in Apply(s, steps[0]).heap {
      m := 0;
    } else {
      m := FreedByPoll(Apply(s, steps[0]), steps[1..], id);
      m := m + 1;
    }
  }

  /** Over every run, however polls nest: a node that is freed has been deleted before, and a poll that was
      inside no other has ended since. */
  lemma {:induction false} FreedAfterDelete(s: Sched, steps: seq<Step>, id: nat) returns (k: nat, m: nat)
    requires Inv(s) && CanRun(s, steps) && id in s.heap && !s.heap[id].deleted && id !in Run(s, steps).heap
    ensures k < m < |steps| && steps[k] == Delete(id) && EndsPollingAt(s, steps, m)
    decreases |steps|
  {
    hide Apply, Enabled, Linked, ValidWalks;
    StepFrees(s, steps[0], id);
    StepKeeps(s, steps[0]);
    if steps[0] == Delete(id) {
      k := 0;
      m := FreedByPoll(Apply(s, steps[0]), steps[1..], id);
    } else {
      k, m := FreedAfterDelete(Apply(s, steps[0]), steps[1..], id);
      k := k + 1;
    }
    m := m + 1;
  }

  /** Nothing is freed while polling goes on: through any steps none of which ends the outermost poll, every node
      stays allocated. */
  lemma {:induction false} NoFreeWhilePolling(s: Sched, steps: seq<Step>, id: nat)
    requires Inv(s) && CanRun(s, steps) && id in s.heap
    requires forall m :: 0 <= m < |steps| ==> !EndsPollingAt(s, steps, m)
    ensures id in Run(s, steps).heap
  {
    if id !in Run(s, steps).heap {
      var m := FreedByPoll(s, steps, id);
    }
  }

  /** When a walk ends it has looked at every node that was in the list when it began, once each and
      in order. */
  lemma {:induction false} WalkComplete(s: Sched)
    requires Inv(s) && Enabled(s, Exit)
    ensures Top(s).visited == Top(s).start
  {
    assert ValidWalk(Top(s), s.order);
  }

  // ----- One run for each schedule -----

  /** Not scheduled, whether allocated or not. */
  ghost predicate Unscheduled(s: Sched, id: nat) { id in s.heap ==> !s.heap[id].scheduled }

  predicate Schedules(step: Step, id: nat) { step == Schedule(id) || step == ScheduleIdle(id) }

  lemma {:induction false} UnscheduledStays(s: Sched, step: Step, id: nat)
    requires Inv(s) && Enabled(s, step) && Unscheduled(s, id) && !Schedules(step, id)
    ensures Unscheduled(Apply(s, step), id) && !Runs(s, step, id)
  {
    hide ValidList, ValidWalks, Kept, Relink;
    if step.Exit? && |s.walks| == 1 { OutermostExitFrees(s, id); }
  }

  lemma {:induction false} RunUnschedules(s: Sched, step: Step, id: nat)
    requires Inv(s) && Runs(s, step, id)
    ensures Unscheduled(Apply(s, step), id)
  {
  }

  /** The i-th step of the run runs the callback of this node. */
  ghost predicate RunsAt(s: Sched, steps: seq<Step>, i: nat, id: nat)
    requires Inv(s) && CanRun(s, steps) && i < |steps|
    decreases i
  {
    if i == 0 then Runs(s, steps[0], id) else (StepKeeps(s, steps[0]); RunsAt(Apply(s, steps[0]), steps[1..], i - 1, id))
  }

  /** A node that is not scheduled does not run before it is scheduled. */
  lemma {:induction false} ScheduledFirst(s: Sched, steps: seq<Step>, j: nat, id: nat) returns (k: nat)
    requires Inv(s) && CanRun(s, steps) && j < |steps| && RunsAt(s, steps, j, id) && Unscheduled(s, id)
    ensures k < j && Schedules(steps[k], id)
    decreases j
  {
    hide Apply, Enabled, Linked, ValidWalks;
    if Schedules(steps[0], id) {
      k := 0;
      NotARun(s, steps[0], id);
    } else {
      UnscheduledStays(s, steps[0], id);
      StepKeeps(s, steps[0]);
      k := ScheduledFirst(Apply(s, steps[0]), steps[1..], j - 1, id);
      k := k + 1;
    }
  }

  lemma {:induction false} NotARun(s: Sched, step: Step, id: nat)
    requires Schedules(step, id)
    ensures !Runs(s, step, id)
  {
  }

  /** Over every run, however polls nest: between two runs of a node's callback the node is scheduled again. */
  lemma {:induction false} RunsOncePerSchedule(s: Sched, steps: seq<Step>, i: nat, j: nat, id: nat) returns (k: nat)
    requires Inv(s) && CanRun(s, steps) && i < j < |steps| && RunsAt(s, steps, i, id) && RunsAt(s, steps, j, id)
    ensures i < k < j && Schedules(steps[k], id)
    decreases i
  {
    hide Apply, Enabled, Linked, ValidWalks;
    StepKeeps(s, steps[0]);
    if i == 0 {
      RunUnschedules(s, steps[0], id);
      k := ScheduledFirst(Apply(s, steps[0]), steps[1..], j - 1, id);
    } else {
      k := RunsOncePerSchedule(Apply(s, steps[0]), steps[1..], i - 1, j - 1, id);
    }
    k := k + 1;
  }

  /** Deleted, and not yet created again at the same address. */
  ghost predicate Gone(s: Sched, id: nat) { id in s.heap ==> s.heap[id].deleted }

  lemma {:induction false} GoneStays(s: Sched, step: Step, id: nat)
    requires Inv(s) && Enabled(s, step) && Gone(s, id) && step != New(id)
    ensures Gone(Apply(s, step), id) && !Runs(s, step, id)
  {
    if step.Exit? {
      if |s.walks| == 1 { OutermostExitFrees(s, id); }
    }
  }

  /** No callback runs after its node's delete, however the calls nest, unless the address is
      allocated again: each step of any continuation leaves the node gone and does not run it. */
  lemma {:induction false} NoCallbackAfterDelete(s: Sched, id: nat, steps: seq<Step>)
    requires Inv(s) && Enabled(s, Delete(id))
    requires forall i :: 0 <= i < |steps| ==> steps[i] != New(id)
    ensures Inv(Apply(s, Delete(id)))
    ensures CanRun(Apply(s, Delete(id)), steps) ==> NeverRuns(Apply(s, Delete(id)), steps, id)
  {
    StepKeeps(s, Delete(id));
    if CanRun(Apply(s, Delete(id)), steps) { GoneNeverRuns(Apply(s, Delete(id)), steps, id); }
  }

  ghost predicate NeverRuns(s: Sched, steps: seq<Step>, id: nat)
    requires Inv(s) && CanRun(s, steps)
    decreases |steps|
  {
    steps == [] || (!Runs(s, steps[0], id)
                    && (StepKeeps(s, steps[0]); NeverRuns(Apply(s, steps[0]), steps[1..], id)))
  }

  lemma {:induction false} GoneNeverRuns(s: Sched, steps: seq<Step>, id: nat)
    requires Inv(s) && CanRun(s, steps) && Gone(s, id)
    requires forall i :: 0 <= i < |steps| ==> steps[i] != New(id)
    ensures NeverRuns(s, steps, id)
    decreases |steps|
  {
    if steps != [] {
      StepKeeps(s, steps[0]);
      GoneStays(s, steps[0], id);
      GoneNeverRuns(Apply(s, steps[0]), steps[1..], id);
    }
  }

  /** Safety over every run: whatever callbacks do, at any nesting, every walk in progress refers only
      to allocated nodes. */
  lemma {:induction false} RunSafe(s: Sched, steps: seq<Step>, i: nat)
    requires Inv(s) && CanRun(s, steps) && i < |Run(s, steps).walks|
    ensures Inv(Run(s, steps))
    ensures var w := Run(s, steps).walks[i]; w.cursor.Some? ==> w.cursor.value in Run(s, steps).heap
    decreases |steps|
  {
    if steps == [] {
      if s.walks[i].cursor.Some? { NoDanglingCursor(s, i); }
    } else {
      StepKeeps(s, steps[0]);
      RunSafe(Apply(s, steps[0]), steps[1..], i);
    }
  }

  // ----- The removal loop on the pointers -----

  /** From p the nodes of `seg` lead to q. */
  ghost predicate Segment(heap: map<nat, Bh>, p: Option<nat>, seg: seq<nat>, q: Option<nat>) {
    && p == (if seg == [] then q else Some(seg[0]))
    && forall i :: 0 <= i < |seg| ==> SegmentAt(heap, seg, i, q)
  }

  ghost predicate SegmentAt(heap: map<nat, Bh>, seg: seq<nat>, i: nat, q: Option<nat>)
    requires i < |seg|
  {
    seg[i] in heap && heap[seg[i]].next == if i + 1 < |seg| then Some(seg[i + 1]) else q
  }

  lemma {:induction false} SegmentIsLinked(heap: map<nat, Bh>, p: Option<nat>, seg: seq<nat>)
    ensures Segment(heap, p, seg, None) <==> Linked(heap, p, seg)
  {
    forall i | 0 <= i < |seg| ensures SegmentAt(heap, seg, i, None) <==> NodeAt(heap, seg, i) {}
  }

  /** The same nodes, next pointers aside, with only those of `ids` left. */
  ghost predicate SameNodes(heap: map<nat, Bh>, heap': map<nat, Bh>, ids: set<nat>) {
    && heap'.Keys == ids && ids <= heap.Keys
    && forall id :: id in ids ==> heap'[id] == heap[id].(next := heap'[id].next)
  }

  /** A heap with these nodes, linked in this order, is the relinked one. */
  lemma {:induction false} RelinkUnique(heap: map<nat, Bh>, heap': map<nat, Bh>, first': Option<nat>, order: seq<nat>)
    requires Distinct(order) && SameNodes(heap, heap', set id | id in order) && Linked(heap', first', order)
    ensures heap' == Relink(heap, order) && first' == At(order, 0)
  {
    var r := Relink(heap, order);
    forall id | id in heap' ensures heap'[id] == r[id] {
      assert NodeAt(heap', order, IndexOf(order, id));
    }
    assert r.Keys == heap'.Keys;
  }

  class BhList {
    var heap: map<nat, Bh>
    var first: Option<nat>
    ghost var order: seq<nat>

    ghost predicate Valid()
      reads this
    {
      ValidList(heap, first, order)
    }

    constructor ()
      ensures Valid() && order == []
    {
      heap, first, order := map[], None, [];
    }

    /** qemu_bh_new, for the address the allocator gave. */
    method BhNew(id: nat)
      requires Valid() && id !in heap
      modifies this
      ensures Valid() && order == [id] + old(order)
      ensures heap == old(heap)[id := Bh(false, false, false, old(first))]
    {
      NewKeepsList(heap, first, order, id);
      heap := heap[id := Bh(false, false, false, first)];
      first := Some(id);
      order := [id] + order;
    }

    /** The loop that frees deleted nodes, unlinking each through the pointer that leads to it: what
        it leaves is what the outermost exit is specified to leave. */
    method RemoveDeleted()
      requires Valid()
      modifies this
      ensures Valid() && order == Kept(old(heap), old(order))
      ensures (forall id :: id in order ==> id in old(heap)) && heap == Relink(old(heap), order)
    {
      hide SweepInv, ValidList, Kept, Relink;
      var prev: Option<nat>, cur := None, first;
      ghost var heap0, kept, rest := heap, [], order;
      SweepStart(heap, first, order);
      while cur.Some?
        invariant SweepInv(heap0, heap, first, old(order), kept, rest, prev, cur)
        decreases |rest|
      {
        SweepStep(heap0, heap, first, old(order), kept, rest, prev, cur);
        var id := cur.value;
        var next := heap[id].next;
        if heap[id].deleted {
          ghost var before := heap;
          if prev.None? {
            first := next;
          } else {
            heap := heap[prev.value := heap[prev.value].(next := next)];
          }
          heap := heap - {id};
          assert heap == Unlink(before, prev, id);
        } else {
          prev := cur;
          kept := kept + [id];
        }
        cur := next;
        rest := rest[1..];
      }
      SweepDone(heap0, heap, first, old(order), kept, rest, prev, cur);
      order := kept;
    }
  }

  /** Part-way through the removal: the kept nodes lead to the current one, from which the rest of
      the old list follows; prev is the last kept node. */
  ghost predicate SweepInv(heap0: map<nat, Bh>, heap: map<nat, Bh>, first: Option<nat>, order: seq<nat>,
                           kept: seq<nat>, rest: seq<nat>, prev: Option<nat>, cur: Option<nat>)
  {
    && Distinct(kept + rest)
    && Kept(heap0, order) == kept + Kept(heap0, rest)
    && SameNodes(heap0, heap, set id | id in kept + rest)
    && Segment(heap, first, kept, cur)
    && Segment(heap, cur, rest, None)
    && prev == (if kept == [] then None else Some(kept[|kept| - 1]))
  }

  lemma {:induction false} SweepStart(heap: map<nat, Bh>, first: Option<nat>, order: seq<nat>)
    requires ValidList(heap, first, order)
    ensures SweepInv(heap, heap, first, order, [], order, None, first)
  {
    assert [] + order == order;
    SegmentIsLinked(heap, first, order);
  }

  lemma {:induction false} SweepStep(heap0: map<nat, Bh>, heap: map<nat, Bh>, first: Option<nat>, order: seq<nat>,
                                     kept: seq<nat>, rest: seq<nat>, prev: Option<nat>, cur: Option<nat>)
    requires SweepInv(heap0, heap, first, order, kept, rest, prev, cur) && cur.Some?
    ensures rest != [] && rest[0] == cur.value && cur.value in heap
    ensures prev.Some? ==> prev.value in heap && prev.value != cur.value
    ensures heap[cur.value].deleted == heap0[cur.value].deleted
    ensures heap[cur.value].deleted ==>
              SweepInv(heap0, Unlink(heap, prev, cur.value),
                       if prev.None? then heap[cur.value].next else first, order, kept, rest[1..], prev,
                       heap[cur.value].next)
    ensures !heap[cur.value].deleted ==>
              SweepInv(heap0, heap, first, order, kept + [cur.value], rest[1..], cur, heap[cur.value].next)
  {
    var id := cur.value;
    assert SegmentAt(heap, rest, 0, None);
    assert rest == [id] + rest[1..];
    assert (kept + rest)[|kept|] == id;
    if prev.Some? {
      assert SegmentAt(heap, kept, |kept| - 1, cur);
      assert (kept + rest)[|kept| - 1] == prev.value;
    }
    assert id in kept + rest;
    if heap[id].deleted {
      SweepDeleted(heap0, heap, first, order, kept, rest, prev, cur);
    } else {
      SweepLive(heap0, heap, first, order, kept, rest, prev, cur);
    }
  }

  lemma {:induction false} SweepDeleted(heap0: map<nat, Bh>, heap: map<nat, Bh>, first: Option<nat>, order: seq<nat>,
                                        kept: seq<nat>, rest: seq<nat>, prev: Option<nat>, cur: Option<nat>)
    requires SweepInv(heap0, heap, first, order, kept, rest, prev, cur) && cur.Some? && rest != [] && rest[0] == cur.value
    requires cur.value in heap && heap[cur.value].deleted && (prev.Some? ==> prev.value in heap && prev.value != cur.value)
    ensures SweepInv(heap0, Unlink(heap, prev, cur.value), if prev.None? then heap[cur.value].next else first, order, kept,
                     rest[1..], prev, heap[cur.value].next)
  {
    assert (kept + rest)[|kept|] == cur.value;
    UnlinkKeeps(heap0, heap, first, kept, rest, prev, cur);
    SweepKept(heap0, order, kept, rest);
  }

  lemma {:induction false} SweepLive(heap0: map<nat, Bh>, heap: map<nat, Bh>, first: Option<nat>, order: seq<nat>,
                                     kept: seq<nat>, rest: seq<nat>, prev: Option<nat>, cur: Option<nat>)
    requires SweepInv(heap0, heap, first, order, kept, rest, prev, cur) && cur.Some? && rest != [] && rest[0] == cur.value
    requires cur.value in heap && !heap[cur.value].deleted
    ensures SweepInv(heap0, heap, first, order, kept + [cur.value], rest[1..], cur, heap[cur.value].next)
  {
    assert (kept + rest)[|kept|] == cur.value;
    KeepKeeps(heap, first, kept, rest, cur);
    SweepKept(heap0, order, kept, rest);
    assert kept + [cur.value] + rest[1..] == kept + rest;
  }

  /** What the turn of the loop does to the heap for a deleted node. */
  function Unlink(heap: map<nat, Bh>, prev: Option<nat>, id: nat): map<nat, Bh>
    requires id in heap && (prev.Some? ==> prev.value in heap)
  {
    (if prev.None? then heap else heap[prev.value := heap[prev.value].(next := heap[id].next)]) - {id}
  }

  lemma {:induction false} SweepKept(heap0: map<nat, Bh>, order: seq<nat>, kept: seq<nat>, rest: seq<nat>)
    requires rest != [] && Kept(heap0, order) == kept + Kept(heap0, rest)
    ensures Kept(heap0, order) == kept + (if Keep(heap0, rest[0]) then [rest[0]] else []) + Kept(heap0, rest[1..])
  {
  }

  ghost predicate SameNode(heap: map<nat, Bh>, heap': map<nat, Bh>, id: nat) {
    id in heap && id in heap' && heap'[id] == heap[id]
  }

  lemma {:induction false} RestSegment(heap: map<nat, Bh>, heap': map<nat, Bh>, cur: Option<nat>, rest: seq<nat>)
    requires rest != [] && Segment(heap, cur, rest, None)
    requires forall i :: 0 < i < |rest| ==> SameNode(heap, heap', rest[i])
    ensures cur == Some(rest[0]) && rest[0] in heap
    ensures Segment(heap', heap[rest[0]].next, rest[1..], None)
  {
    assert SegmentAt(heap, rest, 0, None);
    var next, tail := heap[rest[0]].next, rest[1..];
    forall i | 0 <= i < |tail| ensures SegmentAt(heap', tail, i, None) {
      assert SegmentAt(heap, rest, i + 1, None);
      assert tail[i] == rest[i + 1] && SameNode(heap, heap', rest[i + 1]);
    }
  }

  lemma {:induction false} KeepKeeps(heap: map<nat, Bh>, first: Option<nat>, kept: seq<nat>, rest: seq<nat>,
                                     cur: Option<nat>)
    requires rest != [] && Segment(heap, first, kept, cur) && Segment(heap, cur, rest, None)
    ensures rest[0] in heap
    ensures Segment(heap, first, kept + [rest[0]], heap[rest[0]].next)
    ensures Segment(heap, heap[rest[0]].next, rest[1..], None)
  {
    forall i | 0 <= i < |rest| ensures SameNode(heap, heap, rest[i]) { assert SegmentAt(heap, rest, i, None); }
    RestSegment(heap, heap, cur, rest);
    var kept', next := kept + [rest[0]], heap[rest[0]].next;
    forall i | 0 <= i < |kept'| ensures SegmentAt(heap, kept', i, next) {
      if i < |kept| { assert SegmentAt(heap, kept, i, cur); }
    }
  }

  lemma {:induction false} UnlinkNodes(heap0: map<nat, Bh>, heap: map<nat, Bh>, kept: seq<nat>, rest: seq<nat>, prev: Option<nat>)
    requires rest != [] && Distinct(kept + rest) && SameNodes(heap0, heap, set id | id in kept + rest)
    requires rest[0] in heap && prev == (if kept == [] then None else Some(kept[|kept| - 1])) && (prev.Some? ==> prev.value in heap)
    ensures SameNodes(heap0, Unlink(heap, prev, rest[0]), set id | id in kept + rest[1..])
  {
    LeftNodes(kept, rest);
  }

  lemma {:induction false} LeftNodes(kept: seq<nat>, rest: seq<nat>)
    requires rest != [] && Distinct(kept + rest)
    ensures (set x | x in kept + rest[1..]) == (set x | x in kept + rest) - {rest[0]}
  {
    Apart(kept, rest);
  }

  lemma {:induction false} UnlinkKeeps(heap0: map<nat, Bh>, heap: map<nat, Bh>, first: Option<nat>, kept: seq<nat>,
                                       rest: seq<nat>, prev: Option<nat>, cur: Option<nat>)
    requires rest != [] && Distinct(kept + rest)
    requires SameNodes(heap0, heap, set id | id in kept + rest)
    requires Segment(heap, first, kept, cur) && Segment(heap, cur, rest, None)
    requires prev == (if kept == [] then None else Some(kept[|kept| - 1]))
    ensures rest[0] in heap && (prev.Some? ==> prev.value in heap)
    ensures var next, heap' := heap[rest[0]].next, Unlink(heap, prev, rest[0]);
            && Distinct(kept + rest[1..])
            && SameNodes(heap0, heap', set id | id in kept + rest[1..])
            && Segment(heap', if prev.None? then next else first, kept, next)
            && Segment(heap', next, rest[1..], None)
  {
    Apart(kept, rest);
    assert forall x :: x in kept + rest <==> x in kept || x in rest;
    var id := rest[0];
    var next, heap' := heap[id].next, Unlink(heap, prev, id);
    UnlinkNodes(heap0, heap, kept, rest, prev);
    forall i | 0 <= i < |kept| ensures SegmentAt(heap', kept, i, next) {
      assert SegmentAt(heap, kept, i, cur);
      assert kept[i] in kept;
    }
    forall i | 0 < i < |rest| ensures SameNode(heap, heap', rest[i]) {
      assert rest[i] == rest[1..][i - 1] && rest[i] in rest[1..];
    }
    RestSegment(heap, heap', cur, rest);
  }

  /** The node being looked at, the kept ones and the remaining ones are all different. */
  lemma {:induction false} Apart(kept: seq<nat>, rest: seq<nat>)
    requires rest != [] && Distinct(kept + rest)
    ensures Distinct(kept + rest[1..])
    ensures rest[0] !in kept && rest[0] !in rest[1..]
    ensures forall x :: x in rest <==> x == rest[0] || x in rest[1..]
    ensures kept != [] ==> kept[|kept| - 1] !in rest
    ensures kept != [] ==> forall i :: 0 <= i < |kept| - 1 ==> kept[i] != kept[|kept| - 1]
  {
    var all, all' := kept + rest, kept + rest[1..];
    assert forall i :: 0 <= i < |all'| ==> all'[i] == all[if i < |kept| then i else i + 1];
    assert all[|kept|] == rest[0];
    assert forall i :: 0 <= i < |kept| ==> all[i] == kept[i];
    assert forall i :: 0 <= i < |rest| ==> all[|kept| + i] == rest[i];
    assert rest == [rest[0]] + rest[1..];
  }

  lemma {:induction false} SweepDone(heap0: map<nat, Bh>, heap: map<nat, Bh>, first: Option<nat>, order: seq<nat>,
                                     kept: seq<nat>, rest: seq<nat>, prev: Option<nat>, cur: Option<nat>)
    requires SweepInv(heap0, heap, first, order, kept, rest, prev, cur) && cur.None?
    ensures kept == Kept(heap0, order) && ValidList(heap, first, kept)
    ensures (forall id :: id in kept ==> id in heap0) && heap == Relink(heap0, kept)
  {
    assert rest == [] && kept + rest == kept;
    SegmentIsLinked(heap, first, kept);
    RelinkUnique(heap0, heap, first, kept);
  }
}
