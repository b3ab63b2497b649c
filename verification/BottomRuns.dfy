/** What scheduling a bottom half and polling achieve, over every run and however polls nest. */
module BottomRuns {
  import opened BottomHalves
  import opened Wire

  // ----- A scheduled node stays scheduled until it is reached -----

  /** The step cancels, deletes or runs the node. */
  ghost predicate Stops(s: Sched, step: Step, id: nat) { step == Cancel(id) || step == Delete(id) || Runs(s, step, id) }

  ghost predicate StopsAt(s: Sched, steps: seq<Step>, i: nat, id: nat)
    requires Inv(s) && CanRun(s, steps) && i < |steps|
    decreases i
  {
    if i == 0 then Stops(s, steps[0], id) else (StepKeeps(s, steps[0]); StopsAt(Apply(s, steps[0]), steps[1..], i - 1, id))
  }

  ghost predicate Ready(s: Sched, id: nat) { id in s.heap && Runnable(s.heap[id]) }

  lemma {:induction false} ReadyStays(s: Sched, step: Step, id: nat)
    requires Inv(s) && Enabled(s, step) && Ready(s, id) && !Stops(s, step, id)
    ensures Ready(Apply(s, step), id) && Apply(s, step).heap[id].idle == s.heap[id].idle
  {
    hide Linked, ValidWalks, Kept, Relink;
    if step == Exit && |s.walks| == 1 {
      OutermostExitFrees(s, id);
    }
  }

  lemma {:induction false} ReadyRun(s: Sched, steps: seq<Step>, id: nat)
    requires Inv(s) && CanRun(s, steps) && Ready(s, id) && forall i :: 0 <= i < |steps| ==> !StopsAt(s, steps, i, id)
    ensures Ready(Run(s, steps), id) && Run(s, steps).heap[id].idle == s.heap[id].idle
    decreases |steps|
  {
    hide Apply, Enabled, Linked, ValidWalks, Stops, Ready;
    if steps != [] {
      assert !StopsAt(s, steps, 0, id);
      ReadyStays(s, steps[0], id);
      StepKeeps(s, steps[0]);
      forall i | 0 <= i < |steps[1..]|
        ensures !StopsAt(Apply(s, steps[0]), steps[1..], i, id)
      {
        assert !StopsAt(s, steps, i + 1, id);
      }
      ReadyRun(Apply(s, steps[0]), steps[1..], id);
    }
  }

  /** Scheduling makes a node ready, idle or not as it is asked to be unless it is scheduled already. */
  lemma {:induction false} ScheduleReadies(s: Sched, step: Step, id: nat)
    requires Inv(s) && Schedules(step, id) && Enabled(s, step) && !s.heap[id].deleted
    ensures Ready(Apply(s, step), id)
    ensures Apply(s, step).heap[id].idle == if s.heap[id].scheduled then s.heap[id].idle else step.ScheduleIdle?
  {
  }

  /** Whatever happens between: a node that has been scheduled and not cancelled, deleted or run since runs when a
      walk reaches it, as the kind of bottom half it was scheduled as. */
  lemma {:induction false} RunsWhenReached(s: Sched, step: Step, steps: seq<Step>, id: nat)
    requires Inv(s) && Schedules(step, id) && Enabled(s, step) && !s.heap[id].deleted
    requires Inv(Apply(s, step)) && CanRun(Apply(s, step), steps)
    requires forall i :: 0 <= i < |steps| ==> !StopsAt(Apply(s, step), steps, i, id)
    ensures var t := Run(Apply(s, step), steps);
            && Inv(t) && Ready(t, id) && (!s.heap[id].scheduled ==> t.heap[id].idle == step.ScheduleIdle?)
            && (Enabled(t, Visit) && Top(t).cursor == Some(id) ==> Runs(t, Visit, id) && Top(Apply(t, Visit)).running)
  {
    hide Run, CanRun, Linked, ValidWalks;
    ScheduleReadies(s, step, id);
    ReadyRun(Apply(s, step), steps, id);
    RunKeeps(Apply(s, step), steps);
    if Enabled(Run(Apply(s, step), steps), Visit) && Top(Run(Apply(s, step), steps)).cursor == Some(id) {
      VisitRuns(Run(Apply(s, step), steps), id);
    }
  }

  lemma {:induction false} RunKeeps(s: Sched, steps: seq<Step>)
    requires Inv(s) && CanRun(s, steps)
    ensures Inv(Run(s, steps))
    decreases |steps|
  {
    hide Apply, Enabled, Linked, ValidWalks;
    if steps != [] {
      StepKeeps(s, steps[0]);
      RunKeeps(Apply(s, steps[0]), steps[1..]);
    }
  }

  lemma {:induction false} VisitRuns(t: Sched, id: nat)
    requires Enabled(t, Visit) && Top(t).cursor == Some(id) && Ready(t, id) && forall x :: x in t.order ==> x in t.heap
    ensures Runs(t, Visit, id) && Top(Apply(t, Visit)).running
  {
  }

  /** A node that is new or has been cancelled does not run before it is scheduled. */
  lemma {:induction false} NotBeforeScheduled(s: Sched, step: Step, steps: seq<Step>, j: nat, id: nat) returns (k: nat)
    requires Inv(s) && (step == Cancel(id) || step == New(id)) && Enabled(s, step)
    requires Inv(Apply(s, step)) && CanRun(Apply(s, step), steps) && j < |steps| && RunsAt(Apply(s, step), steps, j, id)
    ensures k < j && Schedules(steps[k], id)
  {
    hide CanRun, RunsAt, Linked, ValidWalks;
    assert Unscheduled(Apply(s, step), id);
    k := ScheduledFirst(Apply(s, step), steps, j, id);
  }

  // ----- A poll from its beginning to its end -----

  /** The n-th walk is in progress all along. */
  ghost predicate Within(s: Sched, steps: seq<Step>, n: nat)
    requires Inv(s) && CanRun(s, steps)
    decreases |steps|
  {
    |s.walks| > n && (steps != [] ==> (StepKeeps(s, steps[0]); Within(Apply(s, steps[0]), steps[1..], n)))
  }

  /** What a step does to a walk it does not end. */
  lemma {:induction false} WalkStep(s: Sched, step: Step, n: nat)
    requires Inv(s) && Enabled(s, step) && n < |s.walks| && n < |Apply(s, step).walks|
    ensures var w, w' := s.walks[n], Apply(s, step).walks[n];
            && w'.start == w.start
            && (if step.Visit? && |s.walks| == n + 1 then
                  w.cursor.Some? && w'.visited == w.visited + [w.cursor.value] && w'.ret == (w.ret || RunsBusy(s, step))
                else w'.visited == w.visited && w'.ret == w.ret)
  {
    hide Linked, Kept, Relink;
  }

  /** The step runs a callback that was scheduled, and not as idle. */
  ghost predicate RunsBusy(s: Sched, step: Step) {
    step.Visit? && Enabled(s, step) && Runnable(s.heap[Top(s).cursor.value]) && !s.heap[Top(s).cursor.value].idle
  }

  /** A node that is ready and that the walk has not looked at is looked at only to be run. */
  lemma {:induction false} NotVisitedYet(s: Sched, steps: seq<Step>, n: nat, id: nat)
    requires Inv(s) && CanRun(s, steps) && Within(s, steps, n) && Ready(s, id) && id !in s.walks[n].visited
    requires forall i :: 0 <= i < |steps| ==> !StopsAt(s, steps, i, id)
    ensures n < |Run(s, steps).walks| && Run(s, steps).walks[n].start == s.walks[n].start && id !in Run(s, steps).walks[n].visited
    decreases |steps|
  {
    hide Apply, Linked, ValidWalks, Ready;
    if steps != [] {
      assert !StopsAt(s, steps, 0, id);
      StepKeeps(s, steps[0]);
      WalkStep(s, steps[0], n);
      ReadyStays(s, steps[0], id);
      ReadyNotSkipped(s, steps[0], id);
      forall i | 0 <= i < |steps[1..]|
        ensures !StopsAt(Apply(s, steps[0]), steps[1..], i, id)
      {
        assert !StopsAt(s, steps, i + 1, id);
      }
      NotVisitedYet(Apply(s, steps[0]), steps[1..], n, id);
    }
  }

  lemma {:induction false} ReadyNotSkipped(s: Sched, step: Step, id: nat)
    requires Enabled(s, step) && Ready(s, id) && !Stops(s, step, id)
    ensures step.Visit? ==> Top(s).cursor.Some? && Top(s).cursor.value != id
  {
  }

  /** Over every run: a node that is in the list and scheduled when a poll begins has, when that poll ends, been run,
      by it or by a poll inside it, or been cancelled or deleted. */
  lemma {:induction false} PollRuns(s: Sched, steps: seq<Step>, id: nat)
    requires Inv(s) && Enabled(s, Poll) && id in s.order && Ready(s, id)
    requires Inv(Apply(s, Poll)) && CanRun(Apply(s, Poll), steps) && Within(Apply(s, Poll), steps, |s.walks|)
    requires Enabled(Run(Apply(s, Poll), steps), Exit) && |Run(Apply(s, Poll), steps).walks| == |s.walks| + 1
    ensures exists i :: 0 <= i < |steps| && StopsAt(Apply(s, Poll), steps, i, id)
  {
    hide Run, CanRun, Linked, Within, StopsAt;
    var t := Apply(s, Poll);
    if forall i :: 0 <= i < |steps| ==> !StopsAt(t, steps, i, id) {
      NotVisitedYet(t, steps, |s.walks|, id);
      RunKeeps(t, steps);
      WalkComplete(Run(t, steps));
    }
  }

  /** Some step is the n-th walk, innermost then, running such a callback. */
  ghost predicate EverBusy(s: Sched, steps: seq<Step>, n: nat)
    requires Inv(s) && CanRun(s, steps)
    decreases |steps|
  {
    steps != [] && ((|s.walks| == n + 1 && RunsBusy(s, steps[0]))
                    || (StepKeeps(s, steps[0]); EverBusy(Apply(s, steps[0]), steps[1..], n)))
  }

  lemma {:induction false} RetSoFar(s: Sched, steps: seq<Step>, n: nat)
    requires Inv(s) && CanRun(s, steps) && Within(s, steps, n)
    ensures n < |Run(s, steps).walks|
    ensures Run(s, steps).walks[n].ret <==> s.walks[n].ret || EverBusy(s, steps, n)
    decreases |steps|
  {
    hide Apply, Linked, ValidWalks, RunsBusy;
    if steps != [] {
      StepKeeps(s, steps[0]);
      WalkStep(s, steps[0], n);
      VisitsOnly(s, steps[0]);
      RetSoFar(Apply(s, steps[0]), steps[1..], n);
    }
  }

  lemma {:induction false} VisitsOnly(s: Sched, step: Step)
    ensures RunsBusy(s, step) ==> step.Visit?
  {
  }

  /** What a poll returns: whether it ran itself, not by a poll inside it, a callback that was not idle. */
  lemma {:induction false} PollReturns(s: Sched, steps: seq<Step>)
    requires Inv(s) && Enabled(s, Poll)
    requires Inv(Apply(s, Poll)) && CanRun(Apply(s, Poll), steps) && Within(Apply(s, Poll), steps, |s.walks|)
    requires Enabled(Run(Apply(s, Poll), steps), Exit) && |Run(Apply(s, Poll), steps).walks| == |s.walks| + 1
    ensures Top(Run(Apply(s, Poll), steps)).ret <==> EverBusy(Apply(s, Poll), steps, |s.walks|)
  {
    hide Run, CanRun, Linked, Within, EverBusy, ValidWalks;
    RetSoFar(Apply(s, Poll), steps, |s.walks|);
  }

  // ----- Every poll can end -----

  /** A poll that begins, or whose callback returns, goes on with its list at once. */
  lemma {:induction false} GoesOn(s: Sched, step: Step)
    requires Inv(s) && (step == Poll || step == Return) && Enabled(s, step)
    ensures var t := Apply(s, step); Inv(t) && !InCaller(t) && (Enabled(t, Visit) || Enabled(t, Exit))
  {
    StepKeeps(s, step);
    MovesOn(Apply(s, step));
  }

  /** The step with which the innermost poll goes on if its callback does nothing more. */
  function Next(s: Sched): Step
    requires s.walks != []
  {
    if Top(s).running then Return else if Top(s).cursor.Some? then Visit else Exit
  }

  lemma {:induction false} MovesOn(s: Sched)
    requires Inv(s) && s.walks != []
    ensures Enabled(s, Next(s))
  {
    if Top(s).cursor.Some? {
      NoDanglingCursor(s, |s.walks| - 1);
    }
  }

  /** How far the innermost walk still has to go. */
  ghost function Ahead(s: Sched): nat
    requires Inv(s) && s.walks != []
  {
    assert ValidWalk(Top(s), s.order);
    |Top(s).start| - |Top(s).visited|
  }

  lemma {:induction false} Nearer(s: Sched)
    requires Inv(s) && s.walks != [] && Enabled(s, Next(s)) && Inv(Apply(s, Next(s)))
    ensures var t := Apply(s, Next(s));
            if Next(s) == Exit then |t.walks| == |s.walks| - 1
            else |t.walks| == |s.walks| && if Next(s) == Visit then Ahead(t) == Ahead(s) - 1 else Ahead(t) == Ahead(s) && !Top(t).running
  {
    hide Linked, Kept, Relink;
    assert ValidWalk(Top(s), s.order);
  }

  /** From every state all the polls in progress can end: it takes only callbacks that return. */
  lemma {:induction false} PollsEnd(s: Sched) returns (steps: seq<Step>)
    requires Inv(s)
    ensures CanRun(s, steps) && Run(s, steps).walks == []
    decreases |s.walks|, if s.walks == [] then 0 else Ahead(s), if s.walks == [] then false else Top(s).running
  {
    hide Apply, Enabled, Linked, ValidWalks;
    steps := [];
    if s.walks != [] {
      MovesOn(s);
      StepKeeps(s, Next(s));
      Nearer(s);
      var rest := PollsEnd(Apply(s, Next(s)));
      steps := [Next(s)] + rest;
      assert steps[1..] == rest;
    }
  }
}
