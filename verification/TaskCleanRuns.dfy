/** Runs that nobody stops or pauses and whose runners only return or fail. */
module TaskCleanRuns {
  import opened TaskModel
  import opened TaskInvariants
  import opened TaskRuns

  predicate CleanAction(a: Action) {
    !a.RequestStop? && !a.RequestPause? && !a.PrepareFails? && !a.Crash? && (a.Settle? ==> !a.outcome.Aborted?)
  }

  ghost predicate AllClean(actions: seq<Action>) {
    forall k :: 0 <= k < |actions| ==> CleanAction(actions[k])
  }

  predicate AttemptedOnce(before: Subtask, now: Subtask) {
    now.attempts == before.attempts + 1 && (now.status.Completed? || now.status.Failed?)
  }

  ghost predicate InQueue(queue: seq<Item>, i: nat) {
    exists q :: 0 <= q < |queue| && queue[q].id == i
  }

  ghost predicate InHand(workers: seq<Worker>, i: nat) {
    exists w :: 0 <= w < |workers| && Holds(workers[w].place) && workers[w].place.item.id == i
  }

  /** A pending subtask waits in the queue, is in a worker's hands, or has been attempted once. */
  ghost predicate Accounted(l: Live, i: nat)
    requires i < |l.store.subs| == |l.exec.start|
  {
    l.exec.start[i].status.Pending? ==>
      InQueue(l.exec.queue, i) || InHand(l.exec.workers, i) || AttemptedOnce(l.exec.start[i], l.store.subs[i])
  }

  ghost predicate AllAccounted(l: Live) {
    |l.store.subs| == |l.exec.start| && forall i :: 0 <= i < |l.store.subs| ==> Accounted(l, i)
  }

  ghost predicate Undisturbed(e: Exec) {
    && !e.stop && !e.pause && !e.observed && e.gateOpen && e.stopHandler.StopWaiting? && e.pauseHandler.PauseWaiting?
    && (forall w :: 0 <= w < |e.workers| ==> !e.workers[w].cancelled)
    && forall w :: 0 <= w < |e.workers| && e.workers[w].place.Finished? ==> e.queue == []
  }

  ghost predicate CleanOk(l: Live) {
    LiveOk(l) && AllAccounted(l) && Undisturbed(l.exec)
  }

  /** A worker keeps its subtask, or gives up one that has been attempted. */
  lemma StillAccounted(l: Live, m: Live, w: nat, worker: Worker)
    requires AllAccounted(l) && w < |l.exec.workers| && m.exec.workers == l.exec.workers[w := worker]
    requires m.exec.start == l.exec.start && m.exec.queue == l.exec.queue && |m.store.subs| == |l.store.subs|
    requires var place := l.exec.workers[w].place;
             Holds(place) ==>
               || (Holds(worker.place) && worker.place.item.id == place.item.id)
               || (place.item.id < |m.store.subs|
                   && AttemptedOnce(m.exec.start[place.item.id], m.store.subs[place.item.id]))
    requires forall i :: 0 <= i < |l.store.subs| && m.store.subs[i] != l.store.subs[i] ==>
               Holds(l.exec.workers[w].place) && i == l.exec.workers[w].place.item.id
    ensures AllAccounted(m)
  {
    forall i | 0 <= i < |m.store.subs| ensures Accounted(m, i) {
      assert Accounted(l, i);
      if InHand(l.exec.workers, i) {
        var v :| 0 <= v < |l.exec.workers| && Holds(l.exec.workers[v].place) && l.exec.workers[v].place.item.id == i;
        if v != w || (Holds(worker.place) && worker.place.item.id == i) {
          assert m.exec.workers[v].place.item.id == i;
        }
      }
    }
  }

  lemma TakenAccounted(l: Live, m: Live, w: nat)
    requires AllAccounted(l) && w < |l.exec.workers| && l.exec.queue != [] && l.exec.workers[w].place.AtLoop?
    requires m == l.(exec := l.exec.(queue := l.exec.queue[1..],
                                     workers := l.exec.workers[w := Worker(AtGate(l.exec.queue[0]), false)]))
    ensures AllAccounted(m)
  {
    forall i | 0 <= i < |m.store.subs| ensures Accounted(m, i) {
      assert Accounted(l, i);
      if InHand(l.exec.workers, i) {
        var v :| 0 <= v < |l.exec.workers| && Holds(l.exec.workers[v].place) && l.exec.workers[v].place.item.id == i;
        assert m.exec.workers[v].place.item.id == i;
      }
      if InQueue(l.exec.queue, i) {
        var q :| 0 <= q < |l.exec.queue| && l.exec.queue[q].id == i;
        if q == 0 { assert m.exec.workers[w].place.item.id == i; }
        else { assert m.exec.queue[q - 1].id == i; }
      }
    }
  }

  lemma WorkerStepClean(l: Live, a: Action, w: nat)
    requires CleanOk(l) && w < |l.exec.workers| && CleanAction(a)
    ensures AllAccounted(WorkerStep(l, a, w))
  {
    var place, m, shape := l.exec.workers[w].place, WorkerStep(l, a, w), ShapeOf(l, a, w);
    StepHasShape(l, a, w);
    ShapeFits(l, a, w);
    WorkerStepSaves(l, a, w);
    if Holds(place) { assert ItemOk(l, place.item, place.InRunner?); }
    match shape
    case Stays =>
    case Takes(worker) => TakenAccounted(l, m, w);
    case Moves(worker) =>
      CleanMoveKeeps(l, a, w);
      StillAccounted(l, m, w, worker);
    case Saves(worker, subtask, active) =>
      CleanSaveAttempts(l, a, w);
      StillAccounted(l, m, w, worker);
  }

  lemma CleanMoveKeeps(l: Live, a: Action, w: nat)
    requires Undisturbed(l.exec) && w < |l.exec.workers| && CleanAction(a) && ShapeOf(l, a, w).Moves?
    ensures var worker, place := ShapeOf(l, a, w).worker, l.exec.workers[w].place;
            Holds(place) ==> Holds(worker.place) && worker.place.item == place.item
  {
  }

  lemma CleanSaveAttempts(l: Live, a: Action, w: nat)
    requires CleanAction(a) && w < |l.exec.workers| && ShapeOf(l, a, w).Saves?
    ensures var Saves(worker, subtask, _), place := ShapeOf(l, a, w), l.exec.workers[w].place;
            && Holds(place)
            && (Holds(worker.place) ==> worker.place.item == place.item)
            && (!Holds(worker.place) ==> AttemptedOnce(place.item.subtask, subtask))
  {
  }

  lemma CleanShape(l: Live, a: Action, w: nat)
    requires Undisturbed(l.exec) && w < |l.exec.workers| && CleanAction(a)
    ensures var shape := ShapeOf(l, a, w);
            !shape.Stays? ==> !shape.worker.cancelled && (shape.worker.place.Finished? ==> l.exec.queue == [])
  {
  }

  lemma WorkerStepUndisturbed(l: Live, a: Action, w: nat)
    requires CleanOk(l) && w < |l.exec.workers| && CleanAction(a)
    ensures Undisturbed(WorkerStep(l, a, w).exec)
  {
    StepHasShape(l, a, w);
    ShapeFits(l, a, w);
    CleanShape(l, a, w);
    ShapedUndisturbed(l, w, ShapeOf(l, a, w));
  }

  lemma ShapedUndisturbed(l: Live, w: nat, shape: Shape)
    requires Undisturbed(l.exec) && w < |l.exec.workers| && Fits(l, w, shape)
    requires !shape.Stays? ==> !shape.worker.cancelled && (shape.worker.place.Finished? ==> l.exec.queue == [])
    ensures Undisturbed(Shaped(l, w, shape).exec)
  {
  }

  lemma LiveStepClean(l: Live, a: Action)
    requires CleanOk(l) && CleanAction(a)
    ensures CleanOk(LiveStep(l, a))
  {
    LiveStepOk(l, a);
    if IsWorkerAction(a) && a.w < |l.exec.workers| {
      WorkerStepClean(l, a, a.w);
      WorkerStepUndisturbed(l, a, a.w);
    }
  }

  lemma {:induction false} PendingQueued(subs: seq<Subtask>, from: nat, i: nat)
    requires from <= i < |subs| && subs[i].status.Pending?
    ensures InQueue(PendingItems(subs, from), i)
    decreases i - from
  {
    var items := PendingItems(subs, from);
    if from == i {
      assert items[0].id == i;
    } else {
      PendingQueued(subs, from + 1, i);
      var rest := PendingItems(subs, from + 1);
      var q :| 0 <= q < |rest| && rest[q].id == i;
      if subs[from].status.Pending? { assert items[q + 1] == rest[q]; } else { assert items[q] == rest[q]; }
    }
  }

  lemma BeginsClean(store: Store, limit: int, prepares: bool)
    requires PendingItems(store.subs) != []
    ensures CleanOk(Live(store.(task := TaskRunning), NewExec(store.subs, limit, prepares)))
  {
    var l := Live(store.(task := TaskRunning), NewExec(store.subs, limit, prepares));
    BeginsOk(store, limit, prepares);
    forall i | 0 <= i < |l.store.subs| ensures Accounted(l, i) {
      if store.subs[i].status.Pending? { PendingQueued(store.subs, 0, i); }
    }
  }

  ghost predicate AllAttempted(start: seq<Subtask>, subs: seq<Subtask>) {
    |start| == |subs| && forall i :: 0 <= i < |subs| ==>
      if start[i].status.Pending? then AttemptedOnce(start[i], subs[i]) else subs[i] == start[i]
  }

  /** When the last worker has finished, everything has been attempted. */
  lemma CleanGather(l: Live)
    requires CleanOk(l) && AllFinished(l.exec.workers)
    ensures AllAttempted(l.exec.start, l.store.subs)
  {
    assert |l.exec.workers| > 0 && l.exec.workers[0].place.Finished?;
    forall i | 0 <= i < |l.store.subs|
      ensures if l.exec.start[i].status.Pending? then AttemptedOnce(l.exec.start[i], l.store.subs[i])
              else l.store.subs[i] == l.exec.start[i]
    {
      assert Accounted(l, i) && Progressed(l.exec.start[i], l.store.subs[i]);
    }
  }

  ghost predicate CleanState(s: State) {
    && ReconcilesOk(s)
    && match s.phase
       case Driving(e) => CleanOk(Live(s.store, e))
       case Finalizing(start, stopped, paused, at) =>
         at <= |s.store.subs| && !stopped && !paused && AllAttempted(start, s.store.subs)
       case _ => false
  }

  /** Where a clean run ends: every subtask that began pending was attempted exactly once, nothing else
      changed, and the task is failed or completed, if nothing was left marked running beforehand. */
  ghost predicate CleanEnd(start: seq<Subtask>, u: State) {
    && AllAttempted(start, u.store.subs)
    && (CountOf(start, Running) == 0 ==>
          u.store.task == if CountOf(u.store.subs, Failed) > 0 then TaskFailed else TaskCompleted)
  }

  lemma NonePending(start: seq<Subtask>, subs: seq<Subtask>)
    requires AllAttempted(start, subs)
    ensures CountOf(subs, Pending) == 0
    ensures CountOf(start, Running) == 0 ==> CountOf(subs, Running) == 0
  {
    CountZero(subs, Pending);
    CountZero(subs, Running);
    CountZero(start, Running);
    forall i | 0 <= i < |subs| ensures !subs[i].status.Pending? {
      assert start[i].status.Pending? ==> AttemptedOnce(start[i], subs[i]);
    }
  }

  lemma CleanExecutorStep(s: State, a: Action)
    requires CleanState(s) && CleanAction(a) && !IsReconcileAction(a)
    ensures var t := Step(s, a);
            if t.phase.Idle? then CleanEnd(StartOf(s), t) else CleanState(t) && StartOf(t) == StartOf(s)
  {
    if s.phase.Driving? {
      var l := Live(s.store, s.phase.exec);
      if a.Gather? {
        if AllFinished(l.exec.workers) { CleanGather(l); }
      } else {
        LiveStepClean(l, a);
        LiveStepStart(l, a);
      }
    } else {
      NonePending(s.phase.start, s.store.subs);
      CountZero(s.store.subs, Pending);
    }
  }

  lemma CleanStep(s: State, a: Action)
    requires CleanState(s) && CleanAction(a) && CarefulStep(s, a)
    ensures var t := Step(s, a);
            if t.phase.Idle? then CleanEnd(StartOf(s), t) else CleanState(t) && StartOf(t) == StartOf(s)
  {
    if IsReconcileAction(a) { RequestRests(s, a); } else { CleanExecutorStep(s, a); }
  }

  lemma {:induction false} CleanRun(s: State, actions: seq<Action>)
    requires CleanState(s) && AllClean(actions) && OneRun(s, actions) && Run(s, actions).phase.Idle?
    ensures CleanEnd(StartOf(s), Run(s, actions))
    decreases |actions|
  {
    CleanStep(s, actions[0]);
    if Step(s, actions[0]).phase.Idle? {
      assert actions[1..] == [];
    } else {
      CleanRun(Step(s, actions[0]), actions[1..]);
    }
  }

  /** Without stop or pause, and with runners that only return or raise ordinary errors, each pending
      subtask is attempted exactly once and the task ends failed if any subtask is failed, else completed. */
  lemma CleanRunOutcome(s: State, limit: int, prepares: bool, actions: seq<Action>)
    requires s.phase.Idle? && (s.phase.stop ==> s.phase.returned) && AllClean(actions)
    requires var t := Step(s, BeginRun(limit, prepares)); OneRun(t, actions) && Run(t, actions).phase.Idle?
    ensures CleanEnd(s.store.subs, Run(Step(s, BeginRun(limit, prepares)), actions))
  {
    CleanBegins(s, limit, prepares);
    CleanRun(Step(s, BeginRun(limit, prepares)), actions);
  }

  lemma CleanBegins(s: State, limit: int, prepares: bool)
    requires s.phase.Idle? && (s.phase.stop ==> s.phase.returned)
    ensures var t := Step(s, BeginRun(limit, prepares)); CleanState(t) && StartOf(t) == s.store.subs
  {
    if PendingItems(s.store.subs) == [] {
      NothingPending(s.store.subs);
    } else {
      BeginsClean(s.store, limit, prepares);
    }
  }

  lemma NothingPending(subs: seq<Subtask>)
    requires PendingItems(subs) == []
    ensures AllAttempted(subs, subs)
  {
    forall i | 0 <= i < |subs| ensures !subs[i].status.Pending? {
      if subs[i].status.Pending? { PendingQueued(subs, 0, i); }
    }
  }

  // ---- clean runs end

  function StepsToLoop(place: Place): nat {
    match place
    case AtGate(_) => 6
    case AtLimiter(_) => 5
    case AtPacing(_) => 4
    case AtPrepare(_) => 3
    case InRunner(_) => 2
    case AtLoop => 1
    case Finished => 0
  }

  function WorkersSteps(workers: seq<Worker>): nat {
    if workers == [] then 0 else StepsToLoop(workers[0].place) + WorkersSteps(workers[1..])
  }

  /** How many steps can be left to a clean run. */
  function StepsToReturn(s: State): nat {
    match s.phase
    case Driving(e) => 6 * |e.queue| + WorkersSteps(e.workers) + |s.store.subs| + 2
    case Finalizing(_, _, _, at) => (if at < |s.store.subs| then |s.store.subs| - at else 0) + 1
    case _ => 0
  }

  lemma {:induction false} WorkersStepsUpdate(workers: seq<Worker>, w: nat, worker: Worker)
    requires w < |workers|
    ensures WorkersSteps(workers[w := worker])
            == WorkersSteps(workers) - StepsToLoop(workers[w].place) + StepsToLoop(worker.place)
  {
    if w == 0 {
      assert workers[0 := worker][1..] == workers[1..];
    } else {
      assert workers[w := worker][1..] == workers[1..][w - 1 := worker];
      WorkersStepsUpdate(workers[1..], w - 1, worker);
    }
  }

  lemma {:induction false} NewWorkersSteps(workers: seq<Worker>)
    requires forall w :: 0 <= w < |workers| ==> workers[w].place.AtLoop?
    ensures WorkersSteps(workers) == |workers|
  {
    if workers != [] { NewWorkersSteps(workers[1..]); }
  }

  lemma CleanShapeShortens(l: Live, a: Action, w: nat)
    requires CleanOk(l) && CleanAction(a) && w < |l.exec.workers|
    ensures var shape, place := ShapeOf(l, a, w), l.exec.workers[w].place;
            && (shape.Moves? || shape.Saves? ==> StepsToLoop(shape.worker.place) < StepsToLoop(place))
            && (shape.Takes? ==> StepsToLoop(shape.worker.place) < StepsToLoop(place) + 6)
  {
  }

  /** A worker's step brings the run's return nearer. */
  lemma CleanWorkerShortens(l: Live, a: Action, w: nat)
    requires CleanOk(l) && CleanAction(a) && w < |l.exec.workers|
    ensures var m := WorkerStep(l, a, w);
            && |m.store.subs| == |l.store.subs|
            && (m == l || 6 * |m.exec.queue| + WorkersSteps(m.exec.workers) < 6 * |l.exec.queue| + WorkersSteps(l.exec.workers))
  {
    StepHasShape(l, a, w);
    ShapeFits(l, a, w);
    CleanShapeShortens(l, a, w);
    var shape := ShapeOf(l, a, w);
    if !shape.Stays? { WorkersStepsUpdate(l.exec.workers, w, shape.worker); }
  }

  lemma CleanHandlerRests(l: Live, a: Action)
    requires Undisturbed(l.exec) && CleanAction(a)
    ensures HandlerStep(l, a) == l
  {
  }

  predicate Changes(s: State, a: Action) {
    Step(s, a).store != s.store || Step(s, a).phase != s.phase
  }

  lemma CleanStepShortens(s: State, a: Action)
    requires CleanState(s) && CleanAction(a) && CarefulStep(s, a) && Changes(s, a)
    ensures StepsToReturn(Step(s, a)) < StepsToReturn(s)
  {
    if IsReconcileAction(a) { RequestRests(s, a); }
    else if s.phase.Driving? && !a.Gather? {
      var l := Live(s.store, s.phase.exec);
      if IsWorkerAction(a) {
        if a.w < |l.exec.workers| { CleanWorkerShortens(l, a, a.w); }
      } else {
        CleanHandlerRests(l, a);
      }
    }
  }

  /** Every step does something to the task. */
  ghost predicate AllChange(s: State, actions: seq<Action>)
    decreases |actions|
  {
    actions == [] || (Changes(s, actions[0]) && AllChange(Step(s, actions[0]), actions[1..]))
  }

  lemma {:induction false} CleanLength(s: State, actions: seq<Action>)
    requires CleanState(s) && AllClean(actions) && OneRun(s, actions) && AllChange(s, actions)
    ensures |actions| <= StepsToReturn(s)
    decreases |actions|
  {
    if actions != [] {
      CleanStep(s, actions[0]);
      CleanStepShortens(s, actions[0]);
      if Step(s, actions[0]).phase.Idle? { assert actions[1..] == []; } else { CleanLength(Step(s, actions[0]), actions[1..]); }
    }
  }

  /** A run that nobody disturbs cannot go on: it takes at most seven steps for each pending subtask, one for
      each subtask, and two more. */
  lemma CleanRunEnds(s: State, limit: int, prepares: bool, actions: seq<Action>)
    requires s.phase.Idle? && (s.phase.stop ==> s.phase.returned) && AllClean(actions)
    requires var t := Step(s, BeginRun(limit, prepares)); OneRun(t, actions) && AllChange(t, actions)
    ensures |actions| <= 7 * CountOf(s.store.subs, Pending) + |s.store.subs| + 2
  {
    var t := Step(s, BeginRun(limit, prepares));
    CleanBegins(s, limit, prepares);
    CleanLength(t, actions);
    PendingItemsCount(s.store.subs, 0);
    assert s.store.subs[0..] == s.store.subs;
    if t.phase.Driving? { NewWorkersSteps(t.phase.exec.workers); }
  }

  function NextOf(place: Place, w: nat): Action {
    match place
    case AtGate(_) => PassGate(w)
    case AtLimiter(_) => PassLimiter(w)
    case AtPacing(_) => PassPacing(w)
    case AtPrepare(_) => PassPrepare(w)
    case InRunner(_) => Settle(w, Done(""))
    case _ => Take(w)
  }

  lemma NextChanges(s: State, w: nat)
    requires CleanState(s) && s.phase.Driving? && w < |s.phase.exec.workers| && !s.phase.exec.workers[w].place.Finished?
    ensures Changes(s, NextOf(s.phase.exec.workers[w].place, w))
  {
    var l, place := Live(s.store, s.phase.exec), s.phase.exec.workers[w].place;
    var a := NextOf(place, w);
    StepHasShape(l, a, w);
    ShapeFits(l, a, w);
    CleanShapeShortens(l, a, w);
  }

  lemma CleanAdvances(s: State) returns (a: Action)
    requires CleanState(s)
    ensures CleanAction(a) && CarefulStep(s, a) && Changes(s, a)
  {
    if s.phase.Finalizing? {
      a := FinalizeStep;
    } else if AllFinished(s.phase.exec.workers) {
      a := Gather;
    } else {
      var w :| 0 <= w < |s.phase.exec.workers| && !s.phase.exec.workers[w].place.Finished?;
      a := NextOf(s.phase.exec.workers[w].place, w);
      NextChanges(s, w);
    }
  }

  lemma {:induction false} StaysClean(s: State, actions: seq<Action>)
    requires CleanState(s) && AllClean(actions) && OneRun(s, actions) && !Run(s, actions).phase.Idle?
    ensures CleanState(Run(s, actions))
    decreases |actions|
  {
    if actions != [] {
      CleanStep(s, actions[0]);
      if !Step(s, actions[0]).phase.Idle? { StaysClean(Step(s, actions[0]), actions[1..]); }
    }
  }

  /** Nor can it get stuck: wherever a clean run has come to, until it returns some step is possible. */
  lemma CleanRunAdvances(s: State, limit: int, prepares: bool, actions: seq<Action>) returns (a: Action)
    requires s.phase.Idle? && (s.phase.stop ==> s.phase.returned) && AllClean(actions)
    requires var t := Step(s, BeginRun(limit, prepares)); OneRun(t, actions) && !Run(t, actions).phase.Idle?
    ensures var u := Run(Step(s, BeginRun(limit, prepares)), actions);
            CleanAction(a) && CarefulStep(u, a) && Changes(u, a)
  {
    var t := Step(s, BeginRun(limit, prepares));
    CleanBegins(s, limit, prepares);
    StaysClean(t, actions);
    a := CleanAdvances(Run(t, actions));
  }
}
