/** Whether a paused run comes back. Once nothing runs, the pause handler cancels every worker, but one that waits in
    front of its runner takes the cancellation for the end of its subtask only, and goes on to the next. */
module TaskPauseReturns {
  import opened TaskModel
  import opened TaskInvariants
  import opened TaskRuns
  import opened TaskReconcile

  /** The task has been paused, and nobody has asked to stop it. */
  ghost predicate JustPaused(s: State) {
    StateOk(s) && s.phase.Driving? && s.phase.exec.observed && !s.phase.exec.stop && s.phase.exec.stopHandler.StopWaiting?
  }

  /** At the gate with no cancellation under way: the gate is closed while the task is paused. */
  predicate Waits(worker: Worker) {
    worker.place.AtGate? && !worker.cancelled
  }

  /** Finished, or to be cancelled before it takes another subtask. */
  predicate Through(worker: Worker) {
    worker.place.Finished? || (worker.place.AtLoop? && worker.cancelled)
  }

  predicate SomeWaits(workers: seq<Worker>) {
    exists w | 0 <= w < |workers| :: Waits(workers[w])
  }

  predicate AllThrough(workers: seq<Worker>) {
    forall w | 0 <= w < |workers| :: Through(workers[w])
  }

  /** Nobody waits at the gate for good, and nobody will: there is nothing left to take, or nobody to take it. */
  predicate Releases(e: Exec) {
    !SomeWaits(e.workers) && (e.queue == [] || AllThrough(e.workers))
  }

  predicate NoStop(a: Action) {
    !a.RequestStop? && !a.Crash?
  }

  ghost predicate NeverStopped(actions: seq<Action>) {
    forall k :: 0 <= k < |actions| ==> NoStop(actions[k])
  }

  // ---- stuck

  lemma StillWaits(workers: seq<Worker>, v: nat, w: nat, worker: Worker)
    requires v < |workers| && w < |workers| && Waits(workers[v]) && (v == w ==> Waits(worker))
    ensures SomeWaits(workers[w := worker])
  {
    assert Waits(workers[w := worker][v]);
  }

  lemma NotThrough(workers: seq<Worker>, v: nat, w: nat, worker: Worker)
    requires v < |workers| && w < |workers| && !Through(workers[v]) && (v == w ==> !Through(worker))
    ensures !AllThrough(workers[w := worker])
  {
    assert !Through(workers[w := worker][v]);
  }

  /** What one worker's step can be while the task is paused. */
  lemma PausedShape(l: Live, a: Action, w: nat)
    requires LiveOk(l) && l.exec.observed && !l.exec.stop && w < |l.exec.workers|
    ensures var shape, worker := ShapeOf(l, a, w), l.exec.workers[w];
            && !shape.Saves?
            && (shape.Takes? ==> Waits(shape.worker))
            && (shape.Moves? ==> !Waits(worker))
            && (shape.Moves? && !Through(worker) && l.exec.queue != [] ==> !Through(shape.worker))
  {
    assert Quiet(l.exec);
  }

  lemma StuckWorkerStep(l: Live, a: Action, w: nat)
    requires LiveOk(l) && l.exec.observed && !l.exec.stop && w < |l.exec.workers| && !Releases(l.exec)
    ensures !Releases(WorkerStep(l, a, w).exec)
  {
    var shape, workers := ShapeOf(l, a, w), l.exec.workers;
    StepHasShape(l, a, w);
    ShapeFits(l, a, w);
    PausedShape(l, a, w);
    match shape
    case Stays =>
    case Takes(worker) => assert Waits(workers[w := worker][w]);
    case Moves(worker) =>
      if SomeWaits(workers) {
        var v :| 0 <= v < |workers| && Waits(workers[v]);
        StillWaits(workers, v, w, worker);
      } else {
        var v :| 0 <= v < |workers| && !Through(workers[v]);
        NotThrough(workers, v, w, worker);
      }
  }

  lemma HandlersRest(l: Live, a: Action)
    requires LiveOk(l) && l.exec.observed && !l.exec.stop && l.exec.stopHandler.StopWaiting? && !a.RequestStop?
    ensures HandlerStep(l, a).exec.workers == l.exec.workers && HandlerStep(l, a).exec.queue == l.exec.queue
    ensures !HandlerStep(l, a).exec.stop && HandlerStep(l, a).exec.stopHandler.StopWaiting?
  {
  }

  lemma WorkersRest(l: Live, a: Action, w: nat)
    requires LiveOk(l) && w < |l.exec.workers|
    ensures WorkerStep(l, a, w).exec.stopHandler == l.exec.stopHandler && WorkerStep(l, a, w).exec.stop == l.exec.stop
  {
    StepHasShape(l, a, w);
  }

  lemma StuckStep(s: State, a: Action)
    requires JustPaused(s) && !Releases(s.phase.exec) && NoStop(a) && CarefulStep(s, a)
    ensures JustPaused(Step(s, a)) && !Releases(Step(s, a).phase.exec)
  {
    var l := Live(s.store, s.phase.exec);
    StepOk(s, a);
    if IsReconcileAction(a) {
      RequestRests(s, a);
    } else if !a.Gather? {
      QuietLiveStep(l, a);
      if !IsWorkerAction(a) { HandlersRest(l, a); }
      else if a.w < |l.exec.workers| {
        StuckWorkerStep(l, a, a.w);
        WorkersRest(l, a, a.w);
      }
    }
  }

  lemma {:induction false} StaysStuck(s: State, actions: seq<Action>)
    requires JustPaused(s) && !Releases(s.phase.exec) && NeverStopped(actions) && OneRun(s, actions)
    ensures JustPaused(Run(s, actions)) && !Releases(Run(s, actions).phase.exec)
    decreases |actions|
  {
    if actions != [] {
      assert NoStop(actions[0]);
      StuckStep(s, actions[0]);
      assert NeverStopped(actions[1..]);
      StaysStuck(Step(s, actions[0]), actions[1..]);
    }
  }

  // ---- released

  function NextQuiet(worker: Worker, w: nat): Action {
    if worker.cancelled then DeliverCancel(w) else Take(w)
  }

  lemma QuietShape(l: Live, w: nat)
    requires LiveOk(l) && l.exec.observed && !l.exec.stop && Releases(l.exec) && w < |l.exec.workers|
    requires !l.exec.workers[w].place.Finished?
    ensures var shape, worker := ShapeOf(l, NextQuiet(l.exec.workers[w], w), w), l.exec.workers[w];
            && shape.Moves? && StepsLeft(shape.worker) < StepsLeft(worker) && !Waits(shape.worker)
            && (Through(worker) ==> Through(shape.worker)) && (!Through(worker) ==> l.exec.queue == [])
  {
    assert Quiet(l.exec);
    assert !Waits(l.exec.workers[w]);
  }

  lemma StillReleases(e: Exec, w: nat, worker: Worker)
    requires Releases(e) && w < |e.workers| && !Waits(worker)
    requires if Through(e.workers[w]) then Through(worker) else e.queue == []
    ensures Releases(e.(workers := e.workers[w := worker]))
  {
  }

  lemma QuietStep(s: State, w: nat)
    requires JustPaused(s) && Releases(s.phase.exec) && w < |s.phase.exec.workers|
    requires !s.phase.exec.workers[w].place.Finished?
    ensures var a := NextQuiet(s.phase.exec.workers[w], w);
            var t := Step(s, a);
            && CarefulStep(s, a) && JustPaused(t) && Releases(t.phase.exec) && t.store.subs == s.store.subs
            && |t.phase.exec.workers| == |s.phase.exec.workers|
            && StepsLeft(t.phase.exec.workers[w]) < StepsLeft(s.phase.exec.workers[w])
            && forall v :: 0 <= v < w ==> t.phase.exec.workers[v] == s.phase.exec.workers[v]
  {
    var l, a := Live(s.store, s.phase.exec), NextQuiet(s.phase.exec.workers[w], w);
    StepOk(s, a);
    QuietLiveStep(l, a);
    StepHasShape(l, a, w);
    QuietShape(l, w);
    StillReleases(l.exec, w, ShapeOf(l, a, w).worker);
    WorkersRest(l, a, w);
  }

  lemma {:induction false} Quieten(s: State, w: nat) returns (actions: seq<Action>)
    requires JustPaused(s) && Releases(s.phase.exec) && FinishedBelow(s, w)
    ensures NeverStopped(actions) && OneRun(s, actions)
    ensures var t := Run(s, actions); JustPaused(t) && AllFinished(t.phase.exec.workers) && t.store.subs == s.store.subs
    decreases |s.phase.exec.workers| - w, if w < |s.phase.exec.workers| then StepsLeft(s.phase.exec.workers[w]) else 0
  {
    if w == |s.phase.exec.workers| {
      actions := [];
    } else if s.phase.exec.workers[w].place.Finished? {
      actions := Quieten(s, w + 1);
    } else {
      var a := NextQuiet(s.phase.exec.workers[w], w);
      QuietStep(s, w);
      var rest := Quieten(Step(s, a), w);
      actions := [a] + rest;
      assert actions[1..] == rest;
    }
  }

  lemma {:induction false} OneRunConcat(s: State, a: seq<Action>, b: seq<Action>)
    requires OneRun(s, a) && OneRun(Run(s, a), b)
    ensures OneRun(s, a + b)
    decreases |a|
  {
    if a == [] {
      assert a + b == b;
    } else {
      assert (a + b)[1..] == a[1..] + b;
      OneRunConcat(Step(s, a[0]), a[1..], b);
    }
  }

  lemma ReturnsPaused(u: State)
    requires JustPaused(u) && AllFinished(u.phase.exec.workers)
    ensures var end := [Gather, FinalizeStep];
            var t := Run(u, end);
            OneRun(u, end) && t.phase.Idle? && t.phase.returned && t.store == u.store.(task := TaskPaused)
  {
    var v := Step(u, Gather);
    assert [Gather, FinalizeStep][1..] == [FinalizeStep] && [FinalizeStep][1..] == [];
    assert Run(v, [FinalizeStep]) == Step(v, FinalizeStep);
    assert OneRun(v, [FinalizeStep]);
  }

  /** The run can return paused, with the subtasks as they are, without being stopped. */
  ghost predicate ComesBack(s: State, actions: seq<Action>) {
    && NeverStopped(actions) && OneRun(s, actions) && Run(s, actions).phase.Idle?
    && Run(s, actions).store == s.store.(task := TaskPaused)
  }

  lemma CanComeBack(s: State) returns (actions: seq<Action>)
    requires JustPaused(s) && Releases(s.phase.exec)
    ensures ComesBack(s, actions)
  {
    var first := Quieten(s, 0);
    var u := Run(s, first);
    var end := [Gather, FinalizeStep];
    ReturnsPaused(u);
    RunConcat(s, first, end);
    OneRunConcat(s, first, end);
    actions := first + end;
  }

  /** A paused run that nobody stops comes back if and only if nobody waits at the gate uncancelled, and either the
      queue is empty or every worker has finished or not yet begun. The source means it to come back always; but a
      worker cancelled at the gate goes on to the next queued subtask and waits there for good. */
  lemma PauseReturnsExactly(s: State)
    requires JustPaused(s)
    ensures Releases(s.phase.exec) <==> exists actions :: ComesBack(s, actions)
    ensures !Releases(s.phase.exec) ==>
              forall actions :: NeverStopped(actions) && OneRun(s, actions) ==> Run(s, actions).phase.Driving?
  {
    if Releases(s.phase.exec) {
      var actions := CanComeBack(s);
    } else {
      forall actions | NeverStopped(actions) && OneRun(s, actions) ensures Run(s, actions).phase.Driving? {
        StaysStuck(s, actions);
      }
    }
  }

  // ---- when the task is paused

  /** At the pause handler's poll a caller can tell: the run will come back exactly if the queue is empty or no worker
      holds a subtask. */
  lemma TellsAtPoll(s: State)
    requires StateOk(s) && s.phase.Driving? && !s.phase.exec.stop && s.phase.exec.stopHandler.StopWaiting?
    requires s.phase.exec.pauseHandler.PauseNoticed? || s.phase.exec.pauseHandler.PauseDraining?
    requires s.phase.exec.active == 0
    ensures var t, e := Step(s, PollPause), s.phase.exec;
            && JustPaused(t) && t.store.task.TaskPaused?
            && (Releases(t.phase.exec) <==>
                  e.queue == [] || forall w :: 0 <= w < |e.workers| ==> !Holds(e.workers[w].place))
  {
    StepOk(s, PollPause);
    CancelledReleases(s.phase.exec.workers);
    assert Step(s, PollPause).phase.exec.workers == CancelAll(s.phase.exec.workers);
  }

  lemma CancelledReleases(workers: seq<Worker>)
    ensures !SomeWaits(CancelAll(workers))
    ensures AllThrough(CancelAll(workers)) <==> forall w :: 0 <= w < |workers| ==> !Holds(workers[w].place)
  {
    var all := CancelAll(workers);
    forall w | 0 <= w < |workers| ensures Through(all[w]) <==> !Holds(workers[w].place) {}
  }

  lemma StuckAtPoll(s: State, w: nat)
    requires StateOk(s) && s.phase.Driving? && !s.phase.exec.stop && s.phase.exec.stopHandler.StopWaiting?
    requires s.phase.exec.pauseHandler.PauseNoticed? && s.phase.exec.active == 0
    requires s.phase.exec.queue != [] && w < |s.phase.exec.workers| && Holds(s.phase.exec.workers[w].place)
    ensures var t := Step(s, PollPause); JustPaused(t) && t.store.task.TaskPaused? && !Releases(t.phase.exec)
  {
    TellsAtPoll(s);
  }

  predicate Unstopped(s: State) {
    s.phase.Driving? ==> !s.phase.exec.stop && s.phase.exec.stopHandler.StopWaiting?
  }

  lemma UnstoppedStep(s: State, a: Action)
    requires StateOk(s) && InRun(s) && Unstopped(s) && NoStop(a) && CarefulStep(s, a)
    ensures Unstopped(Step(s, a)) && (InRun(Step(s, a)) || Step(s, a).phase.Idle?)
  {
    if IsReconcileAction(a) { RequestRests(s, a); }
    else if s.phase.Driving? && !a.Gather? && IsWorkerAction(a) && a.w < |s.phase.exec.workers| {
      WorkersRest(Live(s.store, s.phase.exec), a, a.w);
    } else if s.phase.Driving? && a.PollPause? {
      PollRests(Live(s.store, s.phase.exec));
    }
  }

  lemma PollRests(l: Live)
    ensures PausePoll(l).exec.stop == l.exec.stop && PausePoll(l).exec.stopHandler == l.exec.stopHandler
  {
  }

  lemma {:induction false} StaysUnstopped(s: State, actions: seq<Action>)
    requires StateOk(s) && InRun(s) && Unstopped(s) && NeverStopped(actions) && OneRun(s, actions)
    ensures StateOk(Run(s, actions)) && Unstopped(Run(s, actions))
    decreases |actions|
  {
    if actions != [] {
      var t := Step(s, actions[0]);
      assert NoStop(actions[0]);
      StepOk(s, actions[0]);
      UnstoppedStep(s, actions[0]);
      assert NeverStopped(actions[1..]);
      if InRun(t) { StaysUnstopped(t, actions[1..]); } else { assert actions[1..] == []; }
    }
  }

  /** So it is for every run that nobody has stopped, as soon as it is paused. */
  lemma PausedRuns(s: State, limit: int, prepares: bool, history: seq<Action>)
    requires StateOk(s) && s.phase.Idle? && NeverStopped(history)
    requires var t := Step(s, BeginRun(limit, prepares));
             OneRun(t, history) && Run(t, history).phase.Driving? && Run(t, history).phase.exec.observed
    ensures var u := Run(Step(s, BeginRun(limit, prepares)), history);
            JustPaused(u) && (Releases(u.phase.exec) <==> exists actions :: ComesBack(u, actions))
  {
    var t := Step(s, BeginRun(limit, prepares));
    StepOk(s, BeginRun(limit, prepares));
    StaysUnstopped(t, history);
    PauseReturnsExactly(Run(t, history));
  }

  // ---- an example

  const FRESH := Subtask(Pending, 0, "")

  /** One worker on two fresh subtasks. */
  function Pair(task: TaskStatus, pause: bool, place: Place, queue: seq<Item>, handler: PauseHandler): State {
    State(Store([FRESH, FRESH], task),
          Driving(Exec([FRESH, FRESH], 1, false, false, pause, !pause, false, 0, queue, [Worker(place, false)],
                       StopWaiting, handler)), [])
  }

  lemma PairBegins()
    ensures Step(State(Store([FRESH, FRESH], TaskPending), Idle(false, false), []), BeginRun(1, false))
            == Pair(TaskRunning, false, AtLoop, [Item(0, FRESH), Item(1, FRESH)], PauseWaiting)
  {
    var subs := [FRESH, FRESH];
    assert PendingItems(subs, 2) == [];
    assert PendingItems(subs, 1) == [Item(1, FRESH)];
    assert PendingItems(subs) == [Item(0, FRESH), Item(1, FRESH)];
    assert NewExec(subs, 1, false).workers == [Worker(AtLoop, false)];
  }

  lemma PairTakes()
    ensures Step(Pair(TaskRunning, false, AtLoop, [Item(0, FRESH), Item(1, FRESH)], PauseWaiting), Take(0))
            == Pair(TaskRunning, false, AtGate(Item(0, FRESH)), [Item(1, FRESH)], PauseWaiting)
  {
    var first, second := Item(0, FRESH), Item(1, FRESH);
    assert [first, second][1..] == [second];
    assert [Worker(AtLoop, false)][0 := Worker(AtGate(first), false)] == [Worker(AtGate(first), false)];
  }

  lemma PairPauses(place: Place, queue: seq<Item>)
    ensures Step(Pair(TaskRunning, false, place, queue, PauseWaiting), RequestPause)
            == Pair(TaskRunning, true, place, queue, PauseWaiting)
    ensures Step(Pair(TaskRunning, true, place, queue, PauseWaiting), NoticePause)
            == Pair(TaskPausing, true, place, queue, PauseNoticed)
  {
  }

  function TwoFresh(): State {
    State(Store([FRESH, FRESH], TaskPending), Idle(false, false), [])
  }

  lemma PairReached()
    ensures var t := Step(TwoFresh(), BeginRun(1, false));
            var v := Pair(TaskPausing, true, AtGate(Item(0, FRESH)), [Item(1, FRESH)], PauseNoticed);
            StateOk(TwoFresh()) && StateOk(v) && Step(Step(Step(t, Take(0)), RequestPause), NoticePause) == v
  {
    var t := Step(TwoFresh(), BeginRun(1, false));
    PairBegins();
    PairTakes();
    PairPauses(AtGate(Item(0, FRESH)), [Item(1, FRESH)]);
    StepOk(TwoFresh(), BeginRun(1, false));
    StepOk(t, Take(0));
    StepOk(Step(t, Take(0)), RequestPause);
    StepOk(Step(Step(t, Take(0)), RequestPause), NoticePause);
  }

  lemma PairStuck()
    ensures var u := Step(Pair(TaskPausing, true, AtGate(Item(0, FRESH)), [Item(1, FRESH)], PauseNoticed), PollPause);
            JustPaused(u) && !Releases(u.phase.exec) && u.store.task.TaskPaused?
  {
    PairReached();
    StuckAtPoll(Pair(TaskPausing, true, AtGate(Item(0, FRESH)), [Item(1, FRESH)], PauseNoticed), 0);
  }

  /** Two subtasks, one worker, and a pause asked for while the worker stands at the gate with the first: the task
      reads paused, but its run never returns unless it is stopped. */
  lemma PauseHangs(actions: seq<Action>)
    requires NeverStopped(actions)
    ensures var u := Run(Step(TwoFresh(), BeginRun(1, false)), [Take(0), RequestPause, NoticePause, PollPause]);
            StateOk(TwoFresh()) && u.store.task.TaskPaused? && (OneRun(u, actions) ==> Run(u, actions).phase.Driving?)
  {
    FourSteps(Step(TwoFresh(), BeginRun(1, false)), Take(0), RequestPause, NoticePause, PollPause);
    PairReached();
    PairStuck();
    var u := Run(Step(TwoFresh(), BeginRun(1, false)), [Take(0), RequestPause, NoticePause, PollPause]);
    if OneRun(u, actions) { StaysStuck(u, actions); }
  }

  lemma FourSteps(s: State, a: Action, b: Action, c: Action, d: Action)
    ensures Run(s, [a, b, c, d]) == Step(Step(Step(Step(s, a), b), c), d)
  {
    assert [a, b, c, d][1..] == [b, c, d] && [b, c, d][1..] == [c, d] && [c, d][1..] == [d] && [d][1..] == [];
    assert Run(Step(Step(Step(s, a), b), c), [d]) == Step(Step(Step(Step(s, a), b), c), d);
    assert Run(Step(Step(s, a), b), [c, d]) == Run(Step(Step(Step(s, a), b), c), [d]);
    assert Run(Step(s, a), [b, c, d]) == Run(Step(Step(s, a), b), [c, d]);
  }
}
