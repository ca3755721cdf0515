/** What a request to pause or to stop lets through. */
module TaskPausing {
  import opened TaskModel
  import opened TaskInvariants
  import opened TaskRuns

  predicate InRunnerAt(s: State, w: nat) {
    s.phase.Driving? && w < |s.phase.exec.workers| && s.phase.exec.workers[w].place.InRunner?
  }

  /** Whether a runner is entered in this step. */
  predicate Enters(s: State, a: Action) {
    IsWorkerAction(a) && !InRunnerAt(s, a.w) && InRunnerAt(Step(s, a), a.w)
  }

  /** How many runners are entered in a run. */
  function Starts(s: State, actions: seq<Action>): nat
    decreases |actions|
  {
    if actions == [] then 0 else (if Enters(s, actions[0]) then 1 else 0) + Starts(Step(s, actions[0]), actions[1..])
  }

  function Gate(place: Place): nat {
    if place.AtLimiter? || place.AtPacing? then 1 else 0
  }

  /** How many workers are past the pause gate and not yet in their runner. */
  function PastGate(workers: seq<Worker>): nat {
    if workers == [] then 0 else Gate(workers[0].place) + PastGate(workers[1..])
  }

  lemma {:induction false} PastGateUpdate(workers: seq<Worker>, w: nat, worker: Worker)
    requires w < |workers|
    ensures PastGate(workers[w := worker]) == PastGate(workers) - Gate(workers[w].place) + Gate(worker.place)
  {
    if w == 0 {
      assert workers[0 := worker][1..] == workers[1..];
    } else {
      assert workers[w := worker][1..] == workers[1..][w - 1 := worker];
      PastGateUpdate(workers[1..], w - 1, worker);
    }
  }

  lemma {:induction false} PastGateCancelled(workers: seq<Worker>)
    ensures PastGate(CancelAll(workers)) == PastGate(workers)
  {
    if workers != [] {
      assert CancelAll(workers)[1..] == CancelAll(workers[1..]);
      PastGateCancelled(workers[1..]);
    }
  }

  /** How many runners a pausing or stopping run may still enter. */
  function Allowed(e: Exec): nat {
    if e.stop || e.prepares then 0 else PastGate(e.workers)
  }

  predicate Held(e: Exec) {
    e.stop || (e.pause && !e.gateOpen)
  }

  lemma HeldShape(l: Live, a: Action, w: nat)
    requires HandsOk(l) && Held(l.exec) && w < |l.exec.workers|
    ensures var shape, place := ShapeOf(l, a, w), l.exec.workers[w].place;
            && (shape.Takes? ==> Gate(place) == 0 && shape.worker.place.AtGate?)
            && (shape.Moves? ==> !shape.worker.place.InRunner? && (!l.exec.stop ==> Gate(shape.worker.place) <= Gate(place)))
            && (shape.Saves? && shape.worker.place.InRunner? ==> !l.exec.stop && !l.exec.prepares && Gate(place) == 1)
            && (shape.Saves? ==> Gate(shape.worker.place) == 0)
  {
  }

  lemma HeldWorkerStep(l: Live, a: Action, w: nat)
    requires HandsOk(l) && Held(l.exec) && w < |l.exec.workers|
    ensures var m := WorkerStep(l, a, w).exec;
            && m.stop == l.exec.stop && m.pause == l.exec.pause && m.gateOpen == l.exec.gateOpen
            && m.prepares == l.exec.prepares && |m.workers| == |l.exec.workers|
            && Allowed(m) + (if m.workers[w].place.InRunner? && !l.exec.workers[w].place.InRunner? then 1 else 0)
               <= Allowed(l.exec)
  {
    var shape := ShapeOf(l, a, w);
    StepHasShape(l, a, w);
    ShapeFits(l, a, w);
    HeldShape(l, a, w);
    if !shape.Stays? { PastGateUpdate(l.exec.workers, w, shape.worker); }
  }

  lemma HeldHandlerStep(l: Live, a: Action)
    requires Held(l.exec)
    ensures var m := HandlerStep(l, a).exec; Held(m) && Allowed(m) <= Allowed(l.exec)
  {
    HandlerStepParts(l, a);
    PastGateCancelled(l.exec.workers);
    if a.PollPause? && (l.exec.pauseHandler.PauseNoticed? || l.exec.pauseHandler.PauseDraining?) { PollHeld(l); }
  }

  lemma PollHeld(l: Live)
    ensures var m := PausePoll(l).exec;
            m.stop == l.exec.stop && m.pause == l.exec.pause && m.gateOpen == l.exec.gateOpen && m.prepares == l.exec.prepares
  {
  }

  lemma HeldStep(s: State, a: Action)
    requires StateOk(s) && s.phase.Driving? && Held(s.phase.exec) && !a.Crash? && CarefulStep(s, a)
    ensures var t := Step(s, a);
            if t.phase.Driving?
            then Held(t.phase.exec) && Allowed(t.phase.exec) + (if Enters(s, a) then 1 else 0) <= Allowed(s.phase.exec)
            else t.phase.Finalizing? && !Enters(s, a)
  {
    var l := Live(s.store, s.phase.exec);
    if IsReconcileAction(a) { RequestRests(s, a); }
    else if !a.Gather? {
      if IsWorkerAction(a) {
        if a.w < |l.exec.workers| { HeldWorkerStep(l, a, a.w); }
      } else {
        HeldHandlerStep(l, a);
      }
    }
  }

  lemma {:induction false} NoneEntered(s: State, actions: seq<Action>)
    requires StateOk(s) && s.phase.Finalizing? && OneRun(s, actions)
    ensures Starts(s, actions) == 0
    decreases |actions|
  {
    if actions != [] {
      StepOk(s, actions[0]);
      if IsReconcileAction(actions[0]) { RequestRests(s, actions[0]); }
      if Step(s, actions[0]).phase.Idle? { assert actions[1..] == []; } else { NoneEntered(Step(s, actions[0]), actions[1..]); }
    }
  }

  lemma {:induction false} HeldRun(s: State, actions: seq<Action>)
    requires StateOk(s) && s.phase.Driving? && Held(s.phase.exec) && OneRun(s, actions)
    ensures Starts(s, actions) <= Allowed(s.phase.exec)
    decreases |actions|
  {
    if actions != [] {
      var t := Step(s, actions[0]);
      StepOk(s, actions[0]);
      HeldStep(s, actions[0]);
      if t.phase.Driving? { HeldRun(t, actions[1..]); } else { NoneEntered(t, actions[1..]); }
    }
  }

  /** Once a pause is requested a run enters at most as many runners as there were workers already past the gate,
      and none at all if the runners have to be prepared; once stop is requested, it enters none. */
  lemma RequestsBoundStarts(s: State, actions: seq<Action>)
    requires StateOk(s) && s.phase.Driving? && (s.phase.exec.pause || s.phase.exec.stop) && OneRun(s, actions)
    ensures Starts(s, actions) <= PastGate(s.phase.exec.workers)
    ensures s.phase.exec.prepares || s.phase.exec.stop ==> Starts(s, actions) == 0
  {
    HeldRun(s, actions);
  }

  /** The pause handler's poll saves the task as paused, and cancels every worker that has not finished, exactly when
      no worker is in a runner, unless it has been waiting and stop was requested meanwhile. */
  lemma PausesExactlyWhenQuiet(s: State)
    requires StateOk(s) && s.phase.Driving? && !s.store.task.TaskPaused?
    requires s.phase.exec.pauseHandler.PauseNoticed? || s.phase.exec.pauseHandler.PauseDraining?
    ensures var t, e := Step(s, PollPause), s.phase.exec;
            && t.phase.Driving?
            && (t.store.task.TaskPaused? <==>
                  (forall w :: 0 <= w < |e.workers| ==> !e.workers[w].place.InRunner?)
                  && !(e.pauseHandler.PauseDraining? && e.stop))
            && (t.store.task.TaskPaused? ==>
                  forall w :: 0 <= w < |e.workers| ==>
                    w < |t.phase.exec.workers| && (e.workers[w].place.Finished? || t.phase.exec.workers[w].cancelled))
  {
    InRunnersBound(s.phase.exec.workers);
  }

  // ---- what the stored status tells during a run

  /** The task reads running until a handler has noticed a request; pausing until no runner is active; then paused; and
      stopping once a stop has been noticed, if no pause was. */
  ghost predicate StatusTells(l: Live) {
    var task, e := l.store.task, l.exec;
    && (task.TaskRunning? || task.TaskPausing? || task.TaskPaused? || task.TaskStopping?)
    && (e.stopHandler.StopWaiting? && e.pauseHandler.PauseWaiting? ==> task.TaskRunning?)
    && (e.stopHandler.StopWaiting? && (e.pauseHandler.PauseNoticed? || e.pauseHandler.PauseDraining?) ==> task.TaskPausing?)
    && (e.stopHandler.StopWaiting? && e.observed ==> task.TaskPaused?)
    && (!e.stopHandler.StopWaiting? && e.pauseHandler.PauseWaiting? ==> task.TaskStopping?)
    && (e.observed ==> e.pauseHandler.PauseHandled?)
  }

  lemma WorkerStatus(l: Live, a: Action, w: nat)
    requires HandsOk(l) && w < |l.exec.workers|
    ensures var m := WorkerStep(l, a, w);
            && m.store.task == l.store.task && m.exec.stopHandler == l.exec.stopHandler
            && m.exec.pauseHandler == l.exec.pauseHandler && m.exec.observed == l.exec.observed
  {
    StepHasShape(l, a, w);
  }

  lemma HandlerStatus(l: Live, a: Action)
    requires StatusTells(l)
    ensures StatusTells(HandlerStep(l, a))
  {
  }

  lemma StatusStep(s: State, a: Action)
    requires StateOk(s) && s.phase.Driving? && StatusTells(Live(s.store, s.phase.exec)) && !a.Crash? && CarefulStep(s, a)
    ensures Step(s, a).phase.Driving? ==> StatusTells(Live(Step(s, a).store, Step(s, a).phase.exec))
    ensures Step(s, a).phase.Driving? || Step(s, a).phase.Finalizing?
  {
    var l := Live(s.store, s.phase.exec);
    if IsReconcileAction(a) { RequestRests(s, a); }
    else if !a.Gather? {
      if !IsWorkerAction(a) { HandlerStatus(l, a); }
      else if a.w < |l.exec.workers| { WorkerStatus(l, a, a.w); }
    }
  }

  lemma {:induction false} StatusFollows(s: State, actions: seq<Action>)
    requires StateOk(s) && InRun(s) && (s.phase.Driving? ==> StatusTells(Live(s.store, s.phase.exec))) && OneRun(s, actions)
    ensures var t := Run(s, actions); t.phase.Driving? ==> StatusTells(Live(t.store, t.phase.exec))
    decreases |actions|
  {
    if actions != [] {
      var t := Step(s, actions[0]);
      StepOk(s, actions[0]);
      RunStepStart(s, actions[0]);
      if s.phase.Driving? { StatusStep(s, actions[0]); } else { FinalStays(s, actions[0]); }
      if t.phase.Idle? { assert actions[1..] == []; } else { StatusFollows(t, actions[1..]); }
    }
  }

  lemma FinalStays(s: State, a: Action)
    requires StateOk(s) && s.phase.Finalizing? && !a.Crash? && CarefulStep(s, a)
    ensures !Step(s, a).phase.Driving?
  {
    if IsReconcileAction(a) { RequestRests(s, a); }
  }

  /** At every moment of a run, until it comes to its end, the stored status tells where its requests have got to. */
  lemma StatusDuringRun(s: State, limit: int, prepares: bool, actions: seq<Action>)
    requires StateOk(s) && s.phase.Idle? && OneRun(Step(s, BeginRun(limit, prepares)), actions)
    ensures var t := Run(Step(s, BeginRun(limit, prepares)), actions);
            t.phase.Driving? ==> StatusTells(Live(t.store, t.phase.exec))
  {
    StepOk(s, BeginRun(limit, prepares));
    StatusFollows(Step(s, BeginRun(limit, prepares)), actions);
  }
}
