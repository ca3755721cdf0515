/** When a reconcile endangers finished work (transoria/bridge/task_service.py). A request loads a snapshot,
    then looks whether the task is live, then writes from the snapshot; the executor runs in another thread. */
module TaskReconcile {
  import opened TaskModel
  import opened TaskInvariants
  import opened TaskRuns

  /** No step on the way loses what a completed subtask stored. */
  ghost predicate KeepsThroughout(s: State, actions: seq<Action>)
    decreases |actions|
  {
    actions == [] ||
    (KeepsCompleted(s.store.subs, Step(s, actions[0]).store.subs) && KeepsThroughout(Step(s, actions[0]), actions[1..]))
  }

  /** Anything but a new run, another reconcile's step, or the crash that would end reconcile `r` as well. */
  predicate Alongside(a: Action, r: nat) {
    !a.BeginRun? && !a.BeginRerun? && !a.Crash? && (a.BeginReconcile? || a.ReconcileStep? ==> a.r == r)
  }

  ghost predicate AllAlongside(actions: seq<Action>, r: nat) {
    forall k :: 0 <= k < |actions| ==> Alongside(actions[k], r)
  }

  /** A reconcile that loads its snapshot now keeps every completed subtask, whatever the executor does meanwhile. */
  ghost predicate SafeToLoad(s: State) {
    forall actions :: AllAlongside(actions, |s.reconciles|) ==> KeepsThroughout(Step(s, LoadSnapshot), actions)
  }

  predicate RunnerActive(s: State) {
    s.phase.Driving? && s.phase.exec.active > 0
  }

  // ---- with no runner active

  function Begun(c: Reconcile): nat {
    match c.stage
    case Loaded => 0
    case Healing(at) => at
    case Over => |c.snapshot.subs|
  }

  /** What the snapshot shows running and the reconcile has yet to reach is out of everybody's hands. */
  ghost predicate Untouched(s: State, c: Reconcile) {
    && |c.snapshot.subs| == |s.store.subs|
    && (forall i :: Begun(c) <= i < |s.store.subs| && c.snapshot.subs[i].status.Running? ==> s.store.subs[i].status.Running?)
    && (s.phase.Driving? ==>
          && HandsOk(Live(s.store, s.phase.exec)) && |s.phase.exec.start| == |s.store.subs|
          && forall i :: Begun(c) <= i < |s.store.subs| && c.snapshot.subs[i].status.Running? ==>
               !s.phase.exec.start[i].status.Pending?)
  }

  ghost predicate Harmless(s: State, r: nat) {
    r < |s.reconciles| && Untouched(s, s.reconciles[r])
  }

  lemma OtherSaved(l: Live, i: nat, subtask: Subtask)
    requires HandsOk(l) && i < |l.store.subs| == |l.exec.start| && !l.exec.start[i].status.Pending?
    ensures HandsOk(l.(store := l.store.(subs := l.store.subs[i := subtask])))
  {
    var m := l.(store := l.store.(subs := l.store.subs[i := subtask]));
    forall w | 0 <= w < |m.exec.workers| && Holds(m.exec.workers[w].place)
      ensures ItemOk(m, m.exec.workers[w].place.item, m.exec.workers[w].place.InRunner?)
    {
      assert ItemOk(l, l.exec.workers[w].place.item, l.exec.workers[w].place.InRunner?);
    }
    forall q | 0 <= q < |m.exec.queue| ensures ItemOk(m, m.exec.queue[q], false) { assert ItemOk(l, l.exec.queue[q], false); }
  }

  lemma LiveStepUntouched(l: Live, a: Action)
    requires HandsOk(l) && |l.exec.start| == |l.store.subs|
    ensures var m := LiveStep(l, a);
            && HandsOk(m) && m.exec.start == l.exec.start && |m.store.subs| == |l.store.subs|
            && forall i :: 0 <= i < |l.store.subs| && !l.exec.start[i].status.Pending? ==> m.store.subs[i] == l.store.subs[i]
  {
    LiveStepHands(l, a);
    LiveStepStart(l, a);
    if IsWorkerAction(a) {
      if a.w < |l.exec.workers| { WorkerStepSaves(l, a, a.w); }
    } else {
      HandlerStepParts(l, a);
    }
  }

  lemma MoveHarmless(s: State, r: nat, at: nat, from: Status, to: Status, phase: Phase)
    requires Harmless(s, r) && at < |s.store.subs| && from != to && !from.Running? && !phase.Driving?
    ensures Harmless(Advance(s, Move(s.store, at, from, to), phase), r)
  {
    MoveOk(s.store, at, from, to);
  }

  lemma BeginHarmless(s: State, r: nat, stop: bool, returned: bool, limit: int, prepares: bool)
    requires Harmless(s, r)
    ensures Harmless(Begin(s, stop, returned, limit, prepares), r)
  {
    BeginsHands(s.store, limit, prepares);
  }

  lemma DriveHarmless(s: State, r: nat, a: Action)
    requires Harmless(s, r) && s.phase.Driving?
    ensures var l := LiveStep(Live(s.store, s.phase.exec), a); Harmless(Advance(s, l.store, Driving(l.exec)), r)
  {
    LiveStepUntouched(Live(s.store, s.phase.exec), a);
  }

  lemma RerunHarmless(s: State, r: nat)
    requires Harmless(s, r) && s.phase.Rerunning?
    ensures Harmless(Step(s, RerunStep), r)
  {
    var Rerunning(stop, returned, at, limit, prepares) := s.phase;
    if at < |s.store.subs| {
      MoveHarmless(s, r, at, Failed, Pending, Rerunning(stop, returned, at + 1, limit, prepares));
    } else {
      BeginHarmless(s, r, stop, returned, limit, prepares);
    }
  }

  lemma FinalizeHarmless(s: State, r: nat)
    requires Harmless(s, r) && s.phase.Finalizing?
    ensures Harmless(Step(s, FinalizeStep), r)
  {
    var Finalizing(start, stopped, paused, at) := s.phase;
    if at < |s.store.subs| && !stopped && !paused {
      MoveHarmless(s, r, at, Pending, Failed, Finalizing(start, stopped, paused, at + 1));
    }
  }

  lemma ExecutorHarmless(s: State, r: nat, a: Action)
    requires Harmless(s, r) && Alongside(a, r) && !IsReconcileAction(a)
    ensures Harmless(Step(s, a), r)
  {
    match s.phase
    case Driving(e) => if !a.Gather? { DriveHarmless(s, r, a); }
    case Rerunning(_, _, _, _, _) => if a.RerunStep? { RerunHarmless(s, r); }
    case Finalizing(_, _, _, _) => if a.FinalizeStep? { FinalizeHarmless(s, r); }
    case Idle(_, _) =>
  }

  lemma CheckHarmless(s: State, r: nat)
    requires Harmless(s, r) && s.reconciles[r].stage.Loaded?
    ensures Harmless(CheckLiveness(s, r), r)
  {
    if s.phase.Driving? {
      SameHands(Live(s.store, s.phase.exec), Live(CheckLiveness(s, r).store, s.phase.exec));
    }
  }

  lemma HealHarmless(s: State, r: nat)
    requires Harmless(s, r) && s.reconciles[r].stage.Healing?
    ensures Harmless(Heal(s, r), r) && KeepsCompleted(s.store.subs, Heal(s, r).store.subs)
  {
    var snapshot, at := s.reconciles[r].snapshot, s.reconciles[r].stage.at;
    if s.phase.Driving? && at < |s.store.subs| && snapshot.subs[at].status.Running? {
      OtherSaved(Live(s.store, s.phase.exec), at, snapshot.subs[at].(status := Pending));
    }
  }

  lemma StepHarmless(s: State, r: nat, a: Action)
    requires Harmless(s, r) && Alongside(a, r)
    ensures Harmless(Step(s, a), r) && KeepsCompleted(s.store.subs, Step(s, a).store.subs)
  {
    match a
    case LoadSnapshot =>
    case BeginReconcile(_) => if s.reconciles[r].stage.Loaded? { CheckHarmless(s, r); }
    case ReconcileStep(_) => if s.reconciles[r].stage.Healing? { HealHarmless(s, r); }
    case _ =>
      ExecutorHarmless(s, r, a);
      ExecutorStepKeeps(s, a);
  }

  lemma {:induction false} RunHarmless(s: State, r: nat, actions: seq<Action>)
    requires Harmless(s, r) && AllAlongside(actions, r)
    ensures KeepsThroughout(s, actions)
    decreases |actions|
  {
    if actions != [] {
      StepHarmless(s, r, actions[0]);
      RunHarmless(Step(s, actions[0]), r, actions[1..]);
    }
  }

  lemma LoadedHarmless(s: State)
    requires StateOk(s) && !RunnerActive(s)
    ensures Harmless(Step(s, LoadSnapshot), |s.reconciles|)
  {
    if s.phase.Driving? {
      InRunnersBound(s.phase.exec.workers);
      RunningFromStart(s.phase.exec.start, s.store.subs);
    }
  }

  // ---- a stopped run can always return

  /** What a worker does next when told to stop. */
  function NextAction(worker: Worker, w: nat): Action {
    if worker.place.InRunner? then Settle(w, Aborted)
    else if worker.cancelled then DeliverCancel(w)
    else match worker.place
      case AtGate(_) => PassGate(w)
      case AtLimiter(_) => PassLimiter(w)
      case AtPacing(_) => PassPacing(w)
      case AtPrepare(_) => PassPrepare(w)
      case _ => Take(w)
  }

  function StepsLeft(worker: Worker): nat {
    if worker.place.Finished? then 0 else if worker.place.AtLoop? then 1 else 2
  }

  ghost predicate Draining(s: State) {
    s.phase.Driving? && s.phase.exec.stop && HandsOk(Live(s.store, s.phase.exec))
  }

  /** What a run on its way to its return leaves alone. */
  ghost predicate Follows(s: State, t: State) {
    && KeepsCompleted(s.store.subs, t.store.subs) && |t.reconciles| == |s.reconciles|
    && forall r :: 0 <= r < |s.reconciles| ==>
         t.reconciles[r].snapshot == s.reconciles[r].snapshot && t.reconciles[r].stage == s.reconciles[r].stage
  }

  lemma FollowsOn(s: State, t: State, u: State)
    requires Follows(s, t) && Follows(t, u)
    ensures Follows(s, u)
  {
  }

  lemma NextShape(l: Live, w: nat)
    requires HandsOk(l) && l.exec.stop && w < |l.exec.workers| && !l.exec.workers[w].place.Finished?
    ensures var shape := ShapeOf(l, NextAction(l.exec.workers[w], w), w);
            (shape.Moves? || shape.Saves?) && StepsLeft(shape.worker) < StepsLeft(l.exec.workers[w])
  {
  }

  lemma NextLive(l: Live, w: nat)
    requires HandsOk(l) && l.exec.stop && w < |l.exec.workers| && !l.exec.workers[w].place.Finished?
    ensures var m := LiveStep(l, NextAction(l.exec.workers[w], w));
            && HandsOk(m) && m.exec.stop && KeepsCompleted(l.store.subs, m.store.subs)
            && |m.exec.workers| == |l.exec.workers| && StepsLeft(m.exec.workers[w]) < StepsLeft(l.exec.workers[w])
            && forall v :: 0 <= v < w ==> m.exec.workers[v] == l.exec.workers[v]
  {
    var a := NextAction(l.exec.workers[w], w);
    NextShape(l, w);
    StepHasShape(l, a, w);
    ShapeFits(l, a, w);
    ShapedHands(l, w, ShapeOf(l, a, w));
    LiveStepKeeps(l, a);
  }

  lemma WorkerDrives(s: State, a: Action)
    requires s.phase.Driving? && IsWorkerAction(a)
    ensures var m := LiveStep(Live(s.store, s.phase.exec), a);
            Step(s, a) == State(m.store, Driving(m.exec), Outdated(s.reconciles))
  {
  }

  lemma DrainStep(s: State, w: nat)
    requires Draining(s) && w < |s.phase.exec.workers| && !s.phase.exec.workers[w].place.Finished?
    ensures var t := Step(s, NextAction(s.phase.exec.workers[w], w));
            && Draining(t) && Follows(s, t) && |t.phase.exec.workers| == |s.phase.exec.workers|
            && StepsLeft(t.phase.exec.workers[w]) < StepsLeft(s.phase.exec.workers[w])
            && forall v :: 0 <= v < w ==> t.phase.exec.workers[v] == s.phase.exec.workers[v]
  {
    var l, a := Live(s.store, s.phase.exec), NextAction(s.phase.exec.workers[w], w);
    NextLive(l, w);
    WorkerDrives(s, a);
  }

  ghost predicate FinishedBelow(s: State, w: nat) {
    s.phase.Driving? && w <= |s.phase.exec.workers| && forall v :: 0 <= v < w ==> s.phase.exec.workers[v].place.Finished?
  }

  lemma {:induction false} Drain(s: State, w: nat) returns (actions: seq<Action>)
    requires Draining(s) && FinishedBelow(s, w)
    ensures forall r :: AllAlongside(actions, r)
    ensures var t := Run(s, actions); t.phase.Driving? && t.phase.exec.stop && AllFinished(t.phase.exec.workers) && Follows(s, t)
    decreases if s.phase.Driving? then |s.phase.exec.workers| - w else 0,
              if s.phase.Driving? && w < |s.phase.exec.workers| then StepsLeft(s.phase.exec.workers[w]) else 0
  {
    if w == |s.phase.exec.workers| {
      actions := [];
    } else if s.phase.exec.workers[w].place.Finished? {
      actions := Drain(s, w + 1);
    } else {
      var a := NextAction(s.phase.exec.workers[w], w);
      DrainStep(s, w);
      var rest := Drain(Step(s, a), w);
      actions := [a] + rest;
      assert actions[1..] == rest;
      FollowsOn(s, Step(s, a), Run(s, actions));
      forall r ensures AllAlongside(actions, r) { assert AllAlongside(rest, r); }
    }
  }

  lemma {:induction false} RunConcat(s: State, a: seq<Action>, b: seq<Action>)
    ensures Run(s, a + b) == Run(Run(s, a), b)
    decreases |a|
  {
    if a == [] {
      assert a + b == b;
    } else {
      assert (a + b)[1..] == a[1..] + b;
      RunConcat(Step(s, a[0]), a[1..], b);
    }
  }

  /** From any state of a run there is a way for it to return: stop it, and let every worker take its next step. */
  lemma CanReturn(s: State) returns (actions: seq<Action>)
    requires s.phase.Driving? && HandsOk(Live(s.store, s.phase.exec))
    ensures forall r :: AllAlongside(actions, r)
    ensures var t := Run(s, actions); t.phase.Idle? && t.phase.returned && t.store.task.TaskStopped? && Follows(s, t)
  {
    var t := Step(s, RequestStop);
    StopDrains(s);
    var drain := Drain(t, 0);
    var u := Run(t, drain);
    var end := [Gather, FinalizeStep];
    ReturnsStopped(u);
    RunConcat(t, drain, end);
    actions := [RequestStop] + (drain + end);
    assert actions[1..] == drain + end;
    FollowsOn(s, t, u);
    FollowsOn(s, u, Run(u, end));
    forall r ensures AllAlongside(actions, r) { assert AllAlongside(drain, r); }
  }

  lemma StopDrains(s: State)
    requires s.phase.Driving? && HandsOk(Live(s.store, s.phase.exec))
    ensures var t := Step(s, RequestStop); Draining(t) && Follows(s, t)
  {
    var t := Step(s, RequestStop);
    SameHands(Live(s.store, s.phase.exec), Live(t.store, t.phase.exec));
  }

  lemma ReturnsStopped(u: State)
    requires u.phase.Driving? && u.phase.exec.stop && AllFinished(u.phase.exec.workers)
    ensures var t := Run(u, [Gather, FinalizeStep]);
            t.phase.Idle? && t.phase.returned && t.store.task.TaskStopped? && Follows(u, t)
  {
    var v := Step(u, Gather);
    assert [Gather, FinalizeStep][1..] == [FinalizeStep] && [FinalizeStep][1..] == [];
    assert Run(v, [FinalizeStep]) == Step(v, FinalizeStep);
  }

  // ---- with a runner active

  lemma {:induction false} ThroughoutConcat(s: State, a: seq<Action>, b: seq<Action>)
    requires KeepsThroughout(s, a + b)
    ensures KeepsThroughout(Run(s, a), b)
    decreases |a|
  {
    if a == [] {
      assert a + b == b;
    } else {
      assert (a + b)[1..] == a[1..] + b;
      ThroughoutConcat(Step(s, a[0]), a[1..], b);
    }
  }

  lemma {:induction false} ThroughoutKeeps(s: State, actions: seq<Action>)
    requires KeepsThroughout(s, actions)
    ensures KeepsCompleted(s.store.subs, Run(s, actions).store.subs)
    decreases |actions|
  {
    if actions != [] { ThroughoutKeeps(Step(s, actions[0]), actions[1..]); }
  }

  /** A reconcile that has passed its check overwrites whatever its snapshot showed running. */
  lemma {:induction false} HealReaches(s: State, r: nat, i: nat)
    requires r < |s.reconciles| && s.reconciles[r].stage.Healing? && s.reconciles[r].stage.at <= i
    requires i < |s.reconciles[r].snapshot.subs| == |s.store.subs| && s.reconciles[r].snapshot.subs[i].status.Running?
    ensures var t := Run(s, Repeat(ReconcileStep(r), i - s.reconciles[r].stage.at + 1));
            |t.store.subs| == |s.store.subs| && t.store.subs[i].status.Pending?
    decreases i - s.reconciles[r].stage.at
  {
    var n, t := i - s.reconciles[r].stage.at + 1, Step(s, ReconcileStep(r));
    RepeatRun(s, ReconcileStep(r), n);
    if n == 1 { RepeatRun(t, ReconcileStep(r), 0); } else { HealReaches(t, r, i); }
  }

  lemma RepeatAlongside(r: nat, n: nat)
    ensures AllAlongside(Repeat(ReconcileStep(r), n), r)
  {
    if n > 0 { RepeatAlongside(r, n - 1); }
  }

  /** Reconcile `r` waits with a snapshot that shows `i` running; meanwhile `i` is completed and the run returns. */
  lemma Overwritten(t: State, r: nat, i: nat, before: seq<Action>)
    requires AllAlongside(before, r)
    requires var u := Run(t, before);
             && u.phase.Idle? && r < |u.reconciles| && u.reconciles[r].stage.Loaded?
             && u.reconciles[r].snapshot.task in ZOMBIE_STATES + STALE_STATES
             && i < |u.reconciles[r].snapshot.subs| == |u.store.subs|
             && u.reconciles[r].snapshot.subs[i].status.Running? && u.store.subs[i].status.Completed?
    ensures exists actions :: AllAlongside(actions, r) && !KeepsThroughout(t, actions)
  {
    var u := Run(t, before);
    var after := HealActions(u, r, i);
    if KeepsThroughout(t, before + after) {
      ThroughoutConcat(t, before, after);
      ThroughoutKeeps(u, after);
      assert false;
    }
    assert AllAlongside(before + after, r);
  }

  lemma HealActions(u: State, r: nat, i: nat) returns (after: seq<Action>)
    requires u.phase.Idle? && r < |u.reconciles| && u.reconciles[r].stage.Loaded?
    requires u.reconciles[r].snapshot.task in ZOMBIE_STATES + STALE_STATES
    requires i < |u.reconciles[r].snapshot.subs| == |u.store.subs| && u.reconciles[r].snapshot.subs[i].status.Running?
    ensures AllAlongside(after, r)
    ensures var t := Run(u, after); |t.store.subs| == |u.store.subs| && t.store.subs[i].status.Pending?
  {
    var heal := Repeat(ReconcileStep(r), i + 1);
    after := [BeginReconcile(r)] + heal;
    assert after[1..] == heal;
    HealReaches(Step(u, BeginReconcile(r)), r, i);
    RepeatAlongside(r, i + 1);
  }

  /** An active runner can complete its subtask, and the run return. */
  lemma CompletesAndReturns(t: State, w: nat) returns (before: seq<Action>)
    requires t.phase.Driving? && HandsOk(Live(t.store, t.phase.exec))
    requires w < |t.phase.exec.workers| && t.phase.exec.workers[w].place.InRunner?
    ensures forall r :: AllAlongside(before, r)
    ensures var u, id := Run(t, before), t.phase.exec.workers[w].place.item.id;
            u.phase.Idle? && Follows(t, u) && id < |u.store.subs| && u.store.subs[id].status.Completed?
  {
    var l, done := Live(t.store, t.phase.exec), Settle(w, Done(""));
    var m := Step(t, done);
    SettledDone(l, w);
    LiveStepKeeps(l, done);
    var rest := CanReturn(m);
    before := [done] + rest;
    assert before[1..] == rest;
    FollowsOn(t, m, Run(m, rest));
    forall r ensures AllAlongside(before, r) { assert AllAlongside(rest, r); }
  }

  lemma LoadedDriving(s: State)
    requires StateOk(s) && s.phase.Driving?
    ensures var t, r := Step(s, LoadSnapshot), |s.reconciles|;
            && t.store == s.store && t.phase == s.phase && t.reconciles[r] == Reconcile(s.store, true, Loaded)
            && s.store.task in ZOMBIE_STATES + STALE_STATES
  {
  }

  lemma ActiveEndangers(s: State)
    requires StateOk(s) && RunnerActive(s)
    ensures !SafeToLoad(s)
  {
    var r, t, l := |s.reconciles|, Step(s, LoadSnapshot), Live(s.store, s.phase.exec);
    LoadedDriving(s);
    InRunnersBound(l.exec.workers);
    var w :| 0 <= w < |l.exec.workers| && l.exec.workers[w].place.InRunner?;
    var item := l.exec.workers[w].place.item;
    assert ItemOk(l, item, true);
    var before := CompletesAndReturns(t, w);
    assert AllAlongside(before, r);
    Overwritten(t, r, item.id, before);
  }

  lemma SettledDone(l: Live, w: nat)
    requires HandsOk(l) && w < |l.exec.workers| && l.exec.workers[w].place.InRunner?
    ensures var m, id := LiveStep(l, Settle(w, Done(""))), l.exec.workers[w].place.item.id;
            HandsOk(m) && id < |m.store.subs| == |l.store.subs| && m.store.subs[id].status.Completed?
  {
    LiveStepHands(l, Settle(w, Done("")));
    assert ItemOk(l, l.exec.workers[w].place.item, true);
  }

  /** With no other reconcile and no new run until it is through, a reconcile keeps every completed subtask,
      whatever the executor does, exactly if no runner is active when it loads its snapshot. So looking for a
      live run before loading is enough; the source looks only afterwards. */
  lemma SafeExactlyIfQuiet(s: State)
    requires StateOk(s)
    ensures SafeToLoad(s) <==> !RunnerActive(s)
  {
    if RunnerActive(s) {
      ActiveEndangers(s);
    } else {
      LoadedHarmless(s);
      forall actions | AllAlongside(actions, |s.reconciles|) ensures KeepsThroughout(Step(s, LoadSnapshot), actions) {
        RunHarmless(Step(s, LoadSnapshot), |s.reconciles|, actions);
      }
    }
  }
}
