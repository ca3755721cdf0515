/** What holds over whole runs: any interleaving, any crashes, any re-runs and reconciles. */
module TaskRuns {
  import opened TaskModel
  import opened TaskInvariants

  // ---- the state invariant

  /** What a returned run may have done to a subtask: one that was pending ends completed, failed or pending. */
  predicate Ended(before: Subtask, now: Subtask) {
    || now == before
    || (before.status.Pending? && !now.status.Running? && before.attempts <= now.attempts <= before.attempts + 1
        && (now.status.Completed? ==> now.attempts == before.attempts + 1))
  }

  ghost predicate AllEnded(start: seq<Subtask>, subs: seq<Subtask>) {
    |start| == |subs| && forall i :: 0 <= i < |subs| ==> Ended(start[i], subs[i])
  }

  ghost predicate NoneBelow(subs: seq<Subtask>, n: nat, status: Status) {
    n <= |subs| && forall i :: 0 <= i < n ==> subs[i].status != status
  }

  ghost predicate PhaseOk(s: State) {
    var subs := s.store.subs;
    match s.phase
    case Driving(e) => LiveOk(Live(s.store, e))
    case Finalizing(start, stopped, paused, at) =>
      && AllEnded(start, subs) && CountOf(subs, Running) == CountOf(start, Running)
      && at <= |subs| && (!stopped && !paused ==> NoneBelow(subs, at, Pending))
    case Rerunning(_, _, at, _, _) => at <= |subs|
    case Idle(_, _) => true
  }

  /** What reconciles may have done to a subtask. */
  predicate Healable(before: Subtask, now: Subtask) {
    now == before || (before.status.Running? && now == before.(status := Pending))
  }

  ghost predicate Matches(snapshot: Store, store: Store) {
    && |snapshot.subs| == |store.subs|
    && (store.task == snapshot.task || (snapshot.task in ZOMBIE_STATES && store.task.TaskStopped?))
    && forall i :: 0 <= i < |store.subs| ==> Healable(snapshot.subs[i], store.subs[i])
  }

  /** A reconcile that is not outdated has a snapshot of the present but for what reconciles have healed. */
  ghost predicate ReconcileOk(s: State, c: Reconcile) {
    !c.outdated ==>
      && s.phase.Idle? && Matches(c.snapshot, s.store)
      && (c.stage.Healing? ==> s.store.task in STALE_STATES && NoneBelow(s.store.subs, c.stage.at, Running))
      && (c.stage.Over? ==> s.store.task !in ZOMBIE_STATES && CountOf(s.store.subs, Running) == 0)
  }

  ghost predicate ReconcilesOk(s: State) {
    forall r :: 0 <= r < |s.reconciles| ==> ReconcileOk(s, s.reconciles[r])
  }

  ghost predicate StateOk(s: State) {
    (s.store.task.TaskCompleted? ==> CountOf(s.store.subs, Running) == 0) && PhaseOk(s) && ReconcilesOk(s)
  }

  lemma {:induction false} CountZero(subs: seq<Subtask>, status: Status)
    ensures CountOf(subs, status) == 0 <==> NoneBelow(subs, |subs|, status)
  {
    if subs != [] {
      CountZero(subs[1..], status);
      assert forall i :: 0 < i < |subs| ==> subs[i] == subs[1..][i - 1];
      assert forall i :: 0 <= i < |subs[1..]| ==> subs[1..][i] == subs[i + 1];
    }
  }

  ghost predicate SameRunning(start: seq<Subtask>, subs: seq<Subtask>) {
    |start| == |subs| && forall i :: 0 <= i < |subs| ==> subs[i].status.Running? ==> start[i].status.Running?
  }

  /** With equally many running as at the start, they are the same ones. */
  lemma {:induction false} RunningFromStart(start: seq<Subtask>, subs: seq<Subtask>)
    requires AllProgressed(start, subs)
    ensures CountOf(subs, Running) >= CountOf(start, Running)
    ensures CountOf(subs, Running) == CountOf(start, Running) ==> SameRunning(start, subs)
  {
    if subs != [] {
      assert AllProgressed(start[1..], subs[1..]);
      RunningFromStart(start[1..], subs[1..]);
      assert Progressed(start[0], subs[0]);
      if CountOf(subs, Running) == CountOf(start, Running) {
        assert SameRunning(start[1..], subs[1..]);
        forall i | 0 <= i < |subs| && subs[i].status.Running? ensures start[i].status.Running? {
          if i > 0 { assert subs[i] == subs[1..][i - 1] && start[i] == start[1..][i - 1]; }
        }
      }
    }
  }

  lemma MoveOk(store: Store, i: nat, from: Status, to: Status)
    requires i < |store.subs| && from != to
    ensures var subs := Move(store, i, from, to).subs;
            && |subs| == |store.subs| && subs[i].status != from
            && (forall k :: 0 <= k < |subs| && k != i ==> subs[k] == store.subs[k])
            && (!from.Running? && !to.Running? ==> CountOf(subs, Running) == CountOf(store.subs, Running))
  {
    CountUpdate(store.subs, i, store.subs[i].(status := to), Running);
  }

  lemma GatherOk(store: Store, e: Exec)
    requires LiveOk(Live(store, e)) && AllFinished(e.workers)
    ensures AllEnded(e.start, store.subs) && CountOf(store.subs, Running) == CountOf(e.start, Running)
  {
    InRunnersBound(e.workers);
    RunningFromStart(e.start, store.subs);
    forall i | 0 <= i < |store.subs| ensures Ended(e.start[i], store.subs[i]) {
      assert Progressed(e.start[i], store.subs[i]);
    }
  }

  lemma BeginOk(s: State, stop: bool, returned: bool, limit: int, prepares: bool)
    requires s.store.task.TaskCompleted? ==> CountOf(s.store.subs, Running) == 0
    ensures StateOk(Begin(s, stop, returned, limit, prepares))
  {
    if PendingItems(s.store.subs) != [] && (!stop || returned) {
      BeginsOk(s.store, limit, prepares);
    }
  }

  lemma FinalizeStepOk(s: State)
    requires StateOk(s) && s.phase.Finalizing?
    ensures StateOk(Step(s, FinalizeStep))
  {
    var Finalizing(start, stopped, paused, at) := s.phase;
    if at < |s.store.subs| && !stopped && !paused {
      MoveOk(s.store, at, Pending, Failed);
      var subs := Move(s.store, at, Pending, Failed).subs;
      forall i | 0 <= i < |subs| ensures Ended(start[i], subs[i]) { assert Ended(start[i], s.store.subs[i]); }
    }
  }

  lemma RerunStepOk(s: State)
    requires StateOk(s) && s.phase.Rerunning?
    ensures StateOk(Step(s, RerunStep))
  {
    var Rerunning(stop, returned, at, limit, prepares) := s.phase;
    if at < |s.store.subs| { MoveOk(s.store, at, Failed, Pending); } else { BeginOk(s, stop, returned, limit, prepares); }
  }

  lemma DriveStepOk(s: State, a: Action)
    requires StateOk(s) && s.phase.Driving? && !a.Crash? && !IsReconcileAction(a)
    ensures StateOk(Step(s, a))
  {
    var e := s.phase.exec;
    if a.Gather? {
      if AllFinished(e.workers) { GatherOk(s.store, e); }
    } else {
      LiveStepOk(Live(s.store, e), a);
    }
  }

  lemma ExecutorStepOk(s: State, a: Action)
    requires StateOk(s) && !a.Crash? && !IsReconcileAction(a)
    ensures StateOk(Step(s, a))
  {
    match s.phase
    case Driving(_) => DriveStepOk(s, a);
    case Finalizing(_, _, _, _) => if a.FinalizeStep? { FinalizeStepOk(s); }
    case Rerunning(_, _, _, _, _) => if a.RerunStep? { RerunStepOk(s); }
    case Idle(stop, returned) => if a.BeginRun? { BeginOk(s, stop, returned, a.limit, a.prepares); }
  }

  // ---- reconciles that write in time

  /** While the task is live a reconcile does nothing to it. */
  lemma RequestRests(s: State, a: Action)
    requires ReconcilesOk(s) && IsReconcileAction(a) && CarefulStep(s, a) && !s.phase.Idle?
    ensures Step(s, a).store == s.store && Step(s, a).phase == s.phase
  {
  }

  /** A reconcile saves the task as stopped: all that are in time remain so. */
  lemma StoppedOk(s: State, r: nat)
    requires StateOk(s) && r < |s.reconciles| && !s.reconciles[r].outdated && s.reconciles[r].stage.Loaded?
    requires s.reconciles[r].snapshot.task in ZOMBIE_STATES
    ensures StateOk(Reach(s, r, s.store.(task := TaskStopped), Healing(0)))
  {
    var t := Reach(s, r, s.store.(task := TaskStopped), Healing(0));
    assert ReconcileOk(s, s.reconciles[r]) && !s.store.task.TaskCompleted?;
    forall k | 0 <= k < |t.reconciles| ensures ReconcileOk(t, t.reconciles[k]) {
      assert ReconcileOk(s, s.reconciles[k]);
    }
  }

  /** The snapshots that matched still do when one of them heals a subtask. */
  lemma HealMatches(snapshot: Store, other: Store, store: Store, i: nat)
    requires Matches(snapshot, store) && Matches(other, store) && i < |store.subs| && snapshot.subs[i].status.Running?
    ensures Matches(other, store.(subs := store.subs[i := snapshot.subs[i].(status := Pending)]))
  {
    assert Healable(snapshot.subs[i], store.subs[i]) && Healable(other.subs[i], store.subs[i]);
  }

  lemma HealCounts(snapshot: Store, store: Store, i: nat)
    requires Matches(snapshot, store) && i < |store.subs| && snapshot.subs[i].status.Running?
    ensures var subs := store.subs[i := snapshot.subs[i].(status := Pending)];
            && CountOf(subs, Running) <= CountOf(store.subs, Running)
            && forall n :: NoneBelow(store.subs, n, Running) ==> NoneBelow(subs, n, Running)
  {
    CountUpdate(store.subs, i, snapshot.subs[i].(status := Pending), Running);
  }

  lemma HealedOk(s: State, r: nat)
    requires StateOk(s) && r < |s.reconciles| && !s.reconciles[r].outdated && s.reconciles[r].stage.Healing?
    ensures StateOk(Heal(s, r))
  {
    var t, c := Heal(s, r), s.reconciles[r];
    var snapshot, at := c.snapshot, c.stage.at;
    assert ReconcileOk(s, c);
    CountZero(s.store.subs, Running);
    if at < |s.store.subs| {
      assert Healable(snapshot.subs[at], s.store.subs[at]);
      if snapshot.subs[at].status.Running? { HealCounts(snapshot, s.store, at); }
    }
    forall k | 0 <= k < |t.reconciles| ensures ReconcileOk(t, t.reconciles[k]) {
      assert ReconcileOk(s, s.reconciles[k]);
      if !s.reconciles[k].outdated && at < |s.store.subs| && snapshot.subs[at].status.Running? {
        HealMatches(snapshot, s.reconciles[k].snapshot, s.store, at);
      }
    }
  }

  /** A reconcile moves on without writing. */
  lemma UnwrittenOk(s: State, r: nat, stage: Stage)
    requires StateOk(s) && r < |s.reconciles|
    requires ReconcileOk(s, s.reconciles[r].(stage := stage))
    ensures StateOk(Reach(s, r, s.store, stage))
  {
    var t := Reach(s, r, s.store, stage);
    forall k | 0 <= k < |t.reconciles| ensures ReconcileOk(t, t.reconciles[k]) {
      assert ReconcileOk(s, s.reconciles[k]);
    }
  }

  lemma CheckOk(s: State, r: nat)
    requires StateOk(s) && CarefulStep(s, BeginReconcile(r)) && r < |s.reconciles| && s.reconciles[r].stage.Loaded?
    ensures StateOk(CheckLiveness(s, r))
  {
    var c := s.reconciles[r];
    assert ReconcileOk(s, c);
    if c.snapshot.task in ZOMBIE_STATES && s.phase.Idle? {
      StoppedOk(s, r);
    } else {
      UnwrittenOk(s, r, if c.snapshot.task in STALE_STATES then Healing(0) else Over);
    }
  }

  lemma HealStepOk(s: State, r: nat)
    requires StateOk(s) && CarefulStep(s, ReconcileStep(r)) && r < |s.reconciles| && s.reconciles[r].stage.Healing?
    ensures StateOk(Heal(s, r))
  {
    var c := s.reconciles[r];
    if !c.outdated {
      HealedOk(s, r);
    } else {
      UnwrittenOk(s, r, Healing(c.stage.at + 1));
      UnwrittenOk(s, r, Over);
    }
  }

  lemma RequestStepOk(s: State, a: Action)
    requires StateOk(s) && IsReconcileAction(a) && CarefulStep(s, a)
    ensures StateOk(Step(s, a))
  {
    match a
    case LoadSnapshot =>
      var t := Step(s, a);
      forall k | 0 <= k < |t.reconciles| ensures ReconcileOk(t, t.reconciles[k]) {
        if k < |s.reconciles| { assert ReconcileOk(s, s.reconciles[k]); }
      }
    case BeginReconcile(r) => if r < |s.reconciles| && s.reconciles[r].stage.Loaded? { CheckOk(s, r); }
    case ReconcileStep(r) => if r < |s.reconciles| && s.reconciles[r].stage.Healing? { HealStepOk(s, r); }
    case _ =>
  }

  lemma StepOk(s: State, a: Action)
    requires StateOk(s) && CarefulStep(s, a)
    ensures StateOk(Step(s, a))
  {
    if a.Crash? {
    } else if IsReconcileAction(a) {
      RequestStepOk(s, a);
    } else {
      ExecutorStepOk(s, a);
    }
  }

  lemma {:induction false} RunOk(s: State, actions: seq<Action>)
    requires StateOk(s) && Careful(s, actions)
    ensures StateOk(Run(s, actions))
    decreases |actions|
  {
    if actions != [] {
      StepOk(s, actions[0]);
      RunOk(Step(s, actions[0]), actions[1..]);
    }
  }

  // ---- the running count

  /** At every await of every interleaving the subtasks marked running, apart from those a crash left so
      before this run began, are the ones in a runner. There are at most as many as workers, and of these there are as
      many as were pending or as the limit says, at least one, whichever is less. */
  lemma RunningIsActive(s: State, actions: seq<Action>)
    requires StateOk(s) && Careful(s, actions) && Run(s, actions).phase.Driving?
    ensures var t := Run(s, actions);
            var e := t.phase.exec;
            && CountOf(t.store.subs, Running) == CountOf(e.start, Running) + e.active
            && e.active == InRunners(e.workers)
            && 0 <= e.active <= |e.workers|
            && |e.workers| <= CountOf(e.start, Pending) && |e.workers| <= (if e.limit < 1 then 1 else e.limit)
            && (|e.workers| == CountOf(e.start, Pending) || |e.workers| == if e.limit < 1 then 1 else e.limit)
  {
    RunOk(s, actions);
    InRunnersBound(Run(s, actions).phase.exec.workers);
  }

  // ---- completed subtasks

  ghost predicate KeepsCompleted(before: seq<Subtask>, after: seq<Subtask>) {
    |before| == |after| && forall i :: 0 <= i < |before| && before[i].status.Completed? ==> after[i] == before[i]
  }

  lemma LiveStepKeeps(l: Live, a: Action)
    requires HandsOk(l)
    ensures KeepsCompleted(l.store.subs, LiveStep(l, a).store.subs)
  {
    if IsWorkerAction(a) {
      if a.w < |l.exec.workers| { WorkerStepSaves(l, a, a.w); }
    } else {
      HandlerStepParts(l, a);
    }
  }

  lemma ExecutorStepKeeps(s: State, a: Action)
    requires s.phase.Driving? ==> HandsOk(Live(s.store, s.phase.exec))
    requires !IsReconcileAction(a)
    ensures KeepsCompleted(s.store.subs, Step(s, a).store.subs)
  {
    if s.phase.Driving? && !a.Crash? && !a.Gather? { LiveStepKeeps(Live(s.store, s.phase.exec), a); }
  }

  lemma RequestStepKeeps(s: State, a: Action)
    requires StateOk(s) && CarefulStep(s, a) && IsReconcileAction(a)
    ensures KeepsCompleted(s.store.subs, Step(s, a).store.subs)
  {
    if Writes(s, a) && a.ReconcileStep? {
      var c := s.reconciles[a.r];
      assert ReconcileOk(s, c);
      if c.stage.at < |s.store.subs| { assert Healable(c.snapshot.subs[c.stage.at], s.store.subs[c.stage.at]); }
    }
  }

  /** Over any run - steps, crashes at any write, re-runs, and reconciles that write in time - a completed
      subtask is never run again and what it stored never changes. */
  lemma {:induction false} CompletedIsFinal(s: State, actions: seq<Action>)
    requires StateOk(s) && Careful(s, actions)
    ensures KeepsCompleted(s.store.subs, Run(s, actions).store.subs)
    decreases |actions|
  {
    if actions != [] {
      StepOk(s, actions[0]);
      if IsReconcileAction(actions[0]) { RequestStepKeeps(s, actions[0]); } else { ExecutorStepKeeps(s, actions[0]); }
      CompletedIsFinal(Step(s, actions[0]), actions[1..]);
    }
  }

  // ---- reconciling

  /** After any history in which reconciles write in time, one that has finished and is still in time leaves
      nothing marked running and no transient status, even if earlier ones crashed half way. */
  lemma ReconcileHeals(s: State, history: seq<Action>, r: nat)
    requires StateOk(s) && Careful(s, history) && r < |Run(s, history).reconciles|
    requires Run(s, history).reconciles[r].stage.Over? && !Run(s, history).reconciles[r].outdated
    ensures var t := Run(s, history);
            && CountOf(t.store.subs, Running) == 0 && t.store.task !in ZOMBIE_STATES
            && Matches(t.reconciles[r].snapshot, t.store)
  {
    RunOk(s, history);
    assert ReconcileOk(Run(s, history), Run(s, history).reconciles[r]);
  }

  /** What is left to do for a reconcile that has passed its check. */
  function HealFrom(snapshot: seq<Subtask>, subs: seq<Subtask>, at: nat): seq<Subtask>
    decreases |snapshot| - at
  {
    if at >= |snapshot| || at >= |subs| then subs
    else if snapshot[at].status.Running? then HealFrom(snapshot, subs[at := snapshot[at].(status := Pending)], at + 1)
    else HealFrom(snapshot, subs, at + 1)
  }

  /** The steps of one reconcile with nothing in between. */
  lemma {:induction false} HealRuns(s: State, r: nat)
    requires r < |s.reconciles| && s.reconciles[r].stage.Healing?
    requires s.reconciles[r].stage.at <= |s.reconciles[r].snapshot.subs| == |s.store.subs|
    ensures var c := s.reconciles[r];
            var u := Run(s, Repeat(ReconcileStep(r), |s.store.subs| - c.stage.at + 1));
            && u.store == s.store.(subs := HealFrom(c.snapshot.subs, s.store.subs, c.stage.at))
            && u.phase == s.phase && u.reconciles == s.reconciles[r := c.(stage := Over)]
    decreases |s.store.subs| - s.reconciles[r].stage.at
  {
    var c, n := s.reconciles[r], |s.store.subs| - s.reconciles[r].stage.at + 1;
    RepeatRun(s, ReconcileStep(r), n);
    var t := Step(s, ReconcileStep(r));
    if c.stage.at < |s.store.subs| {
      HealRuns(t, r);
      assert t.reconciles[r := c.(stage := Over)] == s.reconciles[r := c.(stage := Over)];
    } else {
      RepeatRun(t, ReconcileStep(r), 0);
    }
  }

  // ---- one run, from its first await to its return

  /** The actions belong to one run: no crash, only the last may make it return, and reconciles write in time. */
  ghost predicate OneRun(s: State, actions: seq<Action>)
    decreases |actions|
  {
    actions == [] ||
    (!s.phase.Idle? && !actions[0].Crash? && CarefulStep(s, actions[0]) && OneRun(Step(s, actions[0]), actions[1..]))
  }

  predicate InRun(s: State) {
    s.phase.Driving? || s.phase.Finalizing?
  }

  function StartOf(s: State): seq<Subtask>
    requires InRun(s)
  {
    if s.phase.Driving? then s.phase.exec.start else s.phase.start
  }

  lemma RunStepStart(s: State, a: Action)
    requires StateOk(s) && InRun(s) && !a.Crash? && CarefulStep(s, a)
    ensures Step(s, a).phase.Idle? || (InRun(Step(s, a)) && StartOf(Step(s, a)) == StartOf(s))
  {
    if IsReconcileAction(a) { RequestRests(s, a); }
    else if s.phase.Driving? && !a.Gather? { LiveStepStart(Live(s.store, s.phase.exec), a); }
  }

  /** What a run that began on `start` leaves when it returns. */
  ghost predicate Returns(start: seq<Subtask>, u: State) {
    && u.phase.Idle? && u.phase.returned
    && AllEnded(start, u.store.subs) && CountOf(u.store.subs, Running) == CountOf(start, Running)
    && (u.phase.stop ==> u.store.task.TaskStopped?)
    && (CountOf(u.store.subs, Pending) > 0 ==> u.store.task.TaskStopped? || u.store.task.TaskPaused?)
  }

  lemma ReturnStep(s: State, a: Action)
    requires StateOk(s) && InRun(s) && !a.Crash? && CarefulStep(s, a) && Step(s, a).phase.Idle?
    ensures Returns(StartOf(s), Step(s, a))
  {
    if IsReconcileAction(a) { RequestRests(s, a); }
    CountZero(s.store.subs, Pending);
  }

  lemma {:induction false} RunReturns(s: State, actions: seq<Action>)
    requires StateOk(s) && InRun(s) && OneRun(s, actions) && Run(s, actions).phase.Idle?
    ensures Returns(StartOf(s), Run(s, actions))
    decreases |actions|
  {
    var t := Step(s, actions[0]);
    StepOk(s, actions[0]);
    RunStepStart(s, actions[0]);
    if t.phase.Idle? {
      ReturnStep(s, actions[0]);
      assert actions[1..] == [];
    } else {
      RunReturns(t, actions[1..]);
    }
  }

  /** Every run, however it is interleaved with stop and pause requests, leaves marked running only what
      was so before, and each subtask that began pending completed, failed or pending, started at most
      once. Nothing stays pending unless the task is stopped or paused. */
  lemma RunOutcome(s: State, limit: int, prepares: bool, actions: seq<Action>)
    requires StateOk(s) && s.phase.Idle?
    requires var t := Step(s, BeginRun(limit, prepares)); OneRun(t, actions) && Run(t, actions).phase.Idle?
    ensures Returns(s.store.subs, Run(Step(s, BeginRun(limit, prepares)), actions))
  {
    var t := Step(s, BeginRun(limit, prepares));
    StepOk(s, BeginRun(limit, prepares));
    assert InRun(t) && StartOf(t) == s.store.subs;
    RunReturns(t, actions);
  }

  // ---- stop

  predicate Stopping(s: State) {
    (s.phase.Driving? && s.phase.exec.stop) || (s.phase.Finalizing? && s.phase.stopped)
  }

  ghost predicate KeepsPending(before: seq<Subtask>, after: seq<Subtask>) {
    |before| == |after| && forall i :: 0 <= i < |before| && before[i].status.Pending? ==> after[i] == before[i]
  }

  lemma StopStays(l: Live, a: Action)
    requires HandsOk(l) && l.exec.stop
    ensures LiveStep(l, a).exec.stop
  {
    if IsWorkerAction(a) && a.w < |l.exec.workers| { WorkerStepStart(l, a, a.w); }
  }

  lemma StoppedLiveStep(l: Live, a: Action)
    requires LiveOk(l) && l.exec.stop
    ensures KeepsPending(l.store.subs, LiveStep(l, a).store.subs) && LiveStep(l, a).exec.stop
  {
    StopStays(l, a);
    if IsWorkerAction(a) {
      if a.w < |l.exec.workers| { WorkerStepSaves(l, a, a.w); }
    } else {
      HandlerStepParts(l, a);
    }
  }

  lemma StoppingStep(s: State, a: Action)
    requires StateOk(s) && Stopping(s) && !a.Crash? && CarefulStep(s, a)
    ensures KeepsPending(s.store.subs, Step(s, a).store.subs)
    ensures Stopping(Step(s, a)) || (Step(s, a).phase.Idle? && Step(s, a).store.task.TaskStopped?)
  {
    if IsReconcileAction(a) { RequestRests(s, a); }
    else if s.phase.Driving? && !a.Gather? { StoppedLiveStep(Live(s.store, s.phase.exec), a); }
  }

  /** Once stop is requested nothing pending is started or otherwise touched, whatever pausing, limiting,
      pacing and preparing is under way; and when the run returns the task is stopped, even if it was to
      pause as well. */
  lemma {:induction false} StopIsSafe(s: State, actions: seq<Action>)
    requires StateOk(s) && Stopping(s) && OneRun(s, actions)
    ensures KeepsPending(s.store.subs, Run(s, actions).store.subs)
    ensures Run(s, actions).phase.Idle? ==> Run(s, actions).store.task.TaskStopped?
    decreases |actions|
  {
    if actions != [] {
      StepOk(s, actions[0]);
      StoppingStep(s, actions[0]);
      if Step(s, actions[0]).phase.Idle? {
        assert actions[1..] == [];
      } else {
        StopIsSafe(Step(s, actions[0]), actions[1..]);
      }
    }
  }

  // ---- pause

  lemma QuietWorkerStep(l: Live, a: Action, w: nat)
    requires LiveOk(l) && l.exec.observed && w < |l.exec.workers|
    ensures WorkerStep(l, a, w).store.subs == l.store.subs && WorkerStep(l, a, w).exec.observed
  {
    WorkerStepSaves(l, a, w);
    WorkerStepStart(l, a, w);
    assert Quiet(l.exec);
  }

  lemma QuietLiveStep(l: Live, a: Action)
    requires LiveOk(l) && l.exec.observed
    ensures LiveStep(l, a).store.subs == l.store.subs && LiveStep(l, a).exec.observed
  {
    if IsWorkerAction(a) {
      if a.w < |l.exec.workers| { QuietWorkerStep(l, a, a.w); }
    } else {
      HandlerStepParts(l, a);
    }
  }

  predicate PauseSeen(s: State) {
    (s.phase.Driving? && s.phase.exec.observed) || (s.phase.Finalizing? && (s.phase.paused || s.phase.stopped))
  }

  /** Nothing has been started since; no runner is active; and the task that returns is paused or stopped. */
  ghost predicate StillPaused(s: State, t: State) {
    && t.store.subs == s.store.subs
    && (t.phase.Driving? ==> t.phase.exec.active == 0 && InRunners(t.phase.exec.workers) == 0)
    && (t.phase.Idle? ==> t.store.task.TaskPaused? || t.store.task.TaskStopped?)
  }

  lemma PausedStep(s: State, a: Action)
    requires StateOk(s) && PauseSeen(s) && !a.Crash? && CarefulStep(s, a)
    ensures Step(s, a).store.subs == s.store.subs
    ensures if Step(s, a).phase.Idle? then Step(s, a).store.task.TaskPaused? || Step(s, a).store.task.TaskStopped?
            else PauseSeen(Step(s, a))
  {
    if IsReconcileAction(a) { RequestRests(s, a); }
    else if s.phase.Driving? && !a.Gather? { QuietLiveStep(Live(s.store, s.phase.exec), a); }
  }

  /** From the moment the task is paused no runner is active and none starts, at any point until the run
      returns, which it does paused or, if stop was requested meanwhile, stopped. */
  lemma {:induction false} PausedIsQuiet(s: State, actions: seq<Action>)
    requires StateOk(s) && OneRun(s, actions) && PauseSeen(s)
    ensures StillPaused(s, Run(s, actions))
    decreases |actions|
  {
    if actions != [] {
      StepOk(s, actions[0]);
      PausedStep(s, actions[0]);
      if Step(s, actions[0]).phase.Idle? {
        assert actions[1..] == [];
      } else {
        PausedIsQuiet(Step(s, actions[0]), actions[1..]);
      }
    }
  }

  /** The stored status says so: a task that reads paused during a run has been observed to be quiet. */
  lemma PausedMeansObserved(s: State, actions: seq<Action>)
    requires StateOk(s) && Careful(s, actions) && Run(s, actions).phase.Driving? && Run(s, actions).store.task.TaskPaused?
    ensures Run(s, actions).phase.exec.observed && Run(s, actions).phase.exec.active == 0
  {
    RunOk(s, actions);
  }
}
