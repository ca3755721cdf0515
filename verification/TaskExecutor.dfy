/** The executor as an object: each method is one region between awaits of transoria/runtime/executor.py, or
    one of its loops, and does to the fields exactly what the transition system says. */
module TaskExecutor {
  import Lists
  import opened TaskInvariants
  import opened TaskModel
  import opened TaskRuns

  class TaskCache {
    var subs: seq<Subtask>
    var task: TaskStatus

    constructor (subs: seq<Subtask>, task: TaskStatus)
      ensures Contents() == Store(subs, task)
    {
      this.subs, this.task := subs, task;
    }

    function Contents(): Store
      reads this
    {
      Store(subs, task)
    }

    method SaveSubtask(id: nat, subtask: Subtask)
      requires id < |subs|
      modifies this
      ensures Contents() == old(Contents()).(subs := old(subs)[id := subtask])
    {
      subs := subs[id := subtask];
    }

    /** `_update_record_status`. */
    method SaveStatus(status: TaskStatus)
      modifies this
      ensures Contents() == old(Contents()).(task := status)
    {
      if task != status { task := status; }
    }
  }

  // ---- the sequential parts, one write at a time

  /** Every subtask from `i` on that is `from` becomes `to`. */
  function MoveFrom(store: Store, i: nat, from: Status, to: Status): Store
    decreases |store.subs| - i
  {
    if i >= |store.subs| then store else MoveFrom(Move(store, i, from, to), i + 1, from, to)
  }

  lemma {:induction false} FinalizeRuns(store: Store, start: seq<Subtask>, i: nat)
    requires i <= |store.subs|
    ensures var end := MoveFrom(store, i, Pending, Failed);
            Run(State(store, Finalizing(start, false, false, i), []), Repeat(FinalizeStep, |store.subs| - i + 1))
            == State(end.(task := FinalTask(end, false, false)), Idle(false, true), [])
    decreases |store.subs| - i
  {
    var s := State(store, Finalizing(start, false, false, i), []);
    RepeatRun(s, FinalizeStep, |store.subs| - i + 1);
    if i < |store.subs| { FinalizeRuns(Move(store, i, Pending, Failed), start, i + 1); }
  }

  lemma {:induction false} RerunRuns(store: Store, stop: bool, returned: bool, i: nat, limit: int, prepares: bool)
    requires i <= |store.subs|
    ensures Run(State(store, Rerunning(stop, returned, i, limit, prepares), []), Repeat(RerunStep, |store.subs| - i + 1))
            == Begin(State(MoveFrom(store, i, Failed, Pending), Idle(stop, returned), []), stop, returned, limit, prepares)
    decreases |store.subs| - i
  {
    var s := State(store, Rerunning(stop, returned, i, limit, prepares), []);
    RepeatRun(s, RerunStep, |store.subs| - i + 1);
    if i < |store.subs| { RerunRuns(Move(store, i, Failed, Pending), stop, returned, i + 1, limit, prepares); }
  }

  /** The loop that `_finalize` and `rerun_failed` share. */
  method MoveEach(cache: TaskCache, from: Status, to: Status)
    modifies cache
    ensures cache.Contents() == MoveFrom(old(cache.Contents()), 0, from, to)
  {
    var i := 0;
    while i < |cache.subs|
      invariant 0 <= i <= |cache.subs| == |old(cache.subs)|
      invariant MoveFrom(cache.Contents(), i, from, to) == MoveFrom(old(cache.Contents()), 0, from, to)
    {
      var subtask := cache.subs[i];
      if subtask.status == from { cache.SaveSubtask(i, subtask.(status := to)); }
      i := i + 1;
    }
  }

  /** `_finalize`, from its first write to its last. */
  method Finalize(cache: TaskCache, ghost start: seq<Subtask>, stopped: bool, paused: bool)
    modifies cache
    ensures var n := if stopped || paused then 0 else |old(cache.subs)|;
            Run(State(old(cache.Contents()), Finalizing(start, stopped, paused, 0), []), Repeat(FinalizeStep, n + 1))
            == State(cache.Contents(), Idle(stopped, true), [])
  {
    if stopped || paused {
      ghost var s := State(cache.Contents(), Finalizing(start, stopped, paused, 0), []);
      RepeatRun(s, FinalizeStep, 1);
      RepeatRun(Step(s, FinalizeStep), FinalizeStep, 0);
      cache.SaveStatus(if stopped then TaskStopped else TaskPaused);
    } else {
      FinalizeRuns(cache.Contents(), start, 0);
      MoveEach(cache, Pending, Failed);
      WriteFinal(cache);
    }
  }

  method WriteFinal(cache: TaskCache)
    modifies cache
    ensures cache.Contents() == old(cache.Contents()).(task := FinalTask(old(cache.Contents()), false, false))
  {
    var failed, pending, running :=
      CountOf(cache.subs, Failed), CountOf(cache.subs, Pending), CountOf(cache.subs, Running);
    if failed > 0 && pending == 0 && running == 0 { cache.SaveStatus(TaskFailed); }
    else if pending == 0 && running == 0 && failed == 0 { cache.SaveStatus(TaskCompleted); }
  }

  /** `rerun_failed`, up to the run it starts. */
  method ResetFailed(cache: TaskCache, ghost stop: bool, ghost returned: bool, limit: int, prepares: bool)
    modifies cache
    ensures Run(State(old(cache.Contents()), Rerunning(stop, returned, 0, limit, prepares), []),
                Repeat(RerunStep, |old(cache.subs)| + 1))
            == Begin(State(cache.Contents(), Idle(stop, returned), []), stop, returned, limit, prepares)
  {
    RerunRuns(cache.Contents(), stop, returned, 0, limit, prepares);
    MoveEach(cache, Failed, Pending);
  }

  /** The healing loop of both reconciles: it writes from the snapshot, whatever the store holds by now. */
  method HealEach(cache: TaskCache, snapshot: Store)
    requires |snapshot.subs| == |cache.subs|
    modifies cache
    ensures cache.Contents() == old(cache.Contents()).(subs := HealFrom(snapshot.subs, old(cache.subs), 0))
  {
    var i := 0;
    while i < |snapshot.subs|
      invariant 0 <= i <= |snapshot.subs| == |cache.subs| && cache.task == old(cache.task)
      invariant HealFrom(snapshot.subs, cache.subs, i) == HealFrom(snapshot.subs, old(cache.subs), 0)
    {
      var subtask := snapshot.subs[i];
      if subtask.status == Running { cache.SaveSubtask(i, subtask.(status := Pending)); }
      i := i + 1;
    }
  }

  /** All steps of reconcile `r` in a row, from its check on. */
  function Reconciled(s: State, r: nat): State
    requires r < |s.reconciles|
  {
    Run(Step(s, BeginReconcile(r)), Repeat(ReconcileStep(r), |s.store.subs| + 1))
  }

  lemma {:induction false} OverRests(s: State, r: nat, n: nat)
    requires r < |s.reconciles| && s.reconciles[r].stage.Over?
    ensures Run(s, Repeat(ReconcileStep(r), n)) == s
  {
    RepeatRun(s, ReconcileStep(r), n);
    if n > 0 { OverRests(s, r, n - 1); }
  }

  lemma ReconciledStore(s: State, r: nat)
    requires r < |s.reconciles| && s.reconciles[r].stage.Loaded? && |s.reconciles[r].snapshot.subs| == |s.store.subs|
    ensures var snapshot := s.reconciles[r].snapshot;
            var healed := HealFrom(snapshot.subs, s.store.subs, 0);
            Reconciled(s, r).store ==
              if snapshot.task in ZOMBIE_STATES then (if s.phase.Idle? then Store(healed, TaskStopped) else s.store)
              else if snapshot.task in STALE_STATES then s.store.(subs := healed) else s.store
  {
    var t := Step(s, BeginReconcile(r));
    if t.reconciles[r].stage.Over? { OverRests(t, r, |s.store.subs| + 1); } else { HealRuns(t, r); }
  }

  /** `_reconcile_zombie` on a snapshot loaded earlier, `live` being what the registry says now: the status
      first, then the subtasks one by one. */
  method ReconcileZombie(cache: TaskCache, snapshot: Store, live: bool, ghost s: State, ghost r: nat)
    requires |snapshot.subs| == |cache.subs|
    requires s.store == cache.Contents() && live == !s.phase.Idle? && r < |s.reconciles|
    requires s.reconciles[r].snapshot == snapshot && s.reconciles[r].stage.Loaded?
    modifies cache
    ensures cache.Contents() == Reconciled(s, r).store
  {
    ReconciledStore(s, r);
    if snapshot.task in ZOMBIE_STATES {
      if !live {
        cache.SaveStatus(TaskStopped);
        HealEach(cache, snapshot);
      }
    } else if snapshot.task in STALE_STATES {
      HealEach(cache, snapshot);
    }
  }

  // ---- the executor while it drives

  class Executor {
    const cache: TaskCache
    const limit: int
    const prepares: bool
    ghost const start: seq<Subtask>
    var stop: bool
    var pause: bool
    var gateOpen: bool
    var observed: bool
    var active: int
    var queue: seq<Item>
    var workers: seq<Worker>
    var stopHandler: StopHandler
    var pauseHandler: PauseHandler

    /** `run`, up to its first await, when there is something pending and no stop request. */
    constructor (cache: TaskCache, limit: int, prepares: bool)
      requires PendingItems(cache.subs) != []
      modifies cache
      ensures this.cache == cache
      ensures View() == Live(old(cache.Contents()).(task := TaskRunning), NewExec(old(cache.subs), limit, prepares))
    {
      var pending: seq<Item>, i := [], 0;
      assert cache.subs[0..] == cache.subs;
      while i < |cache.subs|
        invariant 0 <= i <= |cache.subs| && cache.Contents() == old(cache.Contents())
        invariant pending + PendingItems(cache.subs, i) == PendingItems(cache.subs)
      {
        var rest := PendingItems(cache.subs, i + 1);
        if cache.subs[i].status.Pending? {
          Lists.Assoc(pending, [Item(i, cache.subs[i])], rest);
          pending := pending + [Item(i, cache.subs[i])];
        } else {
          assert PendingItems(cache.subs, i) == rest;
        }
        i := i + 1;
      }
      assert PendingItems(cache.subs, |cache.subs|) == [] && pending + [] == pending;
      this.cache, this.limit, this.prepares, this.start := cache, limit, prepares, cache.subs;
      stop, pause, gateOpen, observed, active := false, false, true, false, 0;
      stopHandler, pauseHandler := StopWaiting, PauseWaiting;
      queue := pending;
      var count := WorkerCount(limit, |pending|);
      workers := seq(if count < 0 then 0 else count, _ => Worker(AtLoop, false));
      new;
      cache.SaveStatus(TaskRunning);
    }

    ghost function View(): Live
      reads this, cache
    {
      Live(cache.Contents(),
           Exec(start, limit, prepares, stop, pause, gateOpen, observed, active, queue, workers, stopHandler, pauseHandler))
    }

    method Place(w: nat, place: Place)
      requires w < |workers|
      modifies this
      ensures View() == Put(old(View()), w, place)
    {
      workers := workers[w := workers[w].(place := place)];
    }

    method RequestStop()
      modifies this
      ensures View() == LiveStep(old(View()), Action.RequestStop)
    {
      stop := true;
      gateOpen := true;
    }

    method RequestPause()
      modifies this
      ensures View() == LiveStep(old(View()), Action.RequestPause)
    {
      pause := true;
      gateOpen := false;
    }

    /** The head of `_worker_loop`. */
    method Next(w: nat)
      requires w < |workers| && workers[w] == Worker(AtLoop, false)
      modifies this
      ensures View() == LiveStep(old(View()), Take(w))
    {
      if stop || queue == [] {
        Place(w, Finished);
      } else {
        var item := queue[0];
        queue := queue[1..];
        Place(w, AtGate(item));
      }
    }

    method LeaveGate(w: nat)
      requires w < |workers| && workers[w].place.AtGate? && !workers[w].cancelled && (gateOpen || stop)
      modifies this
      ensures View() == LiveStep(old(View()), PassGate(w))
    {
      if stop { Place(w, AtLoop); } else { Place(w, AtLimiter(workers[w].place.item)); }
    }

    method LeaveLimiter(w: nat)
      requires w < |workers| && workers[w].place.AtLimiter? && !workers[w].cancelled
      modifies this
      ensures View() == LiveStep(old(View()), PassLimiter(w))
    {
      if stop { Place(w, AtLoop); } else { Place(w, AtPacing(workers[w].place.item)); }
    }

    method LeavePacing(w: nat)
      requires w < |workers| && workers[w].place.AtPacing? && !workers[w].cancelled
      requires workers[w].place.item.id < |cache.subs|
      modifies this, cache
      ensures View() == LiveStep(old(View()), PassPacing(w))
    {
      var item := workers[w].place.item;
      if stop { Place(w, AtLoop); }
      else if prepares { Place(w, AtPrepare(item)); }
      else { Launch(w, item); }
    }

    method LeavePrepare(w: nat)
      requires w < |workers| && workers[w].place.AtPrepare? && !workers[w].cancelled
      requires workers[w].place.item.id < |cache.subs|
      modifies this, cache
      ensures View() == LiveStep(old(View()), PassPrepare(w))
    {
      if stop || pause { Place(w, AtLoop); } else { Launch(w, workers[w].place.item); }
    }

    /** `_execute_one` from saving the subtask as running to awaiting its runner. */
    method Launch(w: nat, item: Item)
      requires w < |workers| && item.id < |cache.subs|
      modifies this, cache
      ensures View() == TaskModel.Launch(old(View()), w, item)
    {
      cache.SaveSubtask(item.id, item.subtask.(status := Running, attempts := item.subtask.attempts + 1));
      active := active + 1;
      Place(w, InRunner(item));
    }

    /** `_execute_one` once its runner has returned, failed or been cancelled. */
    method Finish(w: nat, outcome: Outcome)
      requires w < |workers| && workers[w].place.InRunner? && workers[w].place.item.id < |cache.subs|
      modifies this, cache
      ensures View() == LiveStep(old(View()), Settle(w, outcome))
    {
      var item := workers[w].place.item;
      var running := item.subtask.(status := Running, attempts := item.subtask.attempts + 1);
      match outcome {
        case Aborted =>
          cache.SaveSubtask(item.id, running.(status := Pending));
        case Error(kept) =>
          var response := if kept.Some? then kept.value else running.response;
          cache.SaveSubtask(item.id, running.(status := Failed, response := response));
        case Done(response) =>
          cache.SaveSubtask(item.id, running.(status := Completed, response := response));
      }
      active := active - 1;
      Place(w, if outcome.Aborted? then Finished else AtLoop);
    }

    /** The cancelling loop of both handlers. */
    method CancelEach()
      modifies this
      ensures View() == old(View()).(exec := old(View()).exec.(workers := CancelAll(old(workers))))
    {
      var i := 0;
      while i < |workers|
        invariant 0 <= i <= |workers| == |old(workers)|
        invariant forall w :: 0 <= w < |workers| ==>
                    workers[w] == if w < i then CancelAll(old(workers))[w] else old(workers)[w]
        invariant View() == old(View()).(exec := old(View()).exec.(workers := workers))
      {
        if !workers[i].place.Finished? { workers := workers[i := workers[i].(cancelled := true)]; }
        i := i + 1;
      }
      assert workers == CancelAll(old(workers));
    }

    method HandleStop()
      requires stop && stopHandler.StopWaiting?
      modifies this, cache
      ensures View() == LiveStep(old(View()), NoticeStop)
    {
      cache.SaveStatus(TaskStopping);
      stopHandler := StopDraining;
    }

    /** The drain is over, or its time is up. */
    method EndDrain()
      requires stopHandler.StopDraining?
      modifies this
      ensures View() == LiveStep(old(View()), CancelWorkers)
    {
      CancelEach();
      stopHandler := StopHandled;
    }

    method HandlePause()
      requires pause && pauseHandler.PauseWaiting?
      modifies this, cache
      ensures View() == LiveStep(old(View()), NoticePause)
    {
      if stop {
        pauseHandler := PauseHandled;
      } else {
        cache.SaveStatus(TaskPausing);
        pauseHandler := PauseNoticed;
      }
    }

    /** One round of the loop in `_handle_pause`. */
    method PollPause()
      requires pauseHandler.PauseNoticed? || pauseHandler.PauseDraining?
      modifies this, cache
      ensures View() == LiveStep(old(View()), Action.PollPause)
    {
      if pauseHandler.PauseDraining? && stop {
        pauseHandler := PauseHandled;
      } else if active > 0 || active < 0 {
        pauseHandler := PauseDraining;
      } else {
        cache.SaveStatus(TaskPaused);
        observed := true;
        CancelEach();
        pauseHandler := PauseHandled;
      }
    }

    /** Worker `w` gets to run: whatever it waits at, it moves on if it can. */
    method Work(a: Action)
      requires IsWorkerAction(a) && LiveOk(View())
      modifies this, cache
      ensures View() == LiveStep(old(View()), a)
    {
      if a.w < |workers| {
        ItemInStore(a.w);
        if a.DeliverCancel? { Cancelled(a.w); }
        else if a.Settle? { if workers[a.w].place.InRunner? { Finish(a.w, a.outcome); } }
        else if !workers[a.w].cancelled { WorkOn(a); }
      }
    }

    lemma ItemInStore(w: nat)
      requires w < |workers| && LiveOk(View())
      ensures Holds(workers[w].place) ==> workers[w].place.item.id < |cache.subs|
    {
      if Holds(workers[w].place) { assert ItemOk(View(), workers[w].place.item, workers[w].place.InRunner?); }
    }

    method WorkOn(a: Action)
      requires IsWorkerAction(a) && !a.DeliverCancel? && !a.Settle? && a.w < |workers| && !workers[a.w].cancelled
      requires Holds(workers[a.w].place) ==> workers[a.w].place.item.id < |cache.subs|
      modifies this, cache
      ensures View() == LiveStep(old(View()), a)
    {
      var place := workers[a.w].place;
      if a.Take? && place.AtLoop? { Next(a.w); }
      else if a.PassGate? && place.AtGate? && (gateOpen || stop) { LeaveGate(a.w); }
      else if a.PassLimiter? && place.AtLimiter? { LeaveLimiter(a.w); }
      else if a.PassPacing? && place.AtPacing? { LeavePacing(a.w); }
      else if a.PassPrepare? && place.AtPrepare? { LeavePrepare(a.w); }
      else if a.PrepareFails? && place.AtPrepare? { Place(a.w, Finished); }
    }

    /** The cancellation is raised at the worker's await: in front of the runner the worker swallows it. */
    method Cancelled(w: nat)
      requires w < |workers|
      modifies this
      ensures View() == LiveStep(old(View()), DeliverCancel(w))
    {
      if workers[w].cancelled {
        var place := workers[w].place;
        if place.AtLoop? { workers := workers[w := Worker(Finished, false)]; }
        else if !place.Finished? && !place.InRunner? { workers := workers[w := Worker(AtLoop, false)]; }
      }
    }

    /** A handler, or a request from another thread, gets to run. */
    method Handle(a: Action)
      requires !IsWorkerAction(a)
      modifies this, cache
      ensures View() == LiveStep(old(View()), a)
    {
      match a {
        case RequestStop => RequestStop();
        case RequestPause => RequestPause();
        case NoticeStop => if stop && stopHandler.StopWaiting? { HandleStop(); }
        case CancelWorkers => if stopHandler.StopDraining? { EndDrain(); }
        case NoticePause => if pause && pauseHandler.PauseWaiting? { HandlePause(); }
        case PollPause => if pauseHandler.PauseNoticed? || pauseHandler.PauseDraining? { PollPause(); }
        case _ =>
      }
    }

    /** The event loop, on any schedule. At its end, and so after every prefix of it, the invariant holds, and the
        counter is the number of runners and of newly running subtasks, at most min(max(1, limit), pending). */
    method Drive(schedule: seq<Action>)
      requires LiveOk(View())
      modifies this, cache
      ensures View() == LiveRun(old(View()), schedule) && LiveOk(View())
      ensures CountOf(cache.subs, Running) == CountOf(start, Running) + active && active == InRunners(workers)
      ensures 0 <= active <= CountOf(start, Pending) && active <= (if limit < 1 then 1 else limit)
    {
      var i := 0;
      assert schedule[0..] == schedule;
      while i < |schedule|
        invariant 0 <= i <= |schedule| && LiveOk(View())
        invariant LiveRun(View(), schedule[i..]) == LiveRun(old(View()), schedule)
      {
        LiveStepOk(View(), schedule[i]);
        assert schedule[i..][0] == schedule[i] && schedule[i..][1..] == schedule[i + 1..];
        if IsWorkerAction(schedule[i]) { Work(schedule[i]); } else { Handle(schedule[i]); }
        i := i + 1;
      }
      InRunnersBound(workers);
    }
  }

  function LiveRun(l: Live, schedule: seq<Action>): Live
    decreases |schedule|
  {
    if schedule == [] then l else LiveRun(LiveStep(l, schedule[0]), schedule[1..])
  }
}
