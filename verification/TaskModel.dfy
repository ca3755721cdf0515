/** The task executor (transoria/runtime/executor.py) with crash recovery (transoria/bridge/task_service.py)
    as one transition system over the persisted subtask store.

    A step is what one coroutine does between two awaits, cut further wherever it writes to the store, so a
    `Crash` may fall between any two writes. A step that is not enabled changes nothing, so a run is any
    list of actions. Interleavings between points without an await are admitted too; there are only more of them.
    Reconciles run in the threads of requests, any number of them alongside the executor: each loads a snapshot,
    looks whether the task is live, and writes from the snapshot, one subtask at a time. */
module TaskModel {
  import opened TextRules

  datatype Status = Pending | Running | Completed | Failed

  /** `response` stands for everything a finished request stores: content, token counts and route. */
  datatype Subtask = Subtask(status: Status, attempts: nat, response: string)

  datatype TaskStatus =
    | TaskPending | TaskRunning | TaskPausing | TaskPaused | TaskStopping | TaskStopped | TaskCompleted | TaskFailed

  /** What survives a crash. A subtask's id is its index. */
  datatype Store = Store(subs: seq<Subtask>, task: TaskStatus)

  /** A queued subtask, as it was loaded when the run began. */
  datatype Item = Item(id: nat, subtask: Subtask)

  datatype Place =
    | AtLoop
    | AtGate(item: Item)
    | AtLimiter(item: Item)
    | AtPacing(item: Item)
    | AtPrepare(item: Item)
    | InRunner(item: Item)
    | Finished

  /** `cancelled`: a cancellation will be raised at the worker's await. */
  datatype Worker = Worker(place: Place, cancelled: bool)

  datatype StopHandler = StopWaiting | StopDraining | StopHandled
  datatype PauseHandler = PauseWaiting | PauseNoticed | PauseDraining | PauseHandled

  /** A run in progress. `start` is the store's content when it began. */
  datatype Exec = Exec(
    start: seq<Subtask>, limit: int, prepares: bool,
    stop: bool, pause: bool, gateOpen: bool, observed: bool, active: int,
    queue: seq<Item>, workers: seq<Worker>, stopHandler: StopHandler, pauseHandler: PauseHandler)

  datatype Live = Live(store: Store, exec: Exec)

  /** What the executor's thread is doing. While it is not idle the registry knows the task as live. */
  datatype Phase =
    | Idle(stop: bool, returned: bool)
    | Rerunning(stop: bool, returned: bool, at: nat, limit: int, prepares: bool)
    | Driving(exec: Exec)
    | Finalizing(start: seq<Subtask>, stopped: bool, paused: bool, at: nat)

  datatype Stage = Loaded | Healing(at: nat) | Over

  /** A reconcile in some request's thread: it loads a snapshot, then looks whether the task is live, then
      writes from the snapshot. `outdated` is history, nothing reads it: the task has been live since the load. */
  datatype Reconcile = Reconcile(snapshot: Store, outdated: bool, stage: Stage)

  datatype State = State(store: Store, phase: Phase, reconciles: seq<Reconcile>)

  datatype Outcome = Done(response: string) | Error(kept: Option<string>) | Aborted

  datatype Action =
    | BeginRun(limit: int, prepares: bool)
    | BeginRerun(limit: int, prepares: bool)
    | RerunStep
    | RequestStop
    | RequestPause
    | Take(w: nat)
    | PassGate(w: nat)
    | PassLimiter(w: nat)
    | PassPacing(w: nat)
    | PassPrepare(w: nat)
    | PrepareFails(w: nat)
    | Settle(w: nat, outcome: Outcome)
    | DeliverCancel(w: nat)
    | NoticeStop
    | CancelWorkers
    | NoticePause
    | PollPause
    | Gather
    | FinalizeStep
    | LoadSnapshot
    | BeginReconcile(r: nat)
    | ReconcileStep(r: nat)
    | Crash

  // ---- one worker

  function Put(l: Live, w: nat, place: Place): Live
    requires w < |l.exec.workers|
  {
    l.(exec := l.exec.(workers := l.exec.workers[w := Worker(place, l.exec.workers[w].cancelled)]))
  }

  function Save(l: Live, id: nat, subtask: Subtask): Live
    requires id < |l.store.subs|
  {
    l.(store := l.store.(subs := l.store.subs[id := subtask]))
  }

  function Started(subtask: Subtask): Subtask {
    subtask.(status := Running, attempts := subtask.attempts + 1)
  }

  /** The subtask as saved when its runner ends. */
  function Settled(subtask: Subtask, outcome: Outcome): Subtask {
    match outcome
    case Done(response) => Started(subtask).(status := Completed, response := response)
    case Error(None) => Started(subtask).(status := Failed)
    case Error(Some(response)) => Started(subtask).(status := Failed, response := response)
    case Aborted => Started(subtask).(status := Pending)
  }

  /** Saves the subtask as running and enters the runner. */
  function Launch(l: Live, w: nat, item: Item): Live
    requires w < |l.exec.workers| && item.id < |l.store.subs|
  {
    var saved := Put(Save(l, item.id, Started(item.subtask)), w, InRunner(item));
    saved.(exec := saved.exec.(active := saved.exec.active + 1))
  }

  function TakeItem(l: Live, w: nat): Live
    requires w < |l.exec.workers|
  {
    if l.exec.stop || l.exec.queue == [] then Put(l, w, Finished)
    else Put(l.(exec := l.exec.(queue := l.exec.queue[1..])), w, AtGate(l.exec.queue[0]))
  }

  function AfterPacing(l: Live, w: nat, item: Item): Live
    requires w < |l.exec.workers| && item.id < |l.store.subs|
  {
    if l.exec.stop then Put(l, w, AtLoop)
    else if l.exec.prepares then Put(l, w, AtPrepare(item))
    else Launch(l, w, item)
  }

  function AfterPrepare(l: Live, w: nat, item: Item): Live
    requires w < |l.exec.workers| && item.id < |l.store.subs|
  {
    if l.exec.stop || l.exec.pause then Put(l, w, AtLoop) else Launch(l, w, item)
  }

  function EndRunner(l: Live, w: nat, item: Item, outcome: Outcome): Live
    requires w < |l.exec.workers| && item.id < |l.store.subs|
  {
    var saved := Put(Save(l, item.id, Settled(item.subtask, outcome)), w, if outcome.Aborted? then Finished else AtLoop);
    saved.(exec := saved.exec.(active := saved.exec.active - 1))
  }

  /** A cancellation ends a worker that has not begun; at an await in front of the runner it is swallowed. */
  function RaiseCancel(l: Live, w: nat): Live
    requires w < |l.exec.workers|
  {
    var place := l.exec.workers[w].place;
    if place.AtLoop? then l.(exec := l.exec.(workers := l.exec.workers[w := Worker(Finished, false)]))
    else if place.AtGate? || place.AtLimiter? || place.AtPacing? || place.AtPrepare? then
      l.(exec := l.exec.(workers := l.exec.workers[w := Worker(AtLoop, false)]))
    else l
  }

  function WorkerStep(l: Live, a: Action, w: nat): Live
    requires w < |l.exec.workers|
  {
    var Worker(place, cancelled) := l.exec.workers[w];
    if a.DeliverCancel? then (if cancelled then RaiseCancel(l, w) else l)
    else if a.Settle? then
      (if place.InRunner? && place.item.id < |l.store.subs| then EndRunner(l, w, place.item, a.outcome) else l)
    else if cancelled then l
    else if a.Take? && place.AtLoop? then TakeItem(l, w)
    else if a.PassGate? && place.AtGate? && (l.exec.gateOpen || l.exec.stop) then
      Put(l, w, if l.exec.stop then AtLoop else AtLimiter(place.item))
    else if a.PassLimiter? && place.AtLimiter? then Put(l, w, if l.exec.stop then AtLoop else AtPacing(place.item))
    else if a.PassPacing? && place.AtPacing? && place.item.id < |l.store.subs| then AfterPacing(l, w, place.item)
    else if a.PassPrepare? && place.AtPrepare? && place.item.id < |l.store.subs| then AfterPrepare(l, w, place.item)
    else if a.PrepareFails? && place.AtPrepare? then Put(l, w, Finished)
    else l
  }

  // ---- the handlers

  function CancelAll(workers: seq<Worker>): (r: seq<Worker>)
    ensures |r| == |workers|
  {
    seq(|workers|, w requires 0 <= w < |workers| =>
      if workers[w].place.Finished? then workers[w] else workers[w].(cancelled := true))
  }

  function SetTask(l: Live, task: TaskStatus): Live {
    l.(store := l.store.(task := task))
  }

  /** No runner is left: the task is paused and every worker is cancelled. */
  function ObservePause(l: Live): Live {
    SetTask(l, TaskPaused).(exec :=
      l.exec.(observed := true, pauseHandler := PauseHandled, workers := CancelAll(l.exec.workers)))
  }

  function PausePoll(l: Live): Live {
    if l.exec.pauseHandler.PauseDraining? && l.exec.stop then l.(exec := l.exec.(pauseHandler := PauseHandled))
    else if l.exec.active == 0 then ObservePause(l)
    else l.(exec := l.exec.(pauseHandler := PauseDraining))
  }

  function HandlerStep(l: Live, a: Action): Live {
    var e := l.exec;
    match a
    case RequestStop => l.(exec := e.(stop := true, gateOpen := true))
    case RequestPause => l.(exec := e.(pause := true, gateOpen := false))
    case NoticeStop =>
      if e.stop && e.stopHandler.StopWaiting? then SetTask(l, TaskStopping).(exec := e.(stopHandler := StopDraining)) else l
    case CancelWorkers =>
      if e.stopHandler.StopDraining? then l.(exec := e.(stopHandler := StopHandled, workers := CancelAll(e.workers))) else l
    case NoticePause =>
      if !e.pause || !e.pauseHandler.PauseWaiting? then l
      else if e.stop then l.(exec := e.(pauseHandler := PauseHandled))
      else SetTask(l, TaskPausing).(exec := e.(pauseHandler := PauseNoticed))
    case PollPause =>
      if e.pauseHandler.PauseNoticed? || e.pauseHandler.PauseDraining? then PausePoll(l) else l
    case _ => l
  }

  predicate IsWorkerAction(a: Action) {
    a.Take? || a.PassGate? || a.PassLimiter? || a.PassPacing? || a.PassPrepare? || a.PrepareFails? || a.Settle?
    || a.DeliverCancel?
  }

  function LiveStep(l: Live, a: Action): Live {
    if IsWorkerAction(a) then (if a.w < |l.exec.workers| then WorkerStep(l, a, a.w) else l) else HandlerStep(l, a)
  }

  // ---- beginning and ending a run

  function PendingItems(subs: seq<Subtask>, i: nat := 0): seq<Item>
    requires i <= |subs|
    decreases |subs| - i
  {
    if i == |subs| then []
    else (if subs[i].status.Pending? then [Item(i, subs[i])] else []) + PendingItems(subs, i + 1)
  }

  function WorkerCount(limit: int, pending: nat): int {
    var wanted := if limit < 1 then 1 else limit;
    if wanted < pending then wanted else pending
  }

  function NewExec(subs: seq<Subtask>, limit: int, prepares: bool): Exec {
    var queue := PendingItems(subs);
    var count := WorkerCount(limit, |queue|);
    Exec(subs, limit, prepares, false, false, true, false, 0, queue,
         seq(if count < 0 then 0 else count, _ => Worker(AtLoop, false)), StopWaiting, PauseWaiting)
  }

  function Outdated(reconciles: seq<Reconcile>): (r: seq<Reconcile>)
    ensures |r| == |reconciles|
  {
    seq(|reconciles|, i requires 0 <= i < |reconciles| => reconciles[i].(outdated := true))
  }

  /** The executor's thread has moved on. */
  function Advance(s: State, store: Store, phase: Phase): State {
    State(store, phase, if phase.Idle? then s.reconciles else Outdated(s.reconciles))
  }

  /** `run`, up to its first await. */
  function Begin(s: State, stop: bool, returned: bool, limit: int, prepares: bool): State {
    if PendingItems(s.store.subs) == [] then Advance(s, s.store, Finalizing(s.store.subs, false, false, 0))
    else if stop && !returned then Advance(s, s.store, Finalizing(s.store.subs, true, false, 0))
    else Advance(s, s.store.(task := TaskRunning), Driving(NewExec(s.store.subs, limit, prepares)))
  }

  predicate AllFinished(workers: seq<Worker>) {
    forall w :: 0 <= w < |workers| ==> workers[w].place.Finished?
  }

  function CountOf(subs: seq<Subtask>, status: Status): nat {
    if subs == [] then 0 else (if subs[0].status == status then 1 else 0) + CountOf(subs[1..], status)
  }

  /** The task status `_finalize` writes, if any. */
  function FinalTask(store: Store, stopped: bool, paused: bool): TaskStatus {
    var failed, pending, running := CountOf(store.subs, Failed), CountOf(store.subs, Pending), CountOf(store.subs, Running);
    if stopped then TaskStopped
    else if paused then TaskPaused
    else if failed > 0 && pending == 0 && running == 0 then TaskFailed
    else if pending == 0 && running == 0 && failed == 0 then TaskCompleted
    else store.task
  }

  function Move(store: Store, i: nat, from: Status, to: Status): Store
    requires i < |store.subs|
  {
    if store.subs[i].status == from then store.(subs := store.subs[i := store.subs[i].(status := to)]) else store
  }

  const ZOMBIE_STATES: set<TaskStatus> := {TaskPending, TaskRunning, TaskStopping, TaskPausing}
  const STALE_STATES: set<TaskStatus> := {TaskStopped, TaskPaused, TaskFailed}

  function IdleStep(s: State, a: Action): State
    requires s.phase.Idle?
  {
    var Idle(stop, returned) := s.phase;
    match a
    case BeginRun(limit, prepares) => Begin(s, stop, returned, limit, prepares)
    case BeginRerun(limit, prepares) => Advance(s, s.store, Rerunning(stop, returned, 0, limit, prepares))
    case RequestStop => s.(phase := Idle(true, returned))
    case _ => s
  }

  function ExecutorStep(s: State, a: Action): State {
    var store := s.store;
    match s.phase
    case Idle(_, _) => IdleStep(s, a)
    case Rerunning(stop, returned, at, limit, prepares) =>
      if !a.RerunStep? then s
      else if at < |store.subs| then
        Advance(s, Move(store, at, Failed, Pending), Rerunning(stop, returned, at + 1, limit, prepares))
      else Begin(s, stop, returned, limit, prepares)
    case Driving(e) =>
      if a.Gather? then
        (if AllFinished(e.workers) then Advance(s, store, Finalizing(e.start, e.stop, e.observed, 0)) else s)
      else
        var l := LiveStep(Live(store, e), a);
        Advance(s, l.store, Driving(l.exec))
    case Finalizing(start, stopped, paused, at) =>
      if !a.FinalizeStep? then s
      else if at < |store.subs| && !stopped && !paused then
        Advance(s, Move(store, at, Pending, Failed), Finalizing(start, stopped, paused, at + 1))
      else Advance(s, store.(task := FinalTask(store, stopped, paused)), Idle(stopped, true))
  }

  // ---- reconciling

  function Reach(s: State, r: nat, store: Store, stage: Stage): State
    requires r < |s.reconciles|
  {
    s.(store := store, reconciles := s.reconciles[r := s.reconciles[r].(stage := stage)])
  }

  /** `_reconcile_zombie` up to its first write: only a transient status is checked against the registry. */
  function CheckLiveness(s: State, r: nat): State
    requires r < |s.reconciles|
  {
    var snapshot := s.reconciles[r].snapshot;
    if snapshot.task in ZOMBIE_STATES then
      (if s.phase.Idle? then Reach(s, r, s.store.(task := TaskStopped), Healing(0)) else Reach(s, r, s.store, Over))
    else Reach(s, r, s.store, if snapshot.task in STALE_STATES then Healing(0) else Over)
  }

  /** One round of the healing loop: what the snapshot shows running is saved as pending. */
  function Heal(s: State, r: nat): State
    requires r < |s.reconciles| && s.reconciles[r].stage.Healing?
  {
    var snapshot, at := s.reconciles[r].snapshot, s.reconciles[r].stage.at;
    if at < |snapshot.subs| && at < |s.store.subs| then
      Reach(s, r, if snapshot.subs[at].status.Running?
                  then s.store.(subs := s.store.subs[at := snapshot.subs[at].(status := Pending)]) else s.store,
            Healing(at + 1))
    else Reach(s, r, s.store, Over)
  }

  predicate IsReconcileAction(a: Action) {
    a.LoadSnapshot? || a.BeginReconcile? || a.ReconcileStep?
  }

  function RequestStep(s: State, a: Action): State {
    match a
    case LoadSnapshot => s.(reconciles := s.reconciles + [Reconcile(s.store, !s.phase.Idle?, Loaded)])
    case BeginReconcile(r) => if r < |s.reconciles| && s.reconciles[r].stage.Loaded? then CheckLiveness(s, r) else s
    case ReconcileStep(r) => if r < |s.reconciles| && s.reconciles[r].stage.Healing? then Heal(s, r) else s
    case _ => s
  }

  function Step(s: State, a: Action): State {
    if a.Crash? then State(s.store, Idle(false, false), [])
    else if IsReconcileAction(a) then RequestStep(s, a)
    else ExecutorStep(s, a)
  }

  /** A reconcile writes to the store in this step. */
  predicate Writes(s: State, a: Action) {
    match a
    case BeginReconcile(r) =>
      r < |s.reconciles| && s.reconciles[r].stage.Loaded? && s.reconciles[r].snapshot.task in ZOMBIE_STATES && s.phase.Idle?
    case ReconcileStep(r) =>
      && r < |s.reconciles| && s.reconciles[r].stage.Healing?
      && s.reconciles[r].stage.at < |s.reconciles[r].snapshot.subs|
      && s.reconciles[r].snapshot.subs[s.reconciles[r].stage.at].status.Running?
    case _ => false
  }

  predicate CarefulStep(s: State, a: Action) {
    Writes(s, a) ==> !s.reconciles[a.r].outdated
  }

  /** No reconcile writes from a snapshot since whose loading the task has been live. The source does not see to
      it; a request that looks for a live run before it loads, and holds off new runs until it is through, does. */
  predicate Careful(s: State, actions: seq<Action>)
    decreases |actions|
  {
    actions == [] || (CarefulStep(s, actions[0]) && Careful(Step(s, actions[0]), actions[1..]))
  }

  /** Any run: any list of actions, applied in turn. */
  function Run(s: State, actions: seq<Action>): State
    decreases |actions|
  {
    if actions == [] then s else Run(Step(s, actions[0]), actions[1..])
  }

  function Repeat(a: Action, n: nat): seq<Action> {
    if n == 0 then [] else [a] + Repeat(a, n - 1)
  }

  lemma RepeatRun(s: State, a: Action, n: nat)
    ensures Run(s, Repeat(a, 0)) == s
    ensures n > 0 ==> Run(s, Repeat(a, n)) == Run(Step(s, a), Repeat(a, n - 1))
  {
    if n > 0 { assert Repeat(a, n)[1..] == Repeat(a, n - 1); }
  }
}
