/** What every step of a run keeps. */
module TaskInvariants {
  import opened TaskModel

  // ---- one subtask during a run

  /** What a run may have done to a subtask: one that was not pending is as it was; a pending one is
      untouched or has been started, once. */
  predicate Progressed(before: Subtask, now: Subtask) {
    || now == before
    || (before.status.Pending? && now.attempts == before.attempts + 1
        && (now.status.Running? || now.status.Pending? ==> now.response == before.response))
  }

  ghost predicate AllProgressed(start: seq<Subtask>, subs: seq<Subtask>) {
    |start| == |subs| && forall i :: 0 <= i < |subs| ==> Progressed(start[i], subs[i])
  }

  predicate Holds(place: Place) {
    !place.AtLoop? && !place.Finished?
  }

  /** A subtask in a worker's hands is as it was when loaded, or started from that if it is in the runner. */
  ghost predicate ItemOk(l: Live, item: Item, started: bool) {
    && item.id < |l.store.subs| == |l.exec.start|
    && l.exec.start[item.id] == item.subtask && item.subtask.status.Pending?
    && l.store.subs[item.id] == if started then Started(item.subtask) else item.subtask
  }

  ghost predicate WorkersOk(l: Live) {
    forall w :: 0 <= w < |l.exec.workers| && Holds(l.exec.workers[w].place) ==>
      ItemOk(l, l.exec.workers[w].place.item, l.exec.workers[w].place.InRunner?)
  }

  ghost predicate QueueOk(l: Live) {
    forall q :: 0 <= q < |l.exec.queue| ==> ItemOk(l, l.exec.queue[q], false)
  }

  ghost predicate HeldApart(workers: seq<Worker>) {
    forall v, w :: 0 <= v < w < |workers| && Holds(workers[v].place) && Holds(workers[w].place) ==>
      workers[v].place.item.id != workers[w].place.item.id
  }

  ghost predicate QueueApart(queue: seq<Item>) {
    forall p, q :: 0 <= p < q < |queue| ==> queue[p].id != queue[q].id
  }

  ghost predicate QueueUnheld(workers: seq<Worker>, queue: seq<Item>) {
    forall w, q :: 0 <= w < |workers| && 0 <= q < |queue| && Holds(workers[w].place) ==>
      workers[w].place.item.id != queue[q].id
  }

  /** Every subtask is in at most one pair of hands. */
  ghost predicate Apart(l: Live) {
    HeldApart(l.exec.workers) && QueueApart(l.exec.queue) && QueueUnheld(l.exec.workers, l.exec.queue)
  }

  function InRunners(workers: seq<Worker>): nat {
    if workers == [] then 0 else (if workers[0].place.InRunner? then 1 else 0) + InRunners(workers[1..])
  }

  ghost predicate Counted(l: Live) {
    && l.exec.active == InRunners(l.exec.workers)
    && CountOf(l.store.subs, Running) == CountOf(l.exec.start, Running) + l.exec.active
    && |l.exec.workers| == WorkerCount(l.exec.limit, CountOf(l.exec.start, Pending))
    && CountOf(l.exec.start, Pending) > 0
  }

  /** Once the pause has been observed nothing runs, and nobody can get past the gate. */
  ghost predicate Quiet(e: Exec) {
    && e.active == 0
    && forall w :: 0 <= w < |e.workers| ==>
         var Worker(place, cancelled) := e.workers[w];
         && !place.InRunner?
         && (place.AtLimiter? || place.AtPacing? || place.AtPrepare? ==> cancelled)
  }

  ghost predicate PauseOk(l: Live) {
    && (l.exec.pause && !l.exec.stop ==> !l.exec.gateOpen)
    && (l.exec.observed ==> l.exec.pause && Quiet(l.exec))
    && (l.store.task.TaskPaused? ==> l.exec.observed)
    && !l.store.task.TaskCompleted?
    && (!l.exec.pauseHandler.PauseWaiting? ==> l.exec.pause)
    && (l.exec.observed ==> l.exec.pauseHandler.PauseHandled?)
  }

  ghost predicate HandsOk(l: Live) {
    WorkersOk(l) && QueueOk(l) && Apart(l)
  }

  ghost predicate LiveOk(l: Live) {
    AllProgressed(l.exec.start, l.store.subs) && HandsOk(l) && Counted(l) && PauseOk(l)
  }

  // ---- counting

  lemma {:induction false} CountUpdate(subs: seq<Subtask>, i: nat, subtask: Subtask, status: Status)
    requires i < |subs|
    ensures CountOf(subs[i := subtask], status) == CountOf(subs, status)
            - (if subs[i].status == status then 1 else 0) + (if subtask.status == status then 1 else 0)
  {
    if i == 0 {
      assert subs[0 := subtask][1..] == subs[1..];
    } else {
      assert subs[i := subtask][1..] == subs[1..][i - 1 := subtask];
      CountUpdate(subs[1..], i - 1, subtask, status);
    }
  }

  lemma {:induction false} InRunnersUpdate(workers: seq<Worker>, w: nat, worker: Worker)
    requires w < |workers|
    ensures InRunners(workers[w := worker]) == InRunners(workers)
            - (if workers[w].place.InRunner? then 1 else 0) + (if worker.place.InRunner? then 1 else 0)
  {
    if w == 0 {
      assert workers[0 := worker][1..] == workers[1..];
    } else {
      assert workers[w := worker][1..] == workers[1..][w - 1 := worker];
      InRunnersUpdate(workers[1..], w - 1, worker);
    }
  }

  lemma {:induction false} InRunnersBound(workers: seq<Worker>)
    ensures InRunners(workers) <= |workers|
    ensures InRunners(workers) == 0 <==> forall w :: 0 <= w < |workers| ==> !workers[w].place.InRunner?
  {
    if workers != [] {
      InRunnersBound(workers[1..]);
      assert forall w :: 0 < w < |workers| ==> workers[w] == workers[1..][w - 1];
      assert forall w :: 0 <= w < |workers[1..]| ==> workers[1..][w] == workers[w + 1];
    }
  }

  lemma {:induction false} InRunnersCancelled(workers: seq<Worker>)
    ensures InRunners(CancelAll(workers)) == InRunners(workers)
  {
    if workers != [] {
      assert CancelAll(workers)[1..] == CancelAll(workers[1..]);
      InRunnersCancelled(workers[1..]);
    }
  }

  lemma {:induction false} PendingItemsCount(subs: seq<Subtask>, i: nat)
    requires i <= |subs|
    ensures |PendingItems(subs, i)| == CountOf(subs[i..], Pending)
    decreases |subs| - i
  {
    if i < |subs| {
      PendingItemsCount(subs, i + 1);
      assert subs[i..][1..] == subs[i + 1..];
    }
  }

  ghost predicate FromStore(items: seq<Item>, subs: seq<Subtask>, i: nat) {
    forall q :: 0 <= q < |items| ==>
      i <= items[q].id < |subs| && items[q].subtask == subs[items[q].id] && items[q].subtask.status.Pending?
  }

  lemma ItemAhead(items: seq<Item>, subs: seq<Subtask>, i: nat)
    requires i < |subs| && subs[i].status.Pending? && FromStore(items, subs, i + 1) && QueueApart(items)
    ensures FromStore([Item(i, subs[i])] + items, subs, i) && QueueApart([Item(i, subs[i])] + items)
  {
    var all := [Item(i, subs[i])] + items;
    assert forall q :: 0 < q < |all| ==> all[q] == items[q - 1];
  }

  lemma {:induction false} PendingItemsOk(subs: seq<Subtask>, i: nat)
    requires i <= |subs|
    ensures FromStore(PendingItems(subs, i), subs, i) && QueueApart(PendingItems(subs, i))
    decreases |subs| - i
  {
    if i < |subs| {
      PendingItemsOk(subs, i + 1);
      if subs[i].status.Pending? {
        ItemAhead(PendingItems(subs, i + 1), subs, i);
      } else {
        assert PendingItems(subs, i) == PendingItems(subs, i + 1);
      }
    }
  }

  // ---- subtasks in hand

  /** One worker is replaced by one that holds nothing, or holds what it held, outside the runner. */
  lemma MovedHands(l: Live, w: nat, worker: Worker)
    requires HandsOk(l) && w < |l.exec.workers|
    requires Holds(l.exec.workers[w].place) && l.exec.workers[w].place.InRunner? ==> !Holds(worker.place)
    requires !worker.place.InRunner?
    requires Holds(worker.place) ==> Holds(l.exec.workers[w].place) && worker.place.item == l.exec.workers[w].place.item
    ensures HandsOk(l.(exec := l.exec.(workers := l.exec.workers[w := worker])))
  {
    var workers := l.exec.workers[w := worker];
    assert WorkersOk(l.(exec := l.exec.(workers := workers)));
    assert HeldApart(workers) && QueueUnheld(workers, l.exec.queue);
  }

  function TakenBy(l: Live, w: nat, worker: Worker): Live
    requires w < |l.exec.workers| && l.exec.queue != []
  {
    l.(exec := l.exec.(queue := l.exec.queue[1..], workers := l.exec.workers[w := worker]))
  }

  lemma TailHands(l: Live)
    requires HandsOk(l) && l.exec.queue != []
    ensures var m := l.(exec := l.exec.(queue := l.exec.queue[1..]));
            HandsOk(m) && forall q :: 0 <= q < |m.exec.queue| ==> m.exec.queue[q].id != l.exec.queue[0].id
  {
    var queue := l.exec.queue[1..];
    var m := l.(exec := l.exec.(queue := queue));
    assert forall q :: 0 <= q < |queue| ==> queue[q] == l.exec.queue[q + 1];
    forall q | 0 <= q < |queue| ensures ItemOk(m, queue[q], false) { assert ItemOk(l, l.exec.queue[q + 1], false); }
    forall w | 0 <= w < |m.exec.workers| && Holds(m.exec.workers[w].place)
      ensures ItemOk(m, m.exec.workers[w].place.item, m.exec.workers[w].place.InRunner?)
    {
      assert ItemOk(l, l.exec.workers[w].place.item, l.exec.workers[w].place.InRunner?);
    }
  }

  /** A free worker gets a subtask that nobody has. */
  lemma GivenHands(l: Live, w: nat, item: Item)
    requires HandsOk(l) && w < |l.exec.workers| && ItemOk(l, item, false)
    requires forall q :: 0 <= q < |l.exec.queue| ==> l.exec.queue[q].id != item.id
    requires forall v :: 0 <= v < |l.exec.workers| && v != w && Holds(l.exec.workers[v].place) ==>
               l.exec.workers[v].place.item.id != item.id
    ensures HandsOk(l.(exec := l.exec.(workers := l.exec.workers[w := Worker(AtGate(item), false)])))
  {
    var workers := l.exec.workers[w := Worker(AtGate(item), false)];
    var m := l.(exec := l.exec.(workers := workers));
    forall v | 0 <= v < |workers| && Holds(workers[v].place)
      ensures ItemOk(m, workers[v].place.item, workers[v].place.InRunner?)
    {
      if v != w { assert ItemOk(l, l.exec.workers[v].place.item, l.exec.workers[v].place.InRunner?); }
    }
    assert QueueOk(m) && HeldApart(workers) && QueueUnheld(workers, m.exec.queue);
  }

  /** A worker takes the head of the queue. */
  lemma TakenHands(l: Live, w: nat, worker: Worker)
    requires HandsOk(l) && w < |l.exec.workers| && l.exec.queue != []
    requires worker == Worker(AtGate(l.exec.queue[0]), false)
    ensures HandsOk(TakenBy(l, w, worker))
  {
    var item := l.exec.queue[0];
    var m := l.(exec := l.exec.(queue := l.exec.queue[1..]));
    assert ItemOk(l, item, false);
    TailHands(l);
    assert ItemOk(m, item, false);
    GivenHands(m, w, item);
  }

  function SavedBy(l: Live, w: nat, id: nat, subtask: Subtask, worker: Worker, active: int): Live
    requires w < |l.exec.workers| && id < |l.store.subs|
  {
    Live(l.store.(subs := l.store.subs[id := subtask]),
         l.exec.(active := active, workers := l.exec.workers[w := worker]))
  }

  /** A subtask in hand is saved by its worker: nobody else's is touched. */
  lemma SavedHands(l: Live, w: nat, subtask: Subtask, worker: Worker, active: int)
    requires HandsOk(l) && w < |l.exec.workers| && Holds(l.exec.workers[w].place)
    requires Holds(worker.place) ==>
               worker.place.item == l.exec.workers[w].place.item
               && subtask == if worker.place.InRunner? then Started(worker.place.item.subtask) else worker.place.item.subtask
    ensures var id := l.exec.workers[w].place.item.id;
            id < |l.store.subs| && HandsOk(SavedBy(l, w, id, subtask, worker, active))
  {
    var item := l.exec.workers[w].place.item;
    assert ItemOk(l, item, l.exec.workers[w].place.InRunner?);
    var m := SavedBy(l, w, item.id, subtask, worker, active);
    forall v | 0 <= v < |m.exec.workers| && Holds(m.exec.workers[v].place)
      ensures ItemOk(m, m.exec.workers[v].place.item, m.exec.workers[v].place.InRunner?)
    {
      if v != w { assert m.exec.workers[v].place.item.id != item.id; }
    }
    forall q | 0 <= q < |m.exec.queue| ensures ItemOk(m, m.exec.queue[q], false) {
      assert m.exec.queue[q].id != item.id;
    }
    assert HeldApart(m.exec.workers) && QueueUnheld(m.exec.workers, m.exec.queue);
  }

  // ---- a worker's step, in one of three shapes

  /** The worker moves, takes from the queue, or saves its subtask. */
  datatype Shape = Stays | Moves(worker: Worker) | Takes(worker: Worker) | Saves(worker: Worker, subtask: Subtask, active: int)

  function ShapeOf(l: Live, a: Action, w: nat): Shape
    requires w < |l.exec.workers|
  {
    var Worker(place, cancelled) := l.exec.workers[w];
    if a.DeliverCancel? then
      (if !cancelled || place.Finished? || place.InRunner? then Stays
       else Moves(Worker(if place.AtLoop? then Finished else AtLoop, false)))
    else if a.Settle? then
      (if place.InRunner? then
         Saves(Worker(if a.outcome.Aborted? then Finished else AtLoop, cancelled), Settled(place.item.subtask, a.outcome),
              l.exec.active - 1)
       else Stays)
    else if cancelled then Stays
    else PlainShape(l, a, place)
  }

  function PlainShape(l: Live, a: Action, place: Place): Shape {
    var e := l.exec;
    if a.Take? && place.AtLoop? then
      (if e.stop || e.queue == [] then Moves(Worker(Finished, false)) else Takes(Worker(AtGate(e.queue[0]), false)))
    else if a.PassGate? && place.AtGate? && (e.gateOpen || e.stop) then
      Moves(Worker(if e.stop then AtLoop else AtLimiter(place.item), false))
    else if a.PassLimiter? && place.AtLimiter? then Moves(Worker(if e.stop then AtLoop else AtPacing(place.item), false))
    else if a.PassPacing? && place.AtPacing? then
      (if e.stop then Moves(Worker(AtLoop, false))
       else if e.prepares then Moves(Worker(AtPrepare(place.item), false))
       else LaunchShape(l, place.item))
    else if a.PassPrepare? && place.AtPrepare? then
      (if e.stop || e.pause then Moves(Worker(AtLoop, false)) else LaunchShape(l, place.item))
    else if a.PrepareFails? && place.AtPrepare? then Moves(Worker(Finished, false))
    else Stays
  }

  function LaunchShape(l: Live, item: Item): Shape {
    Saves(Worker(InRunner(item), false), Started(item.subtask), l.exec.active + 1)
  }

  lemma LaunchIsSave(l: Live, w: nat, item: Item)
    requires w < |l.exec.workers| && item.id < |l.store.subs| && !l.exec.workers[w].cancelled
    ensures Launch(l, w, item)
            == SavedBy(l, w, item.id, Started(item.subtask), Worker(InRunner(item), false), l.exec.active + 1)
  {
  }

  function Shaped(l: Live, w: nat, shape: Shape): Live
    requires w < |l.exec.workers| && (shape.Takes? ==> l.exec.queue != [])
    requires shape.Saves? ==> Holds(l.exec.workers[w].place) && l.exec.workers[w].place.item.id < |l.store.subs|
  {
    match shape
    case Stays => l
    case Moves(worker) => l.(exec := l.exec.(workers := l.exec.workers[w := worker]))
    case Takes(worker) => TakenBy(l, w, worker)
    case Saves(worker, subtask, active) => SavedBy(l, w, l.exec.workers[w].place.item.id, subtask, worker, active)
  }

  ghost predicate HasShape(l: Live, a: Action, w: nat)
    requires w < |l.exec.workers|
  {
    var shape := ShapeOf(l, a, w);
    && (shape.Takes? ==> l.exec.queue != [])
    && (shape.Saves? ==> Holds(l.exec.workers[w].place) && l.exec.workers[w].place.item.id < |l.store.subs|)
    && WorkerStep(l, a, w) == Shaped(l, w, shape)
  }

  /** What every shape has in common with the worker it is for. */
  ghost predicate Fits(l: Live, w: nat, shape: Shape)
    requires w < |l.exec.workers|
  {
    var place := l.exec.workers[w].place;
    match shape
    case Stays => true
    case Moves(worker) =>
      && !place.InRunner? && !worker.place.InRunner?
      && (Holds(worker.place) ==> Holds(place) && worker.place.item == place.item)
    case Takes(worker) => place.AtLoop? && l.exec.queue != [] && worker == Worker(AtGate(l.exec.queue[0]), false)
    case Saves(worker, subtask, active) =>
      && ItemInHand(l, place) && Progressed(place.item.subtask, subtask) && place.item.subtask.status.Pending?
      && (worker.place.InRunner? <==> subtask.status.Running?) && (place.InRunner? <==> !worker.place.InRunner?)
      && active == l.exec.active + (if place.InRunner? then -1 else 1)
      && (if Holds(worker.place) then worker.place == InRunner(place.item) && subtask == Started(place.item.subtask) else true)
  }

  predicate ItemInHand(l: Live, place: Place) {
    Holds(place) && place.item.id < |l.store.subs|
  }

  lemma PutIsMove(l: Live, w: nat, place: Place)
    requires w < |l.exec.workers| && !l.exec.workers[w].cancelled
    ensures Put(l, w, place) == Shaped(l, w, Moves(Worker(place, false)))
  {
  }

  lemma TakeHasShape(l: Live, a: Action, w: nat)
    requires w < |l.exec.workers| && l.exec.workers[w] == Worker(AtLoop, false) && a.Take?
    ensures HasShape(l, a, w)
  {
    PutIsMove(l, w, Finished);
  }

  lemma EndHasShape(l: Live, a: Action, w: nat)
    requires w < |l.exec.workers| && a.Settle? && l.exec.workers[w].place.InRunner?
    requires l.exec.workers[w].place.item.id < |l.store.subs|
    ensures HasShape(l, a, w)
  {
  }

  lemma CancelHasShape(l: Live, a: Action, w: nat)
    requires w < |l.exec.workers| && a.DeliverCancel?
    ensures HasShape(l, a, w)
  {
  }

  lemma PassHasShape(l: Live, a: Action, w: nat)
    requires w < |l.exec.workers| && Holds(l.exec.workers[w].place) && !l.exec.workers[w].cancelled
    requires l.exec.workers[w].place.item.id < |l.store.subs| && (a.PassPacing? || a.PassPrepare?)
    ensures HasShape(l, a, w)
  {
    var item := l.exec.workers[w].place.item;
    PutIsMove(l, w, AtLoop);
    PutIsMove(l, w, AtPrepare(item));
    LaunchIsSave(l, w, item);
  }

  lemma MoveHasShape(l: Live, a: Action, w: nat)
    requires w < |l.exec.workers| && !l.exec.workers[w].cancelled && (a.PassGate? || a.PassLimiter? || a.PrepareFails?)
    ensures HasShape(l, a, w)
  {
  }

  lemma ShapeFits(l: Live, a: Action, w: nat)
    requires HandsOk(l) && w < |l.exec.workers|
    ensures Fits(l, w, ShapeOf(l, a, w))
  {
    var place := l.exec.workers[w].place;
    if Holds(place) { assert ItemOk(l, place.item, place.InRunner?); }
  }

  /** Every step of a worker has its shape. */
  lemma StepHasShape(l: Live, a: Action, w: nat)
    requires HandsOk(l) && w < |l.exec.workers|
    ensures HasShape(l, a, w)
  {
    var Worker(place, cancelled) := l.exec.workers[w];
    if Holds(place) { assert ItemOk(l, place.item, place.InRunner?); }
    if a.DeliverCancel? { CancelHasShape(l, a, w); }
    else if a.Settle? { if place.InRunner? { EndHasShape(l, a, w); } }
    else if cancelled { }
    else if a.Take? { if place.AtLoop? { TakeHasShape(l, a, w); } }
    else if a.PassPacing? || a.PassPrepare? { if Holds(place) { PassHasShape(l, a, w); } }
    else if a.PassGate? || a.PassLimiter? || a.PrepareFails? { MoveHasShape(l, a, w); }
  }

  lemma ShapedHands(l: Live, w: nat, shape: Shape)
    requires HandsOk(l) && w < |l.exec.workers| && Fits(l, w, shape)
    ensures HandsOk(Shaped(l, w, shape))
  {
    match shape
    case Stays =>
    case Moves(worker) => MovedHands(l, w, worker);
    case Takes(worker) => TakenHands(l, w, worker);
    case Saves(worker, subtask, active) => SavedHands(l, w, subtask, worker, active);
  }

  /** A worker's step leaves each subtask in at most one pair of hands, as it was loaded or started. */
  lemma WorkerStepHands(l: Live, a: Action, w: nat)
    requires HandsOk(l) && w < |l.exec.workers|
    ensures HandsOk(WorkerStep(l, a, w))
  {
    StepHasShape(l, a, w);
    ShapeFits(l, a, w);
    ShapedHands(l, w, ShapeOf(l, a, w));
  }

  /** A handler leaves store, queue and places alone; it may cancel every worker. */
  lemma HandlerStepParts(l: Live, a: Action)
    ensures var m := HandlerStep(l, a);
            && m.store.subs == l.store.subs && m.exec.start == l.exec.start && m.exec.queue == l.exec.queue
            && m.exec.limit == l.exec.limit && m.exec.active == l.exec.active && m.exec.prepares == l.exec.prepares
            && (m.exec.workers == l.exec.workers || m.exec.workers == CancelAll(l.exec.workers))
  {
    if a.PollPause? { PollParts(l); }
  }

  lemma PollParts(l: Live)
    ensures var m := PausePoll(l);
            && m.store.subs == l.store.subs && m.exec.start == l.exec.start && m.exec.queue == l.exec.queue
            && m.exec.limit == l.exec.limit && m.exec.active == l.exec.active && m.exec.prepares == l.exec.prepares
            && (m.exec.workers == l.exec.workers || m.exec.workers == CancelAll(l.exec.workers))
  {
  }

  lemma SameHands(l: Live, m: Live)
    requires HandsOk(l) && m.store.subs == l.store.subs && m.exec.start == l.exec.start && m.exec.queue == l.exec.queue
    requires |m.exec.workers| == |l.exec.workers|
    requires forall w :: 0 <= w < |l.exec.workers| ==> m.exec.workers[w].place == l.exec.workers[w].place
    ensures HandsOk(m)
  {
    forall w | 0 <= w < |m.exec.workers| && Holds(m.exec.workers[w].place)
      ensures ItemOk(m, m.exec.workers[w].place.item, m.exec.workers[w].place.InRunner?)
    {
      assert ItemOk(l, l.exec.workers[w].place.item, l.exec.workers[w].place.InRunner?);
    }
    forall q | 0 <= q < |m.exec.queue| ensures ItemOk(m, m.exec.queue[q], false) { assert ItemOk(l, l.exec.queue[q], false); }
    assert HeldApart(m.exec.workers) && QueueUnheld(m.exec.workers, m.exec.queue);
  }

  lemma HandlerStepHands(l: Live, a: Action)
    requires HandsOk(l)
    ensures HandsOk(HandlerStep(l, a))
  {
    HandlerStepParts(l, a);
    SameHands(l, HandlerStep(l, a));
  }

  lemma LiveStepHands(l: Live, a: Action)
    requires HandsOk(l)
    ensures HandsOk(LiveStep(l, a))
  {
    if IsWorkerAction(a) {
      if a.w < |l.exec.workers| { WorkerStepHands(l, a, a.w); }
    } else {
      HandlerStepHands(l, a);
    }
  }


  // ---- what has been done, and how many do it

  lemma ProgressedSave(start: seq<Subtask>, subs: seq<Subtask>, id: nat, subtask: Subtask)
    requires AllProgressed(start, subs) && id < |subs| && Progressed(start[id], subtask)
    ensures AllProgressed(start, subs[id := subtask])
  {
  }

  lemma ShapedProgressed(l: Live, w: nat, shape: Shape)
    requires HandsOk(l) && AllProgressed(l.exec.start, l.store.subs) && w < |l.exec.workers| && Fits(l, w, shape)
    ensures AllProgressed(l.exec.start, Shaped(l, w, shape).store.subs)
  {
    if shape.Saves? {
      var item := l.exec.workers[w].place.item;
      assert ItemOk(l, item, l.exec.workers[w].place.InRunner?);
      ProgressedSave(l.exec.start, l.store.subs, item.id, shape.subtask);
    }
  }

  lemma SavedCounted(l: Live, w: nat, id: nat, subtask: Subtask, worker: Worker, active: int)
    requires Counted(l) && w < |l.exec.workers| && id < |l.store.subs|
    requires active - l.exec.active == (if subtask.status.Running? then 1 else 0)
                                       - (if l.store.subs[id].status.Running? then 1 else 0)
    requires worker.place.InRunner? == subtask.status.Running?
    requires l.exec.workers[w].place.InRunner? == l.store.subs[id].status.Running?
    ensures Counted(SavedBy(l, w, id, subtask, worker, active))
  {
    CountUpdate(l.store.subs, id, subtask, Running);
    InRunnersUpdate(l.exec.workers, w, worker);
  }

  lemma ShapedCounted(l: Live, w: nat, shape: Shape)
    requires HandsOk(l) && Counted(l) && w < |l.exec.workers| && Fits(l, w, shape)
    ensures Counted(Shaped(l, w, shape))
  {
    match shape
    case Stays =>
    case Moves(worker) => InRunnersUpdate(l.exec.workers, w, worker);
    case Takes(worker) => InRunnersUpdate(l.exec.workers, w, worker);
    case Saves(worker, subtask, active) =>
      var item := l.exec.workers[w].place.item;
      assert ItemOk(l, item, l.exec.workers[w].place.InRunner?);
      SavedCounted(l, w, item.id, subtask, worker, active);
  }

  /** Once the pause has been observed a worker can only go back or finish. */
  lemma WorkerStepPause(l: Live, a: Action, w: nat)
    requires HandsOk(l) && PauseOk(l) && w < |l.exec.workers|
    ensures PauseOk(WorkerStep(l, a, w))
  {
    StepHasShape(l, a, w);
    if l.exec.observed { assert Quiet(l.exec); }
  }

  // ---- every step

  lemma WorkerStepOk(l: Live, a: Action, w: nat)
    requires LiveOk(l) && w < |l.exec.workers|
    ensures LiveOk(WorkerStep(l, a, w))
  {
    StepHasShape(l, a, w);
    ShapeFits(l, a, w);
    var shape := ShapeOf(l, a, w);
    ShapedHands(l, w, shape);
    ShapedProgressed(l, w, shape);
    ShapedCounted(l, w, shape);
    WorkerStepPause(l, a, w);
  }

  lemma HandlerStepCounted(l: Live, a: Action)
    requires Counted(l)
    ensures Counted(HandlerStep(l, a))
  {
    HandlerStepParts(l, a);
    InRunnersCancelled(l.exec.workers);
  }

  /** No runner is active and every worker in front of one has been cancelled. */
  lemma ObservedOk(l: Live)
    requires PauseOk(l) && l.exec.pause && Counted(l) && l.exec.active == 0
    ensures PauseOk(ObservePause(l))
  {
    InRunnersBound(l.exec.workers);
    assert Quiet(ObservePause(l).exec);
  }

  lemma PollOk(l: Live)
    requires PauseOk(l) && Counted(l) && (l.exec.pauseHandler.PauseNoticed? || l.exec.pauseHandler.PauseDraining?)
    ensures PauseOk(PausePoll(l))
  {
    if !(l.exec.pauseHandler.PauseDraining? && l.exec.stop) && l.exec.active == 0 { ObservedOk(l); }
  }

  lemma CancelledPause(l: Live)
    requires PauseOk(l)
    ensures PauseOk(l.(exec := l.exec.(stopHandler := StopHandled, workers := CancelAll(l.exec.workers))))
  {
  }

  lemma HandlerStepPause(l: Live, a: Action)
    requires Counted(l) && PauseOk(l)
    ensures PauseOk(HandlerStep(l, a))
  {
    if a.CancelWorkers? { CancelledPause(l); }
    else if a.PollPause? { if l.exec.pauseHandler.PauseNoticed? || l.exec.pauseHandler.PauseDraining? { PollOk(l); } }
  }

  lemma HandlerStepOk(l: Live, a: Action)
    requires LiveOk(l)
    ensures LiveOk(HandlerStep(l, a))
  {
    HandlerStepParts(l, a);
    HandlerStepHands(l, a);
    HandlerStepCounted(l, a);
    HandlerStepPause(l, a);
  }

  lemma LiveStepOk(l: Live, a: Action)
    requires LiveOk(l)
    ensures LiveOk(LiveStep(l, a))
  {
    if IsWorkerAction(a) {
      if a.w < |l.exec.workers| { WorkerStepOk(l, a, a.w); }
    } else {
      HandlerStepOk(l, a);
    }
  }

  lemma WorkerStepStart(l: Live, a: Action, w: nat)
    requires HandsOk(l) && w < |l.exec.workers|
    ensures var m := WorkerStep(l, a, w).exec;
            m.start == l.exec.start && m.stop == l.exec.stop && m.observed == l.exec.observed
  {
    StepHasShape(l, a, w);
  }

  /** A step does not forget what the run began with. */
  lemma LiveStepStart(l: Live, a: Action)
    requires HandsOk(l)
    ensures LiveStep(l, a).exec.start == l.exec.start
  {
    if IsWorkerAction(a) {
      if a.w < |l.exec.workers| { WorkerStepStart(l, a, a.w); }
    } else {
      HandlerStepParts(l, a);
    }
  }

  // ---- what a step saves

  /** A worker's step saves at most the subtask in its hands. */
  lemma WorkerStepSaves(l: Live, a: Action, w: nat)
    requires HandsOk(l) && w < |l.exec.workers|
    ensures var m, place := WorkerStep(l, a, w), l.exec.workers[w].place;
            && |m.store.subs| == |l.store.subs| && m.store.task == l.store.task
            && forall i :: 0 <= i < |l.store.subs| && m.store.subs[i] != l.store.subs[i] ==>
                 && Holds(place) && i == place.item.id && i < |l.exec.start| && l.exec.start[i].status.Pending?
                 && !l.store.subs[i].status.Completed?
                 && (l.exec.stop ==> l.store.subs[i].status.Running?)
                 && (l.store.subs[i].status.Running? ==> place.InRunner?)
                 && (place.InRunner? || ((place.AtPacing? || place.AtPrepare?) && !l.exec.workers[w].cancelled))
  {
    var place := l.exec.workers[w].place;
    StepHasShape(l, a, w);
    if Holds(place) { assert ItemOk(l, place.item, place.InRunner?); }
  }

  lemma BeginsOk(store: Store, limit: int, prepares: bool)
    requires PendingItems(store.subs) != []
    ensures LiveOk(Live(store.(task := TaskRunning), NewExec(store.subs, limit, prepares)))
  {
    BeginsHands(store, limit, prepares);
    PendingItemsCount(store.subs, 0);
    assert store.subs[0..] == store.subs;
    InRunnersBound(NewExec(store.subs, limit, prepares).workers);
  }

  lemma BeginsHands(store: Store, limit: int, prepares: bool)
    ensures HandsOk(Live(store.(task := TaskRunning), NewExec(store.subs, limit, prepares)))
  {
    PendingItemsOk(store.subs, 0);
    assert QueueOk(Live(store.(task := TaskRunning), NewExec(store.subs, limit, prepares)));
  }
}
