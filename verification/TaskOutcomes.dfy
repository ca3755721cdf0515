/** What the runners report decides what is stored: over any run, each subtask ends exactly as the outcome of its
    one attempt says, and a task that nobody disturbs fails exactly if some subtask does. */
module TaskOutcomes {
  import Lists
  import opened TaskModel
  import opened TaskInvariants
  import opened TaskRuns
  import opened TaskCleanRuns

  // ---- the history of outcomes

  /** The runner of subtask `id` has ended with `outcome`. */
  datatype End = End(id: nat, outcome: Outcome)

  function EndsAt(l: Live, a: Action): seq<End> {
    if a.Settle? && a.w < |l.exec.workers| && l.exec.workers[a.w].place.InRunner?
    then [End(l.exec.workers[a.w].place.item.id, a.outcome)] else []
  }

  function EndsIn(s: State, a: Action): seq<End> {
    if s.phase.Driving? then EndsAt(Live(s.store, s.phase.exec), a) else []
  }

  /** The runners that end in a run, in order. */
  function Ends(s: State, actions: seq<Action>): seq<End>
    decreases |actions|
  {
    if actions == [] then [] else EndsIn(s, actions[0]) + Ends(Step(s, actions[0]), actions[1..])
  }

  ghost predicate HasEnded(ends: seq<End>, i: nat) {
    exists k :: 0 <= k < |ends| && ends[k].id == i
  }

  ghost predicate OneEndEach(ends: seq<End>) {
    forall j, k :: 0 <= j < k < |ends| ==> ends[j].id != ends[k].id
  }

  /** What an attempt that ended with `outcome` leaves of a subtask. */
  predicate Reports(before: Subtask, now: Subtask, outcome: Outcome) {
    match outcome
    case Done(response) => now == Subtask(Completed, before.attempts + 1, response)
    case Error(Some(kept)) => now == Subtask(Failed, before.attempts + 1, kept)
    case Error(None) => now == Subtask(Failed, before.attempts + 1, before.response)
    case Aborted => now == Subtask(Pending, before.attempts + 1, before.response)
  }

  // ---- while the run drives

  ghost predicate Runs(workers: seq<Worker>, i: nat) {
    exists w :: 0 <= w < |workers| && workers[w].place.InRunner? && workers[w].place.item.id == i
  }

  /** A subtask whose attempt has ended is as reported, and out of everybody's hands. */
  ghost predicate EndOk(l: Live, end: End) {
    && end.id < |l.store.subs| == |l.exec.start| && l.exec.start[end.id].status.Pending?
    && Reports(l.exec.start[end.id], l.store.subs[end.id], end.outcome)
    && !InQueue(l.exec.queue, end.id) && !InHand(l.exec.workers, end.id)
  }

  ghost predicate AllEndsOk(l: Live, ends: seq<End>) {
    forall k :: 0 <= k < |ends| ==> EndOk(l, ends[k])
  }

  /** Nothing else has changed. */
  ghost predicate ElseAsBegun(l: Live, ends: seq<End>) {
    && |l.store.subs| == |l.exec.start|
    && forall i :: 0 <= i < |l.store.subs| && l.store.subs[i] != l.exec.start[i] ==>
         HasEnded(ends, i) || Runs(l.exec.workers, i)
  }

  ghost predicate EndsOk(l: Live, ends: seq<End>) {
    OneEndEach(ends) && AllEndsOk(l, ends) && ElseAsBegun(l, ends)
  }

  lemma HandFrom(workers: seq<Worker>, w: nat, worker: Worker, i: nat)
    requires w < |workers| && InHand(workers[w := worker], i)
    ensures InHand(workers, i) || (Holds(worker.place) && worker.place.item.id == i)
  {
    var now := workers[w := worker];
    var v :| 0 <= v < |now| && Holds(now[v].place) && now[v].place.item.id == i;
    if v != w { assert workers[v].place.item.id == i; }
  }

  lemma RunsOn(workers: seq<Worker>, w: nat, worker: Worker, i: nat)
    requires w < |workers| && Runs(workers, i)
    requires workers[w].place.InRunner? && workers[w].place.item.id == i ==>
               worker.place.InRunner? && worker.place.item.id == i
    ensures Runs(workers[w := worker], i)
  {
    var v :| 0 <= v < |workers| && workers[v].place.InRunner? && workers[v].place.item.id == i;
    assert workers[w := worker][v].place.InRunner? && workers[w := worker][v].place.item.id == i;
  }

  lemma MovedEnds(l: Live, w: nat, shape: Shape, ends: seq<End>)
    requires EndsOk(l, ends) && w < |l.exec.workers| && shape.Moves? && Fits(l, w, shape)
    ensures EndsOk(Shaped(l, w, shape), ends)
  {
    var m := Shaped(l, w, shape);
    forall k | 0 <= k < |ends| ensures EndOk(m, ends[k]) {
      assert EndOk(l, ends[k]);
      if InHand(m.exec.workers, ends[k].id) { HandFrom(l.exec.workers, w, shape.worker, ends[k].id); }
    }
    forall i | 0 <= i < |m.store.subs| && m.store.subs[i] != m.exec.start[i]
      ensures HasEnded(ends, i) || Runs(m.exec.workers, i)
    {
      if Runs(l.exec.workers, i) { RunsOn(l.exec.workers, w, shape.worker, i); }
    }
  }

  lemma TakenEnds(l: Live, w: nat, worker: Worker, ends: seq<End>)
    requires EndsOk(l, ends) && w < |l.exec.workers| && Fits(l, w, Takes(worker))
    ensures EndsOk(Shaped(l, w, Takes(worker)), ends)
  {
    var m := Shaped(l, w, Takes(worker));
    forall k | 0 <= k < |ends| ensures EndOk(m, ends[k]) {
      assert EndOk(l, ends[k]) && l.exec.queue[0].id != ends[k].id;
      if InHand(m.exec.workers, ends[k].id) { HandFrom(l.exec.workers, w, worker, ends[k].id); }
    }
    forall i | 0 <= i < |m.store.subs| && m.store.subs[i] != m.exec.start[i]
      ensures HasEnded(ends, i) || Runs(m.exec.workers, i)
    {
      if Runs(l.exec.workers, i) { RunsOn(l.exec.workers, w, worker, i); }
    }
  }

  /** What is in a worker's hands has not ended; saving it leaves the rest as reported. */
  lemma SavedEnd(l: Live, w: nat, shape: Shape, end: End)
    requires EndOk(l, end) && w < |l.exec.workers| && shape.Saves? && Fits(l, w, shape)
    ensures EndOk(Shaped(l, w, shape), end) && end.id != l.exec.workers[w].place.item.id
  {
    var m := Shaped(l, w, shape);
    assert end.id != l.exec.workers[w].place.item.id;
    if InHand(m.exec.workers, end.id) { HandFrom(l.exec.workers, w, shape.worker, end.id); }
  }

  lemma SavedElse(l: Live, w: nat, shape: Shape, ends: seq<End>, more: seq<End>)
    requires HandsOk(l) && ElseAsBegun(l, ends) && w < |l.exec.workers| && shape.Saves? && Fits(l, w, shape)
    requires var id := l.exec.workers[w].place.item.id; HasEnded(ends + more, id) || Runs(Shaped(l, w, shape).exec.workers, id)
    ensures ElseAsBegun(Shaped(l, w, shape), ends + more)
  {
    var m, id := Shaped(l, w, shape), l.exec.workers[w].place.item.id;
    forall i | 0 <= i < |m.store.subs| && m.store.subs[i] != m.exec.start[i]
      ensures HasEnded(ends + more, i) || Runs(m.exec.workers, i)
    {
      if i != id {
        if Runs(l.exec.workers, i) { RunsOn(l.exec.workers, w, shape.worker, i); }
        else { StillEnded(ends, more, i); }
      }
    }
  }

  lemma StillEnded(ends: seq<End>, more: seq<End>, i: nat)
    requires HasEnded(ends, i)
    ensures HasEnded(ends + more, i)
  {
    var k :| 0 <= k < |ends| && ends[k].id == i;
    assert (ends + more)[k].id == i;
  }

  /** A runner is entered. */
  lemma LaunchedEnds(l: Live, w: nat, shape: Shape, ends: seq<End>)
    requires HandsOk(l) && EndsOk(l, ends) && w < |l.exec.workers| && shape.Saves? && Fits(l, w, shape)
    requires Holds(shape.worker.place)
    ensures EndsOk(Shaped(l, w, shape), ends)
  {
    var m := Shaped(l, w, shape);
    forall k | 0 <= k < |ends| ensures EndOk(m, ends[k]) { SavedEnd(l, w, shape, ends[k]); }
    assert m.exec.workers[w].place.InRunner?;
    assert ends + [] == ends;
    SavedElse(l, w, shape, ends, []);
  }

  lemma ReleasedHands(l: Live, w: nat, worker: Worker)
    requires HandsOk(l) && w < |l.exec.workers| && Holds(l.exec.workers[w].place) && !Holds(worker.place)
    ensures var id := l.exec.workers[w].place.item.id;
            !InHand(l.exec.workers[w := worker], id) && !InQueue(l.exec.queue, id)
  {
  }

  /** A runner has ended. */
  lemma SettledEnds(l: Live, a: Action, ends: seq<End>)
    requires HandsOk(l) && EndsOk(l, ends) && a.Settle? && a.w < |l.exec.workers| && l.exec.workers[a.w].place.InRunner?
    ensures var shape := ShapeOf(l, a, a.w); Fits(l, a.w, shape) && EndsOk(Shaped(l, a.w, shape), ends + EndsAt(l, a))
  {
    var shape, item := ShapeOf(l, a, a.w), l.exec.workers[a.w].place.item;
    ShapeFits(l, a, a.w);
    assert ItemOk(l, item, true);
    var m, more := Shaped(l, a.w, shape), EndsAt(l, a);
    ReleasedHands(l, a.w, shape.worker);
    assert EndOk(m, more[0]);
    forall k | 0 <= k < |ends| ensures EndOk(m, ends[k]) && ends[k].id != item.id { SavedEnd(l, a.w, shape, ends[k]); }
    assert (ends + more)[|ends|].id == item.id;
    SavedElse(l, a.w, shape, ends, more);
  }

  lemma WorkerStepEnds(l: Live, a: Action, ends: seq<End>)
    requires HandsOk(l) && EndsOk(l, ends) && IsWorkerAction(a) && a.w < |l.exec.workers|
    ensures EndsOk(WorkerStep(l, a, a.w), ends + EndsAt(l, a))
  {
    var shape := ShapeOf(l, a, a.w);
    StepHasShape(l, a, a.w);
    ShapeFits(l, a, a.w);
    if a.Settle? && l.exec.workers[a.w].place.InRunner? {
      SettledEnds(l, a, ends);
    } else {
      assert ends + EndsAt(l, a) == ends;
      match shape
      case Stays =>
      case Moves(worker) => MovedEnds(l, a.w, shape, ends);
      case Takes(worker) => TakenEnds(l, a.w, worker, ends);
      case Saves(worker, _, _) => LaunchedEnds(l, a.w, shape, ends);
    }
  }

  lemma SamePlaces(l: Live, m: Live, ends: seq<End>)
    requires EndsOk(l, ends) && m.store.subs == l.store.subs && m.exec.start == l.exec.start && m.exec.queue == l.exec.queue
    requires |m.exec.workers| == |l.exec.workers|
    requires forall w :: 0 <= w < |l.exec.workers| ==> m.exec.workers[w].place == l.exec.workers[w].place
    ensures EndsOk(m, ends)
  {
    forall k | 0 <= k < |ends| ensures EndOk(m, ends[k]) { assert EndOk(l, ends[k]); }
    forall i | 0 <= i < |m.store.subs| && m.store.subs[i] != m.exec.start[i]
      ensures HasEnded(ends, i) || Runs(m.exec.workers, i)
    {
      if Runs(l.exec.workers, i) {
        var v :| 0 <= v < |l.exec.workers| && l.exec.workers[v].place.InRunner? && l.exec.workers[v].place.item.id == i;
        assert m.exec.workers[v].place == l.exec.workers[v].place;
      }
    }
  }

  lemma LiveStepEnds(l: Live, a: Action, ends: seq<End>)
    requires HandsOk(l) && EndsOk(l, ends)
    ensures EndsOk(LiveStep(l, a), ends + EndsAt(l, a))
  {
    if IsWorkerAction(a) && a.w < |l.exec.workers| {
      WorkerStepEnds(l, a, ends);
    } else {
      assert ends + EndsAt(l, a) == ends;
      if !IsWorkerAction(a) {
        HandlerStepParts(l, a);
        SamePlaces(l, HandlerStep(l, a), ends);
      }
    }
  }

  /** Nobody writes "stopped" while workers run. */
  lemma LiveStepUnstopped(l: Live, a: Action)
    requires HandsOk(l) && !l.store.task.TaskStopped?
    ensures !LiveStep(l, a).store.task.TaskStopped?
  {
    if IsWorkerAction(a) && a.w < |l.exec.workers| { WorkerStepSaves(l, a, a.w); }
  }

  // ---- until the run returns

  /** A subtask is as its end tells, or as it was if none of its has ended. */
  ghost predicate LeftAs(before: Subtask, now: Subtask, ends: seq<End>, i: nat) {
    && (forall k :: 0 <= k < |ends| && ends[k].id == i ==> Reports(before, now, ends[k].outcome))
    && (!HasEnded(ends, i) ==> now == before)
  }

  /** The same after the repair: what was left pending is failed. */
  ghost predicate RepairedAs(before: Subtask, now: Subtask, ends: seq<End>, i: nat) {
    || (LeftAs(before, now, ends, i) && !now.status.Pending?)
    || (LeftAs(before, now.(status := Pending), ends, i) && now.status.Failed?)
  }

  ghost predicate OfPending(start: seq<Subtask>, ends: seq<End>) {
    forall k :: 0 <= k < |ends| ==> ends[k].id < |start| && start[ends[k].id].status.Pending?
  }

  ghost predicate AllLeft(start: seq<Subtask>, subs: seq<Subtask>, ends: seq<End>, from: nat) {
    |start| == |subs| && forall i :: from <= i < |subs| ==> LeftAs(start[i], subs[i], ends, i)
  }

  ghost predicate AllRepaired(start: seq<Subtask>, subs: seq<Subtask>, ends: seq<End>, to: nat) {
    to <= |start| == |subs| && forall i :: 0 <= i < to ==> RepairedAs(start[i], subs[i], ends, i)
  }

  predicate Unfinished(task: TaskStatus) {
    task.TaskStopped? || task.TaskPaused?
  }

  ghost predicate EndsFit(s: State, ends: seq<End>) {
    match s.phase
    case Driving(e) => EndsOk(Live(s.store, e), ends) && !s.store.task.TaskStopped?
    case Finalizing(start, stopped, paused, at) =>
      && OneEndEach(ends) && OfPending(start, ends)
      && (if stopped || paused then AllLeft(start, s.store.subs, ends, 0)
          else AllLeft(start, s.store.subs, ends, at) && AllRepaired(start, s.store.subs, ends, at)
               && (Unfinished(s.store.task) ==> ends == [] && NoneBelow(start, |start|, Pending)))
    case _ => false
  }

  /** How a run that began on `start` leaves every subtask when it returns, by the ends of its runners. */
  ghost predicate Decided(start: seq<Subtask>, u: State, ends: seq<End>) {
    && OneEndEach(ends) && OfPending(start, ends)
    && (if Unfinished(u.store.task) then AllLeft(start, u.store.subs, ends, 0)
        else AllRepaired(start, u.store.subs, ends, |start|))
  }

  lemma GatheredLeft(l: Live, ends: seq<End>)
    requires LiveOk(l) && EndsOk(l, ends) && AllFinished(l.exec.workers)
    ensures OfPending(l.exec.start, ends) && AllLeft(l.exec.start, l.store.subs, ends, 0)
  {
    forall k | 0 <= k < |ends| ensures ends[k].id < |l.exec.start| && l.exec.start[ends[k].id].status.Pending? {
      assert EndOk(l, ends[k]);
    }
    forall i | 0 <= i < |l.store.subs| ensures LeftAs(l.exec.start[i], l.store.subs[i], ends, i) {
      forall k | 0 <= k < |ends| && ends[k].id == i
        ensures Reports(l.exec.start[i], l.store.subs[i], ends[k].outcome)
      {
        assert EndOk(l, ends[k]);
      }
    }
  }

  lemma GatherEnds(s: State, ends: seq<End>)
    requires StateOk(s) && s.phase.Driving? && EndsFit(s, ends) && AllFinished(s.phase.exec.workers)
    ensures EndsFit(Step(s, Gather), ends)
  {
    GatheredLeft(Live(s.store, s.phase.exec), ends);
  }

  lemma MoveRepairs(start: seq<Subtask>, store: Store, ends: seq<End>, at: nat)
    requires AllLeft(start, store.subs, ends, at) && AllRepaired(start, store.subs, ends, at) && at < |store.subs|
    ensures var subs := Move(store, at, Pending, Failed).subs;
            AllLeft(start, subs, ends, at + 1) && AllRepaired(start, subs, ends, at + 1)
  {
    var subs := Move(store, at, Pending, Failed).subs;
    assert LeftAs(start[at], store.subs[at], ends, at);
    if store.subs[at].status.Pending? { assert subs[at].(status := Pending) == store.subs[at]; }
    forall i | 0 <= i < at + 1 ensures RepairedAs(start[i], subs[i], ends, i) {
      if i < at { assert RepairedAs(start[i], store.subs[i], ends, i); }
    }
  }

  /** Where nothing was pending there was nothing to repair. */
  lemma NothingRepaired(start: seq<Subtask>, subs: seq<Subtask>)
    requires AllRepaired(start, subs, [], |start|) && NoneBelow(start, |start|, Pending)
    ensures AllLeft(start, subs, [], 0)
  {
    forall i | 0 <= i < |subs| ensures LeftAs(start[i], subs[i], [], i) { assert RepairedAs(start[i], subs[i], [], i); }
  }

  lemma FinalizeEnds(s: State, ends: seq<End>)
    requires s.phase.Finalizing? && EndsFit(s, ends) && StateOk(s)
    ensures var t := Step(s, FinalizeStep);
            if t.phase.Idle? then Decided(s.phase.start, t, ends) else EndsFit(t, ends) && t.phase.Finalizing?
  {
    var Finalizing(start, stopped, paused, at) := s.phase;
    if !stopped && !paused {
      if at < |s.store.subs| { MoveRepairs(start, s.store, ends, at); }
      else if Unfinished(s.store.task) { NothingRepaired(start, s.store.subs); }
    }
  }

  lemma ExecutorEnds(s: State, a: Action, ends: seq<End>)
    requires StateOk(s) && InRun(s) && EndsFit(s, ends) && !a.Crash? && !IsReconcileAction(a)
    ensures var t := Step(s, a);
            if t.phase.Idle? then EndsIn(s, a) == [] && Decided(StartOf(s), t, ends) else EndsFit(t, ends + EndsIn(s, a))
  {
    if s.phase.Driving? {
      var l := Live(s.store, s.phase.exec);
      if a.Gather? {
        assert ends + EndsIn(s, a) == ends;
        if AllFinished(l.exec.workers) { GatherEnds(s, ends); }
      } else {
        LiveStepEnds(l, a, ends);
        LiveStepUnstopped(l, a);
      }
    } else {
      assert ends + EndsIn(s, a) == ends;
      if a.FinalizeStep? { FinalizeEnds(s, ends); }
    }
  }

  lemma RequestEnds(s: State, a: Action, ends: seq<End>)
    requires StateOk(s) && InRun(s) && EndsFit(s, ends) && IsReconcileAction(a) && CarefulStep(s, a)
    ensures InRun(Step(s, a)) && EndsFit(Step(s, a), ends + EndsIn(s, a))
  {
    RequestRests(s, a);
    assert ends + EndsIn(s, a) == ends;
  }

  lemma {:induction false} RunEnds(s: State, actions: seq<Action>, ends: seq<End>)
    requires StateOk(s) && InRun(s) && OneRun(s, actions) && Run(s, actions).phase.Idle? && EndsFit(s, ends)
    ensures Decided(StartOf(s), Run(s, actions), ends + Ends(s, actions))
    decreases |actions|
  {
    var a, t := actions[0], Step(s, actions[0]);
    StepOk(s, a);
    RunStepStart(s, a);
    if IsReconcileAction(a) { RequestEnds(s, a, ends); } else { ExecutorEnds(s, a, ends); }
    if t.phase.Idle? {
      assert actions[1..] == [] && ends + Ends(s, actions) == ends;
    } else {
      RunEnds(t, actions[1..], ends + EndsIn(s, a));
      Lists.Assoc(ends, EndsIn(s, a), Ends(t, actions[1..]));
    }
  }

  lemma BeginEnds(s: State, stop: bool, returned: bool, limit: int, prepares: bool)
    ensures var t := Begin(s, stop, returned, limit, prepares);
            InRun(t) && StartOf(t) == s.store.subs && EndsFit(t, [])
  {
    var t := Begin(s, stop, returned, limit, prepares);
    if t.phase.Driving? {
      assert AllEndsOk(Live(t.store, t.phase.exec), []);
    } else if PendingItems(s.store.subs) == [] {
      NothingPending(s.store.subs);
      assert forall i :: 0 <= i < |s.store.subs| ==> LeftAs(s.store.subs[i], s.store.subs[i], [], i);
    }
  }

  /** Over any run, however it is interleaved, stopped or paused, and with however slow requests alongside: each subtask
      is attempted at most once, and only if it was pending. One whose runner returned is completed with exactly the
      response; one whose runner raised is failed, with the response the error kept or else the old one; one whose
      runner was cancelled is pending, with one more attempt; any other is as it was. Only if the run was neither
      stopped nor paused is what was left pending failed. */
  lemma OutcomesDecide(s: State, limit: int, prepares: bool, actions: seq<Action>)
    requires StateOk(s) && s.phase.Idle?
    requires var t := Step(s, BeginRun(limit, prepares)); OneRun(t, actions) && Run(t, actions).phase.Idle?
    ensures var t := Step(s, BeginRun(limit, prepares)); Decided(s.store.subs, Run(t, actions), Ends(t, actions))
  {
    var t := Step(s, BeginRun(limit, prepares));
    StepOk(s, BeginRun(limit, prepares));
    BeginEnds(s, s.phase.stop, s.phase.returned, limit, prepares);
    RunEnds(t, actions, []);
    assert [] + Ends(t, actions) == Ends(t, actions);
  }

  /** A subtask that was pending is completed, with `response`, if and only if its runner returned `response`. */
  lemma CompletedExactly(start: seq<Subtask>, u: State, ends: seq<End>, i: nat, response: string)
    requires Decided(start, u, ends) && i < |start| == |u.store.subs| && start[i].status.Pending?
    ensures var now := u.store.subs[i];
            (now.status.Completed? && now.response == response) <==> End(i, Done(response)) in ends
  {
    assert if Unfinished(u.store.task) then LeftAs(start[i], u.store.subs[i], ends, i)
           else RepairedAs(start[i], u.store.subs[i], ends, i);
    if HasEnded(ends, i) {
      var k :| 0 <= k < |ends| && ends[k].id == i;
      if End(i, Done(response)) in ends {
        var j :| 0 <= j < |ends| && ends[j] == End(i, Done(response));
        assert j == k;
      }
    }
  }

  // ---- re-runs

  function ResetOne(subtask: Subtask): Subtask {
    if subtask.status.Failed? then Subtask(Pending, subtask.attempts, subtask.response) else subtask
  }

  function Reset(subs: seq<Subtask>): (r: seq<Subtask>)
    ensures |r| == |subs|
  {
    seq(|subs|, i requires 0 <= i < |subs| => ResetOne(subs[i]))
  }

  ghost predicate ResetBelow(before: seq<Subtask>, subs: seq<Subtask>, at: nat) {
    at <= |before| == |subs| && forall i :: 0 <= i < |subs| ==> subs[i] == if i < at then ResetOne(before[i]) else before[i]
  }

  lemma ResetStep(s: State, before: seq<Subtask>)
    requires s.phase.Rerunning? && ResetBelow(before, s.store.subs, s.phase.at)
    ensures var t := Step(s, RerunStep);
            if t.phase.Rerunning? then ResetBelow(before, t.store.subs, t.phase.at)
            else InRun(t) && StartOf(t) == Reset(before) && EndsFit(t, [])
  {
    var Rerunning(stop, returned, at, limit, prepares) := s.phase;
    if at == |s.store.subs| {
      assert s.store.subs == Reset(before);
      BeginEnds(s, stop, returned, limit, prepares);
    }
  }

  lemma {:induction false} RerunEnds(s: State, before: seq<Subtask>, actions: seq<Action>)
    requires StateOk(s) && s.phase.Rerunning? && ResetBelow(before, s.store.subs, s.phase.at)
    requires OneRun(s, actions) && Run(s, actions).phase.Idle?
    ensures Decided(Reset(before), Run(s, actions), Ends(s, actions))
    decreases |actions|
  {
    var a, t, rest := actions[0], Step(s, actions[0]), actions[1..];
    StepOk(s, a);
    if IsReconcileAction(a) { RequestRests(s, a); } else if a.RerunStep? { ResetStep(s, before); }
    assert Ends(s, actions) == Ends(t, rest);
    if t.phase.Rerunning? {
      RerunEnds(t, before, rest);
    } else {
      RunEnds(t, rest, []);
      assert [] + Ends(t, rest) == Ends(t, rest);
    }
  }

  /** A re-run decides the same from a start where every failed subtask is pending again, attempts and response
      kept. */
  lemma RerunDecides(s: State, limit: int, prepares: bool, actions: seq<Action>)
    requires StateOk(s) && s.phase.Idle?
    requires var t := Step(s, BeginRerun(limit, prepares)); OneRun(t, actions) && Run(t, actions).phase.Idle?
    ensures var t := Step(s, BeginRerun(limit, prepares)); Decided(Reset(s.store.subs), Run(t, actions), Ends(t, actions))
  {
    StepOk(s, BeginRerun(limit, prepares));
    RerunEnds(Step(s, BeginRerun(limit, prepares)), s.store.subs, actions);
  }

  // ---- the verdict on a clean run

  ghost predicate SomeError(ends: seq<End>) {
    exists k :: 0 <= k < |ends| && ends[k].outcome.Error?
  }

  ghost predicate SomeFailed(subs: seq<Subtask>) {
    exists i :: 0 <= i < |subs| && subs[i].status.Failed?
  }

  ghost predicate NoneAborted(ends: seq<End>) {
    forall k :: 0 <= k < |ends| ==> !ends[k].outcome.Aborted?
  }

  lemma {:induction false} CleanEnds(s: State, actions: seq<Action>)
    requires AllClean(actions)
    ensures NoneAborted(Ends(s, actions))
    decreases |actions|
  {
    if actions != [] {
      assert CleanAction(actions[0]);
      assert AllClean(actions[1..]);
      CleanEnds(Step(s, actions[0]), actions[1..]);
    }
  }

  /** A subtask was attempted, so its runner ended, and the end tells how. */
  lemma AttemptEnded(start: seq<Subtask>, u: State, ends: seq<End>, i: nat)
    requires Decided(start, u, ends) && AllAttempted(start, u.store.subs) && NoneAborted(ends) && i < |start|
    ensures LeftAs(start[i], u.store.subs[i], ends, i) && (start[i].status.Pending? ==> HasEnded(ends, i))
  {
    var now := u.store.subs[i];
    assert start[i].status.Pending? ==> AttemptedOnce(start[i], now);
    assert if Unfinished(u.store.task) then LeftAs(start[i], now, ends, i) else RepairedAs(start[i], now, ends, i);
    if !HasEnded(ends, i) {
    } else {
      var k :| 0 <= k < |ends| && ends[k].id == i;
      assert !ends[k].outcome.Aborted?;
    }
  }

  lemma FailedExactly(start: seq<Subtask>, u: State, ends: seq<End>)
    requires Decided(start, u, ends) && AllAttempted(start, u.store.subs) && NoneAborted(ends)
    ensures SomeFailed(u.store.subs) <==> SomeFailed(start) || SomeError(ends)
  {
    if SomeFailed(u.store.subs) {
      var i :| 0 <= i < |start| && u.store.subs[i].status.Failed?;
      AttemptEnded(start, u, ends, i);
      if HasEnded(ends, i) { var k :| 0 <= k < |ends| && ends[k].id == i; }
    }
    if SomeFailed(start) {
      var i :| 0 <= i < |start| && start[i].status.Failed?;
      assert u.store.subs[i].status.Failed?;
    }
    if SomeError(ends) {
      var k :| 0 <= k < |ends| && ends[k].outcome.Error?;
      AttemptEnded(start, u, ends, ends[k].id);
      assert u.store.subs[ends[k].id].status.Failed?;
    }
  }

  /** Without stop or pause, and with runners that only return or raise, every pending subtask's runner ends exactly
      once, and the task ends failed if some runner raised or some subtask was failed to begin with, else completed. */
  lemma CleanRunVerdict(s: State, limit: int, prepares: bool, actions: seq<Action>)
    requires StateOk(s) && s.phase.Idle? && (s.phase.stop ==> s.phase.returned) && AllClean(actions)
    requires var t := Step(s, BeginRun(limit, prepares)); OneRun(t, actions) && Run(t, actions).phase.Idle?
    ensures var t := Step(s, BeginRun(limit, prepares));
            var u, ends := Run(t, actions), Ends(t, actions);
            && OneEndEach(ends)
            && (forall i :: 0 <= i < |s.store.subs| && s.store.subs[i].status.Pending? ==> HasEnded(ends, i))
            && (CountOf(s.store.subs, Running) == 0 ==>
                  u.store.task == if SomeError(ends) || SomeFailed(s.store.subs) then TaskFailed else TaskCompleted)
  {
    var t := Step(s, BeginRun(limit, prepares));
    var u, ends := Run(t, actions), Ends(t, actions);
    OutcomesDecide(s, limit, prepares, actions);
    CleanRunOutcome(s, limit, prepares, actions);
    CleanEnds(t, actions);
    forall i | 0 <= i < |s.store.subs| && s.store.subs[i].status.Pending? ensures HasEnded(ends, i) {
      AttemptEnded(s.store.subs, u, ends, i);
    }
    FailedExactly(s.store.subs, u, ends);
    CountZero(u.store.subs, Failed);
  }

  ghost predicate SomeUnended(subs: seq<Subtask>) {
    exists i :: 0 <= i < |subs| && (subs[i].status.Pending? || subs[i].status.Running?)
  }

  /** The status a run leaves, by what is stored at its return: stopped wins over paused; otherwise the old status stays
      while anything is pending or running, and else the task is failed exactly if some subtask is. */
  lemma ReturnedStatus(s: State)
    requires s.phase.Finalizing? && Step(s, FinalizeStep).phase.Idle?
    ensures var t := Step(s, FinalizeStep);
            t.store == s.store.(task :=
              if s.phase.stopped then TaskStopped
              else if s.phase.paused then TaskPaused
              else if SomeUnended(s.store.subs) then s.store.task
              else if SomeFailed(s.store.subs) then TaskFailed else TaskCompleted)
  {
    var subs := s.store.subs;
    CountZero(subs, Pending);
    CountZero(subs, Running);
    CountZero(subs, Failed);
  }
}
