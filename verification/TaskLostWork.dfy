/** Two interleavings in which a reconcile (transoria/bridge/task_service.py) loses a finished subtask. */
module TaskLostWork {
  import opened TaskModel
  import opened TaskRuns
  import opened TaskReconcile

  lemma Then(s: State, a: seq<Action>, t: State, b: seq<Action>, u: State)
    requires Run(s, a) == t && Run(t, b) == u
    ensures Run(s, a + b) == u
  {
    RunConcat(s, a, b);
  }

  lemma One(s: State, a: Action)
    ensures Run(s, [a]) == Step(s, a)
  {
    assert [a][1..] == [];
  }

  lemma OutdatedTwice(cs: seq<Reconcile>)
    ensures Outdated(Outdated(cs)) == Outdated(cs)
  {
  }

  function Fresh(n: nat): Subtask {
    Subtask(Pending, n, "")
  }

  function Lone(subtask: Subtask, task: TaskStatus, cs: seq<Reconcile>, returned: bool := false): State {
    State(Store([subtask], task), Idle(false, returned), cs)
  }

  /** A run of one fresh subtask by one worker. */
  function Solo(n: nat, subtask: Subtask, place: Place, active: int, queue: seq<Item>, cs: seq<Reconcile>): State {
    State(Store([subtask], TaskRunning),
          Driving(Exec([Fresh(n)], 1, false, false, false, true, false, active, queue, [Worker(place, false)],
                       StopWaiting, PauseWaiting)), cs)
  }

  function Ending(n: nat, subtask: Subtask, at: nat, cs: seq<Reconcile>): State {
    State(Store([subtask], TaskRunning), Finalizing([Fresh(n)], false, false, at), cs)
  }

  lemma SoloBegins(n: nat, task: TaskStatus, cs: seq<Reconcile>)
    ensures Run(Lone(Fresh(n), task, cs), [BeginRun(1, false)])
            == Solo(n, Fresh(n), AtLoop, 0, [Item(0, Fresh(n))], Outdated(cs))
  {
    assert PendingItems([Fresh(n)], 1) == [] && PendingItems([Fresh(n)]) == [Item(0, Fresh(n))];
    assert NewExec([Fresh(n)], 1, false).workers == [Worker(AtLoop, false)];
    One(Lone(Fresh(n), task, cs), BeginRun(1, false));
  }

  lemma SoloTakes(n: nat, cs: seq<Reconcile>)
    ensures Run(Solo(n, Fresh(n), AtLoop, 0, [Item(0, Fresh(n))], cs), [Take(0)])
            == Solo(n, Fresh(n), AtGate(Item(0, Fresh(n))), 0, [], Outdated(cs))
  {
    One(Solo(n, Fresh(n), AtLoop, 0, [Item(0, Fresh(n))], cs), Take(0));
  }

  lemma SoloPasses(n: nat, cs: seq<Reconcile>)
    ensures var item := Item(0, Fresh(n));
            && Run(Solo(n, Fresh(n), AtGate(item), 0, [], cs), [PassGate(0)])
               == Solo(n, Fresh(n), AtLimiter(item), 0, [], Outdated(cs))
            && Run(Solo(n, Fresh(n), AtLimiter(item), 0, [], cs), [PassLimiter(0)])
               == Solo(n, Fresh(n), AtPacing(item), 0, [], Outdated(cs))
  {
    var item := Item(0, Fresh(n));
    One(Solo(n, Fresh(n), AtGate(item), 0, [], cs), PassGate(0));
    One(Solo(n, Fresh(n), AtLimiter(item), 0, [], cs), PassLimiter(0));
  }

  lemma SoloLaunches(n: nat, cs: seq<Reconcile>)
    ensures var item := Item(0, Fresh(n));
            Run(Solo(n, Fresh(n), AtPacing(item), 0, [], cs), [PassPacing(0)])
            == Solo(n, Subtask(Running, n + 1, ""), InRunner(item), 1, [], Outdated(cs))
  {
    One(Solo(n, Fresh(n), AtPacing(Item(0, Fresh(n))), 0, [], cs), PassPacing(0));
  }

  const TO_RUNNER: seq<Action> := [BeginRun(1, false)] + [Take(0)] + [PassGate(0)] + [PassLimiter(0)] + [PassPacing(0)]

  /** The run of a lone subtask up to its request. */
  lemma SoloToRunner(n: nat, task: TaskStatus, cs: seq<Reconcile>)
    ensures Run(Lone(Fresh(n), task, cs), TO_RUNNER)
            == Solo(n, Subtask(Running, n + 1, ""), InRunner(Item(0, Fresh(n))), 1, [], Outdated(cs))
  {
    var s, item, aged := Lone(Fresh(n), task, cs), Item(0, Fresh(n)), Outdated(cs);
    OutdatedTwice(cs);
    SoloBegins(n, task, cs);
    SoloTakes(n, aged);
    SoloPasses(n, aged);
    SoloLaunches(n, aged);
    var first := [BeginRun(1, false)];
    Then(s, first, Solo(n, Fresh(n), AtLoop, 0, [item], aged), [Take(0)], Solo(n, Fresh(n), AtGate(item), 0, [], aged));
    var second := first + [Take(0)];
    Then(s, second, Solo(n, Fresh(n), AtGate(item), 0, [], aged), [PassGate(0)], Solo(n, Fresh(n), AtLimiter(item), 0, [], aged));
    var third := second + [PassGate(0)];
    Then(s, third, Solo(n, Fresh(n), AtLimiter(item), 0, [], aged), [PassLimiter(0)],
         Solo(n, Fresh(n), AtPacing(item), 0, [], aged));
    Then(s, third + [PassLimiter(0)], Solo(n, Fresh(n), AtPacing(item), 0, [], aged), [PassPacing(0)],
         Solo(n, Subtask(Running, n + 1, ""), InRunner(item), 1, [], aged));
  }

  lemma SoloSettles(n: nat, cs: seq<Reconcile>)
    ensures Run(Solo(n, Subtask(Running, n + 1, ""), InRunner(Item(0, Fresh(n))), 1, [], cs), [Settle(0, Done("t"))])
            == Solo(n, Subtask(Completed, n + 1, "t"), AtLoop, 0, [], Outdated(cs))
  {
    One(Solo(n, Subtask(Running, n + 1, ""), InRunner(Item(0, Fresh(n))), 1, [], cs), Settle(0, Done("t")));
  }

  lemma SoloFinishes(n: nat, subtask: Subtask, cs: seq<Reconcile>)
    ensures Run(Solo(n, subtask, AtLoop, 0, [], cs), [Take(0)]) == Solo(n, subtask, Finished, 0, [], Outdated(cs))
    ensures Run(Solo(n, subtask, Finished, 0, [], cs), [Gather]) == Ending(n, subtask, 0, Outdated(cs))
  {
    One(Solo(n, subtask, AtLoop, 0, [], cs), Take(0));
    One(Solo(n, subtask, Finished, 0, [], cs), Gather);
  }

  lemma LoneCompletes(subtask: Subtask)
    requires subtask.status.Completed?
    ensures FinalTask(Store([subtask], TaskRunning), false, false) == TaskCompleted
  {
    CountZero([subtask], Failed);
    CountZero([subtask], Pending);
    CountZero([subtask], Running);
  }

  lemma SoloFinalizes(n: nat, subtask: Subtask, cs: seq<Reconcile>)
    requires subtask.status.Completed?
    ensures Run(Ending(n, subtask, 0, cs), [FinalizeStep]) == Ending(n, subtask, 1, Outdated(cs))
    ensures Run(Ending(n, subtask, 1, cs), [FinalizeStep]) == Lone(subtask, TaskCompleted, cs, true)
  {
    One(Ending(n, subtask, 0, cs), FinalizeStep);
    One(Ending(n, subtask, 1, cs), FinalizeStep);
    LoneCompletes(subtask);
  }

  const TO_RETURN: seq<Action> := [Take(0)] + [Gather] + [FinalizeStep] + [FinalizeStep]

  /** The lone subtask is done and the run returns. */
  lemma SoloReturns(n: nat, subtask: Subtask, cs: seq<Reconcile>)
    requires subtask.status.Completed?
    ensures Run(Solo(n, subtask, AtLoop, 0, [], cs), TO_RETURN) == Lone(subtask, TaskCompleted, Outdated(cs), true)
  {
    var s, aged := Solo(n, subtask, AtLoop, 0, [], cs), Outdated(cs);
    OutdatedTwice(cs);
    SoloFinishes(n, subtask, cs);
    SoloFinishes(n, subtask, aged);
    SoloFinalizes(n, subtask, aged);
    Then(s, [Take(0)], Solo(n, subtask, Finished, 0, [], aged), [Gather], Ending(n, subtask, 0, aged));
    var second := [Take(0)] + [Gather];
    Then(s, second, Ending(n, subtask, 0, aged), [FinalizeStep], Ending(n, subtask, 1, aged));
    Then(s, second + [FinalizeStep], Ending(n, subtask, 1, aged), [FinalizeStep], Lone(subtask, TaskCompleted, aged, true));
  }

  lemma LoneHeals(subtask: Subtask, now: Subtask, aged: bool)
    requires subtask.status.Running?
    ensures var c := Reconcile(Store([subtask], TaskRunning), aged, Loaded);
            && Run(Lone(now, TaskCompleted, [c], true), [BeginReconcile(0)])
               == Lone(now, TaskStopped, [c.(stage := Healing(0))], true)
            && Run(Lone(now, TaskStopped, [c.(stage := Healing(0))], true), [ReconcileStep(0)])
               == Lone(subtask.(status := Pending), TaskStopped, [c.(stage := Healing(1))], true)
  {
    var c := Reconcile(Store([subtask], TaskRunning), aged, Loaded);
    One(Lone(now, TaskCompleted, [c], true), BeginReconcile(0));
    One(Lone(now, TaskStopped, [c.(stage := Healing(0))], true), ReconcileStep(0));
  }

  function Caught(stage: Stage): Reconcile {
    Reconcile(Store([Subtask(Running, 1, "")], TaskRunning), true, stage)
  }

  function InHand(cs: seq<Reconcile>): State {
    Solo(0, Subtask(Running, 1, ""), InRunner(Item(0, Fresh(0))), 1, [], cs)
  }

  lemma RunningLoads()
    ensures Run(InHand([]), [LoadSnapshot])
            == InHand([Caught(Loaded)])
  {
    One(InHand([]), LoadSnapshot);
  }

  lemma CaughtSettles()
    ensures Run(InHand([Caught(Loaded)]), [Settle(0, Done("t"))])
            == Solo(0, Subtask(Completed, 1, "t"), AtLoop, 0, [], [Caught(Loaded)])
  {
    assert Outdated([Caught(Loaded)]) == [Caught(Loaded)];
    SoloSettles(0, [Caught(Loaded)]);
  }

  lemma CaughtReturns(subtask: Subtask)
    requires subtask.status.Completed?
    ensures Run(Solo(0, subtask, AtLoop, 0, [], [Caught(Loaded)]), TO_RETURN)
            == Lone(subtask, TaskCompleted, [Caught(Loaded)], true)
  {
    assert Outdated([Caught(Loaded)]) == [Caught(Loaded)];
    SoloReturns(0, subtask, [Caught(Loaded)]);
  }

  lemma CaughtHeals(done: Subtask)
    ensures Run(Lone(done, TaskCompleted, [Caught(Loaded)], true), [BeginReconcile(0)] + [ReconcileStep(0)])
            == Lone(Subtask(Pending, 1, ""), TaskStopped, [Caught(Healing(1))], true)
  {
    var running := Subtask(Running, 1, "");
    LoneHeals(running, done, true);
    Then(Lone(done, TaskCompleted, [Caught(Loaded)], true), [BeginReconcile(0)],
         Lone(done, TaskStopped, [Caught(Healing(0))], true), [ReconcileStep(0)],
         Lone(running.(status := Pending), TaskStopped, [Caught(Healing(1))], true));
  }

  lemma UnseenCompletes()
    ensures Run(Run(InHand([Caught(Loaded)]), [Settle(0, Done("t"))]), TO_RETURN)
            == Lone(Subtask(Completed, 1, "t"), TaskCompleted, [Caught(Loaded)], true)
  {
    CaughtSettles();
    CaughtReturns(Subtask(Completed, 1, "t"));
  }

  lemma UnseenLoads()
    ensures Run(Run(Lone(Fresh(0), TaskPending, []), TO_RUNNER), [LoadSnapshot]) == InHand([Caught(Loaded)])
  {
    SoloToRunner(0, TaskPending, []);
    RunningLoads();
  }

  /** The source's order, with nothing but one run and one request. When the check comes no live run is found,
      and the finished subtask is pending again; what it stored is gone. */
  lemma LateCheckLoses() returns (loaded: State, done: State)
    ensures loaded == Run(Run(Lone(Fresh(0), TaskPending, []), TO_RUNNER), [LoadSnapshot])
    ensures done == Run(Run(loaded, [Settle(0, Done("t"))]), TO_RETURN)
    ensures done.store == Store([Subtask(Completed, 1, "t")], TaskCompleted)
    ensures Run(done, [BeginReconcile(0)] + [ReconcileStep(0)]).store == Store([Subtask(Pending, 1, "")], TaskStopped)
  {
    loaded := InHand([Caught(Loaded)]);
    UnseenLoads();
    UnseenCompletes();
    done := Lone(Subtask(Completed, 1, "t"), TaskCompleted, [Caught(Loaded)], true);
    CaughtHeals(Subtask(Completed, 1, "t"));
  }

  lemma LoneLoads(subtask: Subtask, task: TaskStatus, cs: seq<Reconcile>)
    ensures Run(Lone(subtask, task, cs), [LoadSnapshot])
            == Lone(subtask, task, cs + [Reconcile(Store([subtask], task), false, Loaded)])
  {
    One(Lone(subtask, task, cs), LoadSnapshot);
  }

  function First(stage: Stage): Reconcile {
    Reconcile(Store([Subtask(Running, 1, "")], TaskRunning), false, stage)
  }

  function Second(stage: Stage): Reconcile {
    Reconcile(Store([Subtask(Running, 1, "")], TaskStopped), false, stage)
  }

  lemma FirstBegins()
    ensures Run(Lone(Subtask(Running, 1, ""), TaskRunning, []), [LoadSnapshot] + [BeginReconcile(0)])
            == Lone(Subtask(Running, 1, ""), TaskStopped, [First(Healing(0))])
  {
    var running := Subtask(Running, 1, "");
    LoneLoads(running, TaskRunning, []);
    assert [] + [First(Loaded)] == [First(Loaded)];
    One(Lone(running, TaskRunning, [First(Loaded)]), BeginReconcile(0));
    Then(Lone(running, TaskRunning, []), [LoadSnapshot], Lone(running, TaskRunning, [First(Loaded)]),
         [BeginReconcile(0)], Lone(running, TaskStopped, [First(Healing(0))]));
  }

  lemma SecondBegins(c: Reconcile)
    ensures Run(Lone(Subtask(Running, 1, ""), TaskStopped, [c]), [LoadSnapshot] + [BeginReconcile(1)])
            == Lone(Subtask(Running, 1, ""), TaskStopped, [c, Second(Healing(0))])
  {
    var running := Subtask(Running, 1, "");
    LoneLoads(running, TaskStopped, [c]);
    assert [c] + [Second(Loaded)] == [c, Second(Loaded)];
    One(Lone(running, TaskStopped, [c, Second(Loaded)]), BeginReconcile(1));
    Then(Lone(running, TaskStopped, [c]), [LoadSnapshot], Lone(running, TaskStopped, [c, Second(Loaded)]),
         [BeginReconcile(1)], Lone(running, TaskStopped, [c, Second(Healing(0))]));
  }

  lemma SecondHeals(c: Reconcile)
    ensures Run(Lone(Subtask(Running, 1, ""), TaskStopped, [c, Second(Healing(0))]), [ReconcileStep(1)])
            == Lone(Fresh(1), TaskStopped, [c, Second(Healing(1))])
  {
    One(Lone(Subtask(Running, 1, ""), TaskStopped, [c, Second(Healing(0))]), ReconcileStep(1));
  }

  /** The run that the second request starts, up to the completion of the subtask. */
  lemma StartedCompletes(cs: seq<Reconcile>)
    ensures Run(Run(Lone(Fresh(1), TaskStopped, cs), TO_RUNNER), [Settle(0, Done("t"))])
            == Solo(1, Subtask(Completed, 2, "t"), AtLoop, 0, [], Outdated(cs))
  {
    SoloToRunner(1, TaskStopped, cs);
    OutdatedTwice(cs);
    SoloSettles(1, Outdated(cs));
  }

  lemma FirstHealsAgain(d: Reconcile)
    ensures Run(Solo(1, Subtask(Completed, 2, "t"), AtLoop, 0, [], Outdated([First(Healing(0)), d])), [ReconcileStep(0)]).store
            == Store([Subtask(Pending, 1, "")], TaskRunning)
  {
    One(Solo(1, Subtask(Completed, 2, "t"), AtLoop, 0, [], Outdated([First(Healing(0)), d])), ReconcileStep(0));
  }

  /** Two requests load after a crash, when no run is live; one heals and starts a run, which completes the
      subtask; the other then heals it once more. So new runs have to wait for a reconcile to be through. */
  lemma NewRunLoses() returns (healed: State, done: State)
    ensures Run(Lone(Subtask(Running, 1, ""), TaskRunning, []),
                [LoadSnapshot] + [BeginReconcile(0)] + ([LoadSnapshot] + [BeginReconcile(1)]) + [ReconcileStep(1)]) == healed
    ensures Run(Run(healed, TO_RUNNER), [Settle(0, Done("t"))]) == done
    ensures done.store == Store([Subtask(Completed, 2, "t")], TaskRunning)
    ensures Run(done, [ReconcileStep(0)]).store == Store([Subtask(Pending, 1, "")], TaskRunning)
  {
    var s, running, c := Lone(Subtask(Running, 1, ""), TaskRunning, []), Subtask(Running, 1, ""), First(Healing(0));
    var first := [LoadSnapshot] + [BeginReconcile(0)];
    var second := [LoadSnapshot] + [BeginReconcile(1)];
    FirstBegins();
    SecondBegins(c);
    Then(s, first, Lone(running, TaskStopped, [c]), second, Lone(running, TaskStopped, [c, Second(Healing(0))]));
    SecondHeals(c);
    healed := Lone(Fresh(1), TaskStopped, [c, Second(Healing(1))]);
    Then(s, first + second, Lone(running, TaskStopped, [c, Second(Healing(0))]), [ReconcileStep(1)], healed);
    StartedCompletes([c, Second(Healing(1))]);
    done := Solo(1, Subtask(Completed, 2, "t"), AtLoop, 0, [], Outdated([c, Second(Healing(1))]));
    FirstHealsAgain(Second(Healing(1)));
  }
}
