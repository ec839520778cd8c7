/** Runs from the empty system to the states the ownership protocol does not rule out. */
module OwnershipExamples {
  import opened Base
  import opened BinPack
  import opened Scheduler
  import opened Ownership
  import opened OwnershipRuns
  import opened OwnershipRestart
  import opened OwnershipStretches
  import opened DeletionBlocked
  import W = WorkerSlots
  import T = Topology

  const KEY := WorkerKey("n", "p", "w")
  const POD := Pod("n", "w")

  function Waiting(name: string): Sandbox {
    Sandbox("n", name, "p", "q", false, true, false, None)
  }

  /** One Worker with one Slot, which nobody has. */
  function FreeWorker(): W.Worker {
    W.Worker(map[0 := W.Slot("q", T.NO_RESOURCES, W.Free, W.NOBODY, None, false, "")], W.Backend(map[], {}))
  }

  function FreeReport(): WorkerState {
    WorkerState(KEY, true, map[0 := Info("q", W.Free, "")])
  }

  /** The Scheduler sees that Slot free. */
  predicate SeesItFree(s: System) {
    s.sched.workers == map[KEY := FreeReport()]
  }

  function Ready(): System {
    System(map["u" := Waiting("a")]["v" := Waiting("b")], Sched(map[KEY := FreeReport()], map[]),
      map[POD := FreeWorker()], Idle)
  }

  /** Two sandboxes wait for that Slot. */
  lemma ReadyReached() returns (states: seq<System>, events: seq<Event>)
    ensures Steps(states, events) && Initial(states[0]) && states[|events|] == Ready()
  {
    var s0 := System(map[], EMPTY, map[], Idle);
    var s1 := s0.(api := s0.api["u" := Waiting("a")]);
    var s2 := s1.(api := s1.api["v" := Waiting("b")]);
    var s3 := s2.(workers := s2.workers[POD := FreeWorker()]);
    var s4 := s3.(sched := Sched(map[KEY := FreeReport()], map[]));
    states := [s0, s1, s2, s3, s4];
    events :=
      [Create("u", Waiting("a")), Create("v", Waiting("b")), PodStarts(POD, FreeWorker()), Report(FreeReport())];
    hide StartStep, DeleteStep;
    assert WorldStep(s0, events[0], s1);
    assert WorldStep(s1, events[1], s2);
    assert WorldStep(s2, events[2], s3);
    assert Updated(s3.sched, FreeReport(), s4.sched);
    assert WorldStep(s3, events[3], s4);
    hide WorldStep;
    assert forall i :: 0 <= i < 4 ==> Next(states[i], events[i], states[i + 1]);
    hide Next;
    assert s4.api == Ready().api;
    assert s4.workers == Ready().workers;
  }

  lemma FreeForAll(s: System, u: UID)
    requires SeesItFree(s) && u in s.api && s.api[u].namespace == "n" && s.api[u].pool == "p" && s.api[u].profile == "q"
    ensures OnlyFree(s, u, KEY, 0)
  {
  }

  /** `u` is placed on the Slot. */
  lemma OnePlaced(s: System, u: UID, name: string) returns (states: seq<System>, events: seq<Event>)
    requires s.phase.Idle? && SeesItFree(s) && u in s.api && s.api[u] == Waiting(name) && u !in s.sched.assignments
    ensures Steps(states, events) && states[0] == s && |events| == 3
    ensures var o := Waiting(name).(place := Some(Place("w", 0)));
      && states[3].api == s.api[u := o] && states[3].workers == s.workers && states[3].phase.Idle?
      && states[3].sched.assignments == s.sched.assignments[u := AssignmentOf(u, o)]
      && states[3].sched.workers == map[KEY := WorkerState(KEY, true, map[0 := Info("q", W.Reserved, u)])]
  {
    FreeForAll(s, u);
    hide OnlyFree, Next;
    states, events := PlaceStretch(s, u, KEY, 0);
    var taken := states[3].sched.workers;
    assert taken.Keys == {KEY};
    assert taken[KEY].slots == map[0 := Info("q", W.Reserved, u)];
  }

  lemma OneStep(s: System, e: Event, s': System) returns (states: seq<System>, events: seq<Event>)
    requires Next(s, e, s')
    ensures Steps(states, events) && states == [s, s'] && events == [e]
  {
    hide Next;
    states, events := [s, s'], [e];
  }

  /** A deletion can get stuck: "u" is placed and deleted before it ran, its last write fails, and "v"
      gets its Slot. */
  lemma BlockedReached() returns (states: seq<System>, events: seq<Event>)
    ensures Trace(states, events) && Blocked(states[|events|], "u")
    ensures OwnedByOther(states[|events|], "u", states[|events|].api["u"])
  {
    hide Next, Blocked, OwnedByOther, OnlyFree, Call;
    states, events := ReadyReached();
    var b, eb := OnePlaced(Ready(), "u", "a");
    states, events := Joined(states, events, b, eb);
    var placed := b[3];
    var deleting := placed.(api := placed.api["u" := placed.api["u"].(deleting := true)]);
    assert Next(placed, Delete("u"), deleting) by { Deleting(placed, deleting, "u"); }
    b, eb := OneStep(placed, Delete("u"), deleting);
    states, events := Joined(states, events, b, eb);
    b, eb := DeleteStretch(deleting, "u");
    states, events := Joined(states, events, b, eb);
    var forgotten := b[5];
    ForgottenContended(deleting, forgotten);
    b, eb := FailedWriteLeadsToBlocked(forgotten, "u", "v");
    states, events := Joined(states, events, b, eb);
  }

  /** A deletion can get stuck on a Slot that is not there: "u" is placed but has not reserved its Slot,
      which is Free for the Worker, so that a layout without it is accepted. At its Stop call no Slot
      has an owner anywhere. */
  lemma UnknownSlotReached() returns (states: seq<System>, events: seq<Event>)
    ensures Trace(states, events) && Blocked(states[|events|], "u") && states[|events|].phase == Stopping("u")
    ensures POD in states[|events|].workers && 0 !in states[|events|].workers[POD].slots
    ensures forall v :: OwnsNothing(states[|events|], v)
  {
    hide Next, OnlyFree, Call, W.Step;
    var placed;
    placed, states, events := UPlaced();
    var shrunk := placed.(workers := map[POD := W.Worker(map[], W.Backend(map[], {}))]);
    Shrinking(placed, shrunk);
    var b, eb := OneStep(placed, WorkerDoes(POD, W.OpApply([])), shrunk);
    states, events := Joined(states, events, b, eb);
    b, eb := DeletedToStop(shrunk);
    states, events := Joined(states, events, b, eb);
  }

  /** Or on a Worker that is not there: its Pod vanishes and does not come back. */
  lemma MissingWorkerReached() returns (states: seq<System>, events: seq<Event>)
    ensures Trace(states, events) && Blocked(states[|events|], "u") && states[|events|].phase == Stopping("u")
    ensures states[|events|].workers == map[]
  {
    hide Next, OnlyFree, Call, W.Step;
    var placed;
    placed, states, events := UPlaced();
    var gone := placed.(workers := map[]);
    Vanishing(placed, gone);
    var b, eb := OneStep(placed, PodVanishes(POD), gone);
    states, events := Joined(states, events, b, eb);
    b, eb := DeletedToStop(gone);
    states, events := Joined(states, events, b, eb);
  }

  lemma UPlaced() returns (placed: System, states: seq<System>, events: seq<Event>)
    ensures Steps(states, events) && Initial(states[0]) && states[|events|] == placed && placed.phase.Idle?
    ensures "u" in placed.api && placed.api["u"] == Waiting("a").(place := Some(Place("w", 0)))
    ensures placed.workers == map[POD := FreeWorker()]
  {
    hide Next;
    states, events := ReadyReached();
    var b, eb := OnePlaced(Ready(), "u", "a");
    states, events := Joined(states, events, b, eb);
    placed := b[3];
  }

  lemma Shrinking(s: System, s': System)
    requires s.workers == map[POD := FreeWorker()]
    requires s' == s.(workers := map[POD := W.Worker(map[], W.Backend(map[], {}))])
    ensures Next(s, WorkerDoes(POD, W.OpApply([])), s')
  {
    var w := FreeWorker();
    assert T.Ids([]) == {};
    assert W.Accepts(w.slots, []);
    assert W.Applied(w.slots, []) == map[];
    assert s.workers[POD := s'.workers[POD]] == s'.workers;
  }

  lemma Vanishing(s: System, s': System)
    requires s.workers == map[POD := FreeWorker()] && s' == s.(workers := map[])
    ensures Next(s, PodVanishes(POD), s')
  {
    assert s.workers - {POD} == map[];
  }

  /** "u" is deleted and its reconcile gets to the Stop call. */
  lemma DeletedToStop(s: System) returns (states: seq<System>, events: seq<Event>)
    requires s.phase.Idle? && "u" in s.api && s.api["u"] == Waiting("a").(place := Some(Place("w", 0)))
    ensures Steps(states, events) && states[0] == s && |events| == 3
    ensures states[3] == s.(api := s.api["u" := s.api["u"].(deleting := true)], phase := Stopping("u"))
  {
    hide Next;
    var deleting := s.(api := s.api["u" := s.api["u"].(deleting := true)]);
    Deleting(s, deleting, "u");
    states, events := OneStep(s, Delete("u"), deleting);
    var b, eb := ToStopCall(deleting, "u");
    states, events := Joined(states, events, b, eb);
  }

  lemma Deleting(s: System, s': System, u: UID)
    requires u in s.api && s.api[u].finalizer && s' == s.(api := s.api[u := s.api[u].(deleting := true)])
    ensures Next(s, Delete(u), s')
  {
  }

  /** The Scheduler has forgotten "u" and sees the Slot free again, "v" still waits. */
  lemma ForgottenContended(s: System, s': System)
    requires s.api.Keys == {"u", "v"} && s.api["v"] == Waiting("b") && s.workers == map[POD := FreeWorker()]
    requires s.api["u"] == Waiting("a").(place := Some(Place("w", 0)), deleting := true)
    requires s.sched.assignments == map["u" := AssignmentOf("u", Waiting("a").(place := Some(Place("w", 0))))]
    requires s.sched.workers == map[KEY := WorkerState(KEY, true, map[0 := Info("q", W.Reserved, "u")])]
    requires s' == s.(sched := Release(s.sched, "u"), phase := RemovingFinalizer("u"))
    ensures Contended(s', "u", "v")
  {
    assert s'.sched.workers[KEY].slots == FreeReport().slots;
    assert SeesItFree(s');
    FreeForAll(s', "v");
    hide OnlyFree;
  }

  /** A new assignment before a restart is recovered from can place two live sandboxes on one Slot,
      even when the Worker reports the truth: "v" is placed but has not reserved its Slot yet. */
  lemma EarlyAssignmentPlacesTwice() returns (states: seq<System>, events: seq<Event>)
    ensures Trace(states, events) && PlacedTwice(states[|events|])
  {
    hide Next, OnlyFree, Call;
    states, events := ReadyReached();
    var b, eb := OnePlaced(Ready(), "v", "b");
    states, events := Joined(states, events, b, eb);
    var placed := b[3];
    var lost := placed.(sched := EMPTY);
    assert Next(placed, Restart, lost) by { Restarting(placed, lost); }
    b, eb := OneStep(placed, Restart, lost);
    states, events := Joined(states, events, b, eb);
    var seen := lost.(sched := Sched(map[KEY := FreeReport()], map[]));
    assert Next(lost, Report(FreeReport()), seen) by { Reporting(lost, seen); }
    b, eb := OneStep(lost, Report(FreeReport()), seen);
    states, events := Joined(states, events, b, eb);
    b, eb := OnePlaced(seen, "u", "a");
    states, events := Joined(states, events, b, eb);
    assert !PlacedApart(b[3], "u", "v");
  }

  lemma Restarting(s: System, s': System)
    requires s.phase.Idle? && s' == s.(sched := EMPTY)
    ensures Next(s, Restart, s')
  {
  }

  lemma Reporting(s: System, s': System)
    requires s.sched == EMPTY && s' == s.(sched := Sched(map[KEY := FreeReport()], map[]))
    ensures Next(s, Report(FreeReport()), s')
  {
    assert Updated(s.sched, FreeReport(), s'.sched);
  }
}
