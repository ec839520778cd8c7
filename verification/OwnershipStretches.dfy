/** Stretches of uninterrupted steps of the ownership protocol, and putting them together to runs. */
module OwnershipStretches {
  import opened Base
  import opened BinPack
  import opened Scheduler
  import opened Ownership
  import opened OwnershipRuns
  import W = WorkerSlots

  lemma Joined(a: seq<System>, ea: seq<Event>, b: seq<System>, eb: seq<Event>)
    returns (states: seq<System>, events: seq<Event>)
    requires Steps(a, ea) && Steps(b, eb) && a[|ea|] == b[0]
    ensures states == a + b[1..] && events == ea + eb && Steps(states, events)
    ensures states[0] == a[0] && states[|events|] == b[|eb|]
  {
    hide Next;
    states, events := a + b[1..], ea + eb;
    forall i | 0 <= i < |events| ensures Next(states[i], events[i], states[i + 1]) {
      if i < |ea| {
        assert Next(a[i], ea[i], a[i + 1]);
      } else {
        assert Next(b[i - |ea|], eb[i - |ea|], b[i - |ea| + 1]);
        assert states[i] == b[i - |ea|];
      }
    }
  }

  // ---------------------------------------------------------------- placing on the only free Slot

  /** The Slot `id` of Worker `k` is the only one free for `u`. */
  ghost predicate OnlyFree(s: System, u: UID, k: WorkerKey, id: SlotID)
    requires u in s.api
  {
    forall x, j :: FreeFor(s.sched, RequestOf(u, s.api[u]), x, j) <==> x == k && j == id
  }

  ghost predicate Placeable(s: System, u: UID) {
    && u in s.api && !s.api[u].deleting && s.api[u].finalizer && s.api[u].place.None? && s.api[u].profile != ""
    && u !in s.sched.assignments
  }

  /** The Scheduler after `u` took Slot `id` of Worker `k`. */
  function TakenBy(s: System, u: UID, k: WorkerKey, id: SlotID): Sched
    requires u in s.api && Visible(s.sched, k, id)
  {
    Take(s.sched, k, id, u).(assignments := s.sched.assignments[u := AssignmentFor(RequestOf(u, s.api[u]), k, id)])
  }

  lemma OnlyFreeTaken(s: System, u: UID, k: WorkerKey, id: SlotID)
    requires Placeable(s, u) && OnlyFree(s, u, k, id)
    ensures Visible(s.sched, k, id) && k == KeyOf(s.api[u], k.name)
    ensures Assign(s.sched, RequestOf(u, s.api[u])) ==
      (TakenBy(s, u, k, id), Assigned(AssignmentOf(u, s.api[u].(place := Some(Place(k.name, id))))))
  {
    var req := RequestOf(u, s.api[u]);
    assert FreeFor(s.sched, req, k, id);
    NoCapacityIff(s.sched, req);
    NewAssignmentTakesOneSlot(s.sched, req);
    assert FreeFor(s.sched, req, Assign(s.sched, req).1.assignment.worker, Assign(s.sched, req).1.assignment.slotID);
  }

  /** A waiting sandbox is scheduled onto the only free Slot and the placement is persisted. */
  lemma PlaceStretch(s: System, u: UID, k: WorkerKey, id: SlotID) returns (states: seq<System>, events: seq<Event>)
    requires s.phase.Idle? && Placeable(s, u) && OnlyFree(s, u, k, id)
    ensures Steps(states, events) && states[0] == s && events == [Fetch(u, true), Schedule(true), Persist(Succeeds)]
    ensures Visible(s.sched, k, id) && k == KeyOf(s.api[u], k.name)
    ensures states[3] ==
      System(s.api[u := s.api[u].(place := Some(Place(k.name, id)))], TakenBy(s, u, k, id), s.workers, Idle)
  {
    OnlyFreeTaken(s, u, k, id);
    var o := s.api[u].(place := Some(Place(k.name, id)));
    var sched := TakenBy(s, u, k, id);
    hide Assign, TakenBy, OnlyFree, WorldStep, DeleteStep;
    var s1 := s.(phase := Assigning(u));
    var s2 := s.(sched := sched, phase := Persisting(u, AssignmentOf(u, o)));
    var s3 := System(s.api[u := o], sched, s.workers, Idle);
    states, events := [s, s1, s2, s3], [Fetch(u, true), Schedule(true), Persist(Succeeds)];
    assert StartStep(s, events[0], s1) && StartStep(s1, events[1], s2) && StartStep(s2, events[2], s3);
    hide StartStep;
  }

  // ---------------------------------------------------------------- reserving the Slot

  ghost function Reserved(s: System, u: UID): System
    requires u in s.api && s.api[u].place.Some?
  {
    var o := s.api[u];
    Call(s.(phase := Reserving(u)), o, W.OpReserve(o.place.value.slotID, IdentityOf(u, o)), Succeeds, Launching(u))
  }

  /** A start restores the recorded placement and reserves the Slot. */
  lemma ReserveStretch(s: System, u: UID) returns (states: seq<System>, events: seq<Event>)
    requires s.phase.Idle? && u in s.api && !s.api[u].deleting && s.api[u].finalizer && s.api[u].place.Some?
    requires u in s.sched.assignments && s.sched.assignments[u] == AssignmentOf(u, s.api[u])
    ensures Steps(states, events) && states[0] == s &&
      events == [Fetch(u, true), RestoreAssignment, ReserveSlot(Succeeds)]
    ensures states[3] == Reserved(s, u)
  {
    hide W.Step, WorldStep, DeleteStep, Call;
    var s1, s2, s3 := s.(phase := Restoring(u)), s.(phase := Reserving(u)), Reserved(s, u);
    states, events := [s, s1, s2, s3], [Fetch(u, true), RestoreAssignment, ReserveSlot(Succeeds)];
    assert StartStep(s, events[0], s1) && StartStep(s1, events[1], s2) && StartStep(s2, events[2], s3);
    hide StartStep, Reserved;
  }

  lemma ReserveFree(w: W.Worker, id: SlotID, who: W.Identity)
    requires id in w.slots && w.slots[id].state == W.Free && W.ValidIdentity(who)
    ensures var (w', reply) := W.Step(w, W.OpReserve(id, who));
      reply == W.Done && id in w'.slots && w'.slots[id].state == W.Reserved && w'.slots[id].owner == who
  {
  }

  // ---------------------------------------------------------------- deleting what never ran

  /** Stopping and releasing a Free Slot is answered without error and changes nothing. */
  lemma FreeSlotStops(w: W.Worker, id: SlotID, who: W.Identity, a: W.StopAnswers, b: W.ReleaseAnswers)
    requires id in w.slots && w.slots[id].state == W.Free && W.ValidIdentity(who)
    ensures W.Step(w, W.OpStop(id, who, a)) == (w, W.Done) && W.Step(w, W.OpRelease(id, who, b)) == (w, W.Done)
  {
    assert w.slots[id := w.slots[id]] == w.slots;
  }

  /** The reconcile of a deleting sandbox gets to its Stop call. */
  lemma ToStopCall(s: System, u: UID) returns (states: seq<System>, events: seq<Event>)
    requires s.phase.Idle? && u in s.api && s.api[u].deleting && s.api[u].finalizer && s.api[u].place.Some?
    ensures Steps(states, events) && states == [s, s.(phase := Marking(u)), s.(phase := Stopping(u))]
    ensures events == [Fetch(u, true), MarkStopping(Succeeds)]
  {
    hide WorldStep;
    states, events := [s, s.(phase := Marking(u)), s.(phase := Stopping(u))], [Fetch(u, true), MarkStopping(Succeeds)];
    assert StartStep(s, events[0], states[1]);
    hide StartStep;
    assert DeleteStep(states[1], events[1], states[2]);
    hide DeleteStep;
  }

  /** The deletion of a sandbox whose Slot is Free goes through to its last write. */
  lemma DeleteStretch(s: System, u: UID) returns (states: seq<System>, events: seq<Event>)
    requires s.phase.Idle? && u in s.api && s.api[u].deleting && s.api[u].finalizer && s.api[u].place.Some?
    requires W.ValidIdentity(IdentityOf(u, s.api[u])) && PodOf(s.api[u]) in s.workers
    requires var w := s.workers[PodOf(s.api[u])]; var id := s.api[u].place.value.slotID;
      id in w.slots && w.slots[id].state == W.Free
    ensures Steps(states, events) && states[0] == s && |events| == 5
    ensures states[5] == s.(sched := Release(s.sched, u), phase := RemovingFinalizer(u))
  {
    var o := s.api[u];
    FreeSlotStops(s.workers[PodOf(o)], o.place.value.slotID, IdentityOf(u, o), W.GOOD_STOP, W.GOOD_RELEASE);
    hide W.Step, Release, WorldStep;
    var s1, s2, s3, s4 := s.(phase := Marking(u)), s.(phase := Stopping(u)), s.(phase := Releasing(u)),
      s.(phase := Forgetting(u));
    var s5 := s.(sched := Release(s.sched, u), phase := RemovingFinalizer(u));
    states := [s, s1, s2, s3, s4, s5];
    events :=
      [Fetch(u, true), MarkStopping(Succeeds), StopSandbox(Succeeds, W.GOOD_STOP),
       ReleaseSlot(Succeeds, W.GOOD_RELEASE), Forget];
    assert s.workers[PodOf(o) := s.workers[PodOf(o)]] == s.workers;
    assert StartStep(s, events[0], s1);
    hide StartStep;
    assert DeleteStep(s1, events[1], s2);
    assert DeleteStep(s2, events[2], s3);
    assert DeleteStep(s3, events[3], s4);
    assert DeleteStep(s4, events[4], s5);
    hide DeleteStep;
    assert forall i :: 0 <= i < 5 ==> Next(states[i], events[i], states[i + 1]);
  }
}
