/** The Sandbox reconciler as the source writes it. One call of Reconcile runs without interleaving;
    its ghost history shows that what it does is a run of the ownership protocol, with each event
    forced by the phase it is in and the answers of the outside world. */
module SandboxReconciler {
  import opened Base
  import opened BinPack
  import opened Scheduler
  import opened Ownership
  import opened OwnershipRuns
  import opened ReconcileOutcomes
  import D = DeletionBlocked
  import M = MemoryScheduler
  import W = WorkerSlots

  /** What the API server, the Pod lookup and the Workers answer during one reconcile. */
  datatype Answers = Answers(poolReady: bool, finalizer: Outcome, profileKnown: bool, persisted: Outcome,
                             endpointFound: bool, reserve: Outcome, containerGiven: bool, containerOk: bool,
                             start: W.StartAnswers, snapshotReady: bool, restore: W.RestoreAnswers, launch: Outcome,
                             marked: Outcome, stop: Outcome, stopAnswers: W.StopAnswers, release: Outcome,
                             releaseAnswers: W.ReleaseAnswers, removed: Outcome)

  /** The one event that can come next. */
  function EventFor(phase: Phase, fromSnapshot: bool, ans: Answers): Event
    requires !phase.Idle?
  {
    match phase
    case AddingFinalizer(_) => AddFinalizer(ans.finalizer)
    case Assigning(_) => Schedule(ans.profileKnown)
    case Persisting(_, _) => Persist(ans.persisted)
    case Restoring(_) => RestoreAssignment
    case Reserving(_) => if ans.endpointFound then ReserveSlot(ans.reserve) else GiveUp
    case Launching(_) =>
      if fromSnapshot then (if ans.snapshotReady then StartFromSnapshot(ans.launch, ans.restore) else GiveUp)
      else (if ans.containerGiven then StartSandbox(ans.launch, ans.containerOk, ans.start) else GiveUp)
    case Marking(_) => MarkStopping(ans.marked)
    case Stopping(_) => if ans.endpointFound then StopSandbox(ans.stop, ans.stopAnswers) else GiveUp
    case Releasing(_) => ReleaseSlot(ans.release, ans.releaseAnswers)
    case Forgetting(_) => Forget
    case RemovingFinalizer(_) => RemoveFinalizer(ans.removed)
  }

  /** From `from` on, the history is one reconcile of `u` under `ans`. */
  ghost predicate Follows(states: seq<System>, events: seq<Event>, from: nat, u: UID, ans: Answers) {
    && Steps(states, events) && from < |events|
    && states[from].phase.Idle? && events[from] == Fetch(u, ans.poolReady)
    && forall i :: from < i < |events| ==>
         && !states[i].phase.Idle? && states[i].phase.u == u && u in states[i].api
         && events[i] == EventFor(states[i].phase, states[i].api[u].fromSnapshot, ans)
  }

  lemma FollowsOn(states: seq<System>, events: seq<Event>, from: nat, u: UID, ans: Answers, e: Event, s': System)
    requires Follows(states, events, from, u, ans) && Next(states[|events|], e, s')
    requires !states[|events|].phase.Idle? && states[|events|].phase.u == u && u in states[|events|].api
    requires e == EventFor(states[|events|].phase, states[|events|].api[u].fromSnapshot, ans)
    ensures Follows(states + [s'], events + [e], from, u, ans)
  {
    hide Next;
    var states', events' := states + [s'], events + [e];
    assert forall i :: 0 <= i < |states| ==> states'[i] == states[i];
    assert forall i :: 0 <= i < |events| ==> events'[i] == events[i];
    assert forall i :: 0 <= i < |events'| ==> Next(states'[i], events'[i], states'[i + 1]);
  }

  lemma FollowsFrom(states: seq<System>, events: seq<Event>, u: UID, ans: Answers, s': System)
    requires Steps(states, events) && states[|events|].phase.Idle? &&
      Next(states[|events|], Fetch(u, ans.poolReady), s')
    ensures Follows(states + [s'], events + [Fetch(u, ans.poolReady)], |events|, u, ans)
  {
    hide Next;
    var states', events' := states + [s'], events + [Fetch(u, ans.poolReady)];
    assert forall i :: 0 <= i < |states| ==> states'[i] == states[i];
    assert forall i :: 0 <= i < |events| ==> events'[i] == events[i];
    assert forall i :: 0 <= i < |events'| ==> Next(states'[i], events'[i], states'[i + 1]);
  }

  // ---------------------------------------------------------------- reconciles in which nothing fails

  /** Pool, Pod, Worker and runtime do what they are asked when `u` is to be started. */
  predicate StartIsServed(s: System, u: UID, ans: Answers)
    requires u in s.api
  {
    && ans.poolReady && ans.endpointFound && ans.reserve.Succeeds? && ans.launch.Succeeds?
    && (if s.api[u].fromSnapshot then ans.snapshotReady && SnapshotWorks(ans.restore)
        else ans.containerGiven && ans.containerOk && RuntimeWorks(s, s.api[u], ans.start))
  }

  predicate StopIsServed(ans: Answers) {
    && ans.marked.Succeeds? && ans.endpointFound
    && ans.stop.Succeeds? && ans.stopAnswers == W.GOOD_STOP
    && ans.release.Succeeds? && ans.releaseAnswers == W.GOOD_RELEASE
  }

  /** Every call of a deletion was answered without error. */
  predicate CallsAnswered(ans: Answers) {
    ans.marked.Succeeds? && ans.endpointFound && ans.stop.Succeeds? && ans.release.Succeeds?
  }

  /** Live, with its finalizer. */
  predicate Live(s: System, u: UID) {
    u in s.api && !s.api[u].deleting && s.api[u].finalizer
  }

  predicate Leaving(s: System, u: UID) {
    u in s.api && s.api[u].deleting && s.api[u].finalizer
  }

  /** What the Scheduler records for a placed sandbox. */
  predicate RecordedFor(u: UID, o: Sandbox, a: Assignment) {
    Named(u, o, a) && o.place == Some(Place(a.worker.name, a.slotID))
  }

  /** An assignment ends with the sandbox where it belongs, in the Scheduler and, unless the write fails,
      in its status; or with nothing changed if it belongs nowhere. */
  ghost predicate AssignEnds(s: System, u: UID, ans: Answers, s': System)
    requires u in s.api
  {
    if !ans.profileKnown then s'.api == s.api && s'.sched == s.sched
    else if u in s'.sched.assignments then
      var place := Some(Place(s'.sched.assignments[u].worker.name, s'.sched.assignments[u].slotID));
      && PlacedRight(s, u, place) && (u !in s.sched.assignments ==> Named(u, s.api[u], s'.sched.assignments[u]))
      && s'.sched.assignments - {u} == s.sched.assignments - {u}
      && s'.api == if ans.persisted.Fails? then s.api else s.api[u := s.api[u].(place := place)]
    else
      PlacedRight(s, u, None) && s'.api == s.api && s'.sched == s.sched
  }

  /** The operations on one Slot, as the Worker of a Pod answers them. */
  function Perform(w: W.Worker, op: W.Op): (W.Worker, W.Reply)
    requires !op.OpApply? && !op.OpVanish?
    ensures Perform(w, op) == W.Step(w, op)
  {
    if !W.RequestOk(op) then (w, W.Invalid)
    else if op.id !in w.slots then (w, W.NotFound)
    else
      var (s, b, reply) := W.OnSlot(w.slots[op.id], w.backend, op);
      (W.Worker(w.slots[op.id := s], b), reply)
  }

  // ---------------------------------------------------------------- what its calls lead to

  lemma AssignLeads(s: System, u: UID, ans: Answers, s': System)
    requires u in s.api && ans.profileKnown
    requires var (sched, reply) := Assign(s.sched, RequestOf(u, s.api[u]));
      && s'.sched == sched
      && s'.api == if ans.persisted.Fails? || !reply.Assigned? then s.api
                   else s.api[u := s.api[u].(place := Some(Place(reply.assignment.worker.name,
                                                                  reply.assignment.slotID)))]
    ensures AssignEnds(s, u, ans, s')
  {
    AssignPlacesRight(s, u);
    AssignedAssignments(s.sched, RequestOf(u, s.api[u]));
    hide Assign, PlacedRight;
  }

  lemma UnknownProfileEnds(s: System, u: UID, ans: Answers, s': System)
    requires u in s.api && !ans.profileKnown && s'.api == s.api && s'.sched == s.sched
    ensures AssignEnds(s, u, ans, s')
  {
  }

  lemma SameRuns(s: System, s': System, u: UID, ans: Answers)
    requires s'.api == s.api && s'.workers == s.workers
    ensures Runs(s', u) == Runs(s, u)
    ensures u in s.api && HasSlot(s, s.api[u]) ==>
      HasSlot(s', s.api[u]) && forall s'' :: OwnedBy(s, s'', u, s.api[u]) == OwnedBy(s', s'', u, s.api[u])
    ensures u in s.api && s.api[u].place.Some? ==> Startable(s', u) == Startable(s, u)
    ensures u in s.api ==> StartIsServed(s', u, ans) == StartIsServed(s, u, ans)
  {
  }

  /** Having fetched the object changes nothing in what is asked of the rest. */
  lemma FetchedEnds(s: System, s0: System, u: UID, ans: Answers, s': System)
    requires s0 == s.(phase := s0.phase) && u in s.api
    ensures AssignEnds(s0, u, ans, s') == AssignEnds(s, u, ans, s')
    ensures s.api[u].place.Some? ==>
      && StartEnds(s0, u, s') == StartEnds(s, u, s') && StartIsServed(s0, u, ans) == StartIsServed(s, u, ans)
      && Recordable(s0, u) == Recordable(s, u)
  {
  }

  /** A reconcile goes on after its Release only when the Slot is Free. */
  lemma ReleaseLeads(s: System, u: UID, a: W.ReleaseAnswers, outcome: Outcome, s': System)
    requires u in s.api && s.api[u].place.Some?
    requires var o := s.api[u];
      s' == Call(s, o, W.OpRelease(o.place.value.slotID, IdentityOf(u, o), a), outcome, Forgetting(u))
    requires !s'.phase.Idle?
    ensures SlotFree(s', s.api[u])
  {
    var o := s.api[u];
    ReleasedNotOwned(s.workers[PodOf(o)], o.place.value.slotID, IdentityOf(u, o), a);
    hide W.Step;
  }

  /** A Stop that nothing keeps from its Worker goes on exactly when the Slot is nobody else's, and so
      does the Release after it. */
  lemma StopLeads(s: System, u: UID, ans: Answers, s1: System)
    requires u in s.api && s.api[u].place.Some? && StopIsServed(ans)
    requires var o := s.api[u];
      s1 == Call(s, o, W.OpStop(o.place.value.slotID, IdentityOf(u, o), ans.stopAnswers), ans.stop, Releasing(u))
    ensures s1.phase == if D.Served(s, u, s.api[u]) then Releasing(u) else Idle
    ensures var o := s.api[u];
      D.Served(s, u, o) ==>
        Call(s1, o, W.OpRelease(o.place.value.slotID, IdentityOf(u, o), ans.releaseAnswers), ans.release,
             Forgetting(u)).phase == Forgetting(u)
  {
    D.StopGoesOnIff(s, u);
    hide D.Served, Call;
  }

  class Reconciler {
    const scheduler: M.Memory
    var api: map<UID, Sandbox>
    var workers: map<Pod, W.Worker>
    ghost var phase: Phase
    ghost var states: seq<System>
    ghost var events: seq<Event>
    ghost var from: nat

    constructor (scheduler: M.Memory)
      ensures this.scheduler == scheduler && Valid() && phase.Idle? &&
        View() == System(map[], scheduler.View(), map[], Idle)
    {
      this.scheduler := scheduler;
      api, workers, phase := map[], map[], Idle;
      states, events, from := [System(map[], scheduler.View(), map[], Idle)], [], 0;
    }

    ghost function View(): System
      reads this, scheduler
    {
      System(api, scheduler.View(), workers, phase)
    }

    ghost predicate Valid()
      reads this, scheduler
    {
      Steps(states, events) && states[|events|] == View()
    }

    /** In the middle of a reconcile of `u`. */
    ghost predicate Under(u: UID, ans: Answers)
      reads this, scheduler
    {
      && Follows(states, events, from, u, ans) && Steps(states, events) && states[|events|] == View()
      && (phase.Idle? || (phase.u == u && u in api))
    }

    /** The last action was the event the phase calls for. */
    ghost method Record(u: UID, ans: Answers)
      requires Follows(states, events, from, u, ans)
      requires !states[|events|].phase.Idle? && states[|events|].phase.u == u && u in states[|events|].api
      requires Next(states[|events|], EventFor(states[|events|].phase, states[|events|].api[u].fromSnapshot, ans),
        View())
      requires phase.Idle? || (phase.u == u && u in api)
      modifies this`states, this`events
      ensures Under(u, ans) && |events| == old(|events|) + 1
      ensures states == old(states) + [View()] && events[..|events| - 1] == old(events)
    {
      var s := states[|events|];
      var e := EventFor(s.phase, s.api[u].fromSnapshot, ans);
      FollowsOn(states, events, from, u, ans, e, View());
      states := states + [View()];
      events := events + [e];
    }

    /** Reads the object and the pool; where to go on is decided by what was read. */
    method FetchSandbox(u: UID, ans: Answers)
      requires Valid() && phase.Idle?
      modifies this
      ensures Under(u, ans) && phase == Begin(old(View()), u, ans.poolReady) && from == |old(events)|
      ensures api == old(api) && workers == old(workers) && old(states) <= states && old(events) <= events
    {
      hide WorldStep, DeleteStep, Follows;
      ghost var s := View();
      from := |events|;
      phase := Begin(s, u, ans.poolReady);
      FollowsFrom(states, events, u, ans, View());
      states, events := states + [View()], events + [Fetch(u, ans.poolReady)];
    }

    method Reconcile(u: UID, ans: Answers)
      requires Valid() && phase.Idle?
      modifies this, scheduler
      ensures Valid() && phase.Idle? && from == |old(events)| && Follows(states, events, from, u, ans)
      ensures old(states) <= states && old(events) <= events
      ensures u !in old(api) || (old(api[u].deleting) && !old(api[u].finalizer)) ==> View() == old(View())
      ensures u in old(api) && !old(api[u].deleting) && !old(api[u].finalizer) ==>
        View() == if ans.finalizer.Fails? then old(View())
                  else old(View()).(api := old(api)[u := old(api[u]).(finalizer := true)])
      ensures old(Live(View(), u)) && !ans.poolReady ==> View() == old(View())
      ensures old(Live(View(), u)) && old(api[u].place).None? && ans.poolReady ==>
        workers == old(workers) && AssignEnds(old(View()), u, ans, View())
      ensures old(Live(View(), u)) && old(api[u].place).Some? && ans.poolReady ==> if old(Recordable(View(), u))
        then u in scheduler.View().assignments && RecordedFor(u, old(api[u]), scheduler.View().assignments[u])
        else View() == old(View())
      ensures old(Live(View(), u)) && old(api[u].place).Some? && StartIsServed(old(View()), u, ans) ==>
        StartEnds(old(View()), u, View())
      ensures old(Leaving(View(), u)) && u !in api ==>
        && api == old(api) - {u} && u !in scheduler.View().assignments
        && (old(api[u].place).Some? ==> SlotFree(View(), old(api[u])) && CallsAnswered(ans))
      ensures old(Leaving(View(), u)) && u in api ==> api == old(api)
      ensures old(Leaving(View(), u)) && (old(api[u].place).Some? ==> StopIsServed(ans)) && ans.removed.Succeeds? ==>
        (u !in api <==> (old(api[u].place).Some? ==> D.Served(old(View()), u, old(api[u]))))
    {
      hide Next, Follows, Steps, StartEnds, AssignEnds, Recordable, RuntimeWorks, SnapshotWorks;
      ghost var s := View();
      FetchSandbox(u, ans);
      ghost var s0 := View();
      if u !in api {
        return;
      }
      var o := api[u];
      if o.deleting {
        if o.place.Some? {
          D.SameServed(s, s0, u);
        }
        SyncDelete(u, ans);
        return;
      }
      if !o.finalizer {
        EnsureFinalizer(u, ans);
        return;
      }
      if !ans.poolReady {
        return;
      }
      if o.place.None? {
        SyncAssign(u, ans);
      } else {
        SyncStart(u, ans);
      }
      FetchedEnds(s, s0, u, ans, View());
    }

    method EnsureFinalizer(u: UID, ans: Answers)
      requires Under(u, ans) && phase == AddingFinalizer(u)
      modifies this
      ensures Under(u, ans) && phase.Idle? && from == old(from) && old(states) <= states && old(events) <= events
      ensures View() == if ans.finalizer.Fails? then old(View()).(phase := Idle)
                        else old(View()).(api := old(api)[u := old(api[u]).(finalizer := true)], phase := Idle)
    {
      hide WorldStep, DeleteStep, Follows, Steps;
      if !ans.finalizer.Fails? {
        api := api[u := api[u].(finalizer := true)];
      }
      phase := Idle;
      Record(u, ans);
    }

    /** Picks a Slot and records it in the status. */
    method SyncAssign(u: UID, ans: Answers)
      requires Under(u, ans) && phase == Assigning(u)
      modifies this, scheduler
      ensures Under(u, ans) && phase.Idle? && from == old(from) && old(states) <= states && old(events) <= events
      ensures workers == old(workers) && AssignEnds(old(View()), u, ans, View())
    {
      hide WorldStep, DeleteStep, Follows, Steps, Assign, AssignEnds;
      ghost var s := View();
      if !ans.profileKnown {
        phase := Idle;
        Record(u, ans);
        assert AssignEnds(s, u, ans, View()) by { UnknownProfileEnds(s, u, ans, View()); }
        return;
      }
      var reply := scheduler.Assign(RequestOf(u, api[u]));
      phase := if reply.Assigned? then Persisting(u, reply.assignment) else Idle;
      Record(u, ans);
      if reply.Assigned? {
        PersistAssignment(u, reply.assignment, ans);
      }
      AssignLeads(s, u, ans, View());
    }

    method PersistAssignment(u: UID, a: Assignment, ans: Answers)
      requires Under(u, ans) && phase == Persisting(u, a)
      modifies this
      ensures Under(u, ans) && phase.Idle? && from == old(from) && old(states) <= states && old(events) <= events
      ensures View() == old(View()).(phase := Idle, api := if ans.persisted.Fails? then old(api)
                        else old(api)[u := old(api[u]).(place := Some(Place(a.worker.name, a.slotID)))])
    {
      hide WorldStep, DeleteStep, Follows, Steps;
      if !ans.persisted.Fails? {
        api := api[u := api[u].(place := Some(Place(a.worker.name, a.slotID)))];
      }
      phase := Idle;
      Record(u, ans);
    }

    /** One call to a Worker. The caller goes on only when it was answered without error. */
    method CallWorker(o: Sandbox, op: W.Op, outcome: Outcome, ghost next: Phase) returns (ok: bool)
      requires o.place.Some? && !op.OpApply? && !op.OpVanish?
      modifies this`workers, this`phase
      ensures View() == Call(old(View()), o, op, outcome, next)
      ensures phase == if ok then next else Idle
      ensures ok <==> outcome.Succeeds? && PodOf(o) in old(workers) && W.Step(old(workers)[PodOf(o)], op).1 == W.Done
    {
      hide W.Step, Perform, W.OnSlot, W.RequestOk, Steps, Follows;
      ghost var s := View();
      var pod := Pod(o.namespace, o.place.value.worker);
      if outcome.Fails? || pod !in workers {
        phase := Idle;
        return false;
      }
      var (w, reply) := Perform(workers[pod], op);
      assert (w, reply) == W.Step(workers[pod], op);
      workers := workers[pod := w];
      ok := outcome.Succeeds? && reply == W.Done;
      phase := if ok then next else Idle;
      assert View() == s.(workers := s.workers[pod := w], phase := phase);
    }

    /** Restores the assignment, then reserves and starts on the assigned Slot. */
    method SyncStart(u: UID, ans: Answers)
      requires Under(u, ans) && phase == Restoring(u) && api[u].place.Some?
      modifies this, scheduler
      ensures Under(u, ans) && phase.Idle? && from == old(from) && old(states) <= states && old(events) <= events
      ensures api == old(api)
      ensures StartIsServed(old(View()), u, ans) ==> StartEnds(old(View()), u, View())
      ensures if old(Recordable(View(), u))
        then u in scheduler.View().assignments && RecordedFor(u, api[u], scheduler.View().assignments[u])
        else scheduler.View() == old(scheduler.View()) && workers == old(workers)
    {
      ghost var s := View();
      assert u in s.api;
      hide Next, Under, Call, Runs, Recordable, Startable, StartIsServed, Restore, AssignmentOf;
      RestoreIffRecordable(s, u);
      var restored := RestoreAssignment(u, ans);
      SameRuns(s, View(), u, ans);
      if restored {
        ReserveAndLaunch(u, ans);
      }
    }

    method ReserveAndLaunch(u: UID, ans: Answers)
      requires Under(u, ans) && phase == Reserving(u) && api[u].place.Some?
      modifies this
      ensures Under(u, ans) && phase.Idle? && from == old(from) && old(states) <= states && old(events) <= events
      ensures api == old(api)
      ensures StartIsServed(old(View()), u, ans) ==>
        && (Runs(View(), u) <==> Runs(old(View()), u) || Startable(old(View()), u))
        && (Startable(old(View()), u) ==> OwnedBy(old(View()), View(), u, old(api[u])))
    {
      ghost var s := View();
      assert u in s.api;
      hide Next, Under, Call, Runs, Startable, RuntimeWorks, OwnedBy;
      var reserved := ReserveSlot(u, ans);
      ghost var s1 := View();
      if reserved {
        Launch(u, ans);
      }
      if StartIsServed(s, u, ans) {
        StartsIff(s, u, ans.start, ans.restore, s1, View());
      }
    }

    method RestoreAssignment(u: UID, ans: Answers) returns (ok: bool)
      requires Under(u, ans) && phase == Restoring(u) && api[u].place.Some?
      modifies this, scheduler
      ensures Under(u, ans) && phase == (if ok then Reserving(u) else Idle) && api == old(api)
      ensures from == old(from) && old(states) <= states && old(events) <= events
      ensures (scheduler.View(), ok) == Restore(old(scheduler.View()), AssignmentOf(u, api[u])) &&
        workers == old(workers)
    {
      hide WorldStep, DeleteStep, Follows, Steps, Restore, Call;
      ok := scheduler.Restore(AssignmentOf(u, api[u]));
      phase := if ok then Reserving(u) else Idle;
      Record(u, ans);
    }

    method ReserveSlot(u: UID, ans: Answers) returns (ok: bool)
      requires Under(u, ans) && phase == Reserving(u) && api[u].place.Some?
      modifies this
      ensures Under(u, ans) && phase == (if ok then Launching(u) else Idle) && api == old(api)
      ensures from == old(from) && old(states) <= states && old(events) <= events
      ensures View() == if ans.endpointFound
                        then Call(old(View()), api[u], W.OpReserve(api[u].place.value.slotID, IdentityOf(u, api[u])),
                                  ans.reserve, Launching(u))
                        else old(View()).(phase := Idle)
      ensures ok ==> ans.endpointFound && ans.reserve.Succeeds?
    {
      hide WorldStep, DeleteStep, Follows, Steps, Call;
      var o := api[u];
      if ans.endpointFound {
        ok := CallWorker(o, W.OpReserve(o.place.value.slotID, IdentityOf(u, o)), ans.reserve, Launching(u));
      } else {
        ok, phase := false, Idle;
      }
      Record(u, ans);
    }

    method Launch(u: UID, ans: Answers)
      requires Under(u, ans) && phase == Launching(u) && api[u].place.Some?
      modifies this
      ensures Under(u, ans) && phase.Idle? && from == old(from) && old(states) <= states && old(events) <= events
      ensures var o := old(api[u]); var slotID, who := o.place.value.slotID, IdentityOf(u, o);
        View() == if o.fromSnapshot && ans.snapshotReady
                  then Call(old(View()), o, W.OpRestore(slotID, who, ans.restore), ans.launch, Idle)
                  else if !o.fromSnapshot && ans.containerGiven
                  then Call(old(View()), o, W.OpStart(slotID, who, ans.containerOk, ans.start), ans.launch, Idle)
                  else old(View()).(phase := Idle)
      ensures api == old(api)
    {
      hide WorldStep, DeleteStep, Follows, Steps, Call;
      var o := api[u];
      var slotID, identity := o.place.value.slotID, IdentityOf(u, o);
      if o.fromSnapshot {
        if ans.snapshotReady {
          var _ := CallWorker(o, W.OpRestore(slotID, identity, ans.restore), ans.launch, Idle);
        }
      } else if ans.containerGiven {
        var _ := CallWorker(o, W.OpStart(slotID, identity, ans.containerOk, ans.start), ans.launch, Idle);
      }
      phase := Idle;
      Record(u, ans);
    }

    /** Stops and releases the Slot, forgets the assignment, removes the finalizer. */
    method SyncDelete(u: UID, ans: Answers)
      requires Under(u, ans) && phase == Begin(View(), u, ans.poolReady) && u in api && api[u].deleting
      modifies this, scheduler
      ensures Under(u, ans) && phase.Idle? && from == old(from) && old(states) <= states && old(events) <= events
      ensures !old(api[u]).finalizer ==> View() == old(View())
      ensures old(api[u]).finalizer ==> if u in api then api == old(api) else
        && api == old(api) - {u} && u !in scheduler.View().assignments
        && (old(api[u].place).Some? ==> SlotFree(View(), old(api[u])) && CallsAnswered(ans))
      ensures old(api[u]).finalizer && (old(api[u].place).Some? ==> StopIsServed(ans)) && ans.removed.Succeeds? ==>
        (u !in api <==> (old(api[u].place).Some? ==> D.Served(old(View()), u, old(api[u]))))
    {
      hide WorldStep, StartStep, Follows, Steps, Call, Release;
      var o := api[u];
      if !o.finalizer {
        return;
      }
      if o.place.Some? {
        var released := StopAndRelease(u, ans);
        if !released {
          return;
        }
      }
      ForgetAndRemove(u, ans);
    }

    method ForgetAndRemove(u: UID, ans: Answers)
      requires Under(u, ans) && phase == Forgetting(u)
      modifies this, scheduler
      ensures Under(u, ans) && phase.Idle? && from == old(from) && old(states) <= states && old(events) <= events
      ensures scheduler.View() == Release(old(scheduler.View()), u) && workers == old(workers)
      ensures u !in scheduler.View().assignments
      ensures api == if ans.removed.Fails? then old(api) else old(api) - {u}
    {
      hide WorldStep, StartStep, Follows, Steps, Call, Release;
      ReleasedAssignments(scheduler.View(), u);
      scheduler.Release(u);
      phase := RemovingFinalizer(u);
      Record(u, ans);
      hide Next, Under;
      RemoveFinalizer(u, ans);
    }

    method RemoveFinalizer(u: UID, ans: Answers)
      requires Under(u, ans) && phase == RemovingFinalizer(u)
      modifies this
      ensures Under(u, ans) && phase.Idle? && from == old(from) && old(states) <= states && old(events) <= events
      ensures View() == old(View()).(phase := Idle, api := if ans.removed.Fails? then old(api) else old(api) - {u})
    {
      hide WorldStep, StartStep, Follows, Steps, Call;
      if !ans.removed.Fails? {
        api := api - {u};
      }
      phase := Idle;
      Record(u, ans);
    }

    method StopAndRelease(u: UID, ans: Answers) returns (released: bool)
      requires Under(u, ans) && phase == Marking(u) && api[u].place.Some?
      modifies this, scheduler
      ensures Under(u, ans) && phase == (if released then Forgetting(u) else Idle) && api == old(api)
      ensures from == old(from) && old(states) <= states && old(events) <= events
      ensures released ==> SlotFree(View(), api[u])
      ensures StopIsServed(ans) ==> (released <==> D.Served(old(View()), u, api[u]))
      ensures released ==> CallsAnswered(ans)
    {
      ghost var s := View();
      assert u in s.api;
      hide Next, Under, Call, D.Served, SlotFree;
      var marked := MarkStopping(u, ans);
      D.SameServed(s, View(), u);
      if !marked {
        return false;
      }
      released := CallStopAndRelease(u, ans);
    }

    method CallStopAndRelease(u: UID, ans: Answers) returns (released: bool)
      requires Under(u, ans) && phase == Stopping(u) && api[u].place.Some?
      modifies this
      ensures Under(u, ans) && phase == (if released then Forgetting(u) else Idle) && api == old(api)
      ensures from == old(from) && old(states) <= states && old(events) <= events
      ensures released ==> SlotFree(View(), api[u])
      ensures StopIsServed(ans) ==> (released <==> D.Served(old(View()), u, api[u]))
      ensures released ==> ans.endpointFound && ans.stop.Succeeds? && ans.release.Succeeds?
    {
      ghost var s := View();
      assert u in s.api;
      hide Next, Under, Call, D.Served, SlotFree;
      var stopped := StopSlot(u, ans);
      if StopIsServed(ans) {
        StopLeads(s, u, ans, View());
      }
      if !stopped {
        return false;
      }
      released := ReleaseSlot(u, ans);
    }

    method MarkStopping(u: UID, ans: Answers) returns (ok: bool)
      requires Under(u, ans) && phase == Marking(u)
      modifies this
      ensures Under(u, ans) && phase == (if ok then Stopping(u) else Idle) && api == old(api)
      ensures from == old(from) && old(states) <= states && old(events) <= events
      ensures View() == old(View()).(phase := if ans.marked.Succeeds? then Stopping(u) else Idle)
    {
      hide WorldStep, StartStep, Follows, Steps, Call;
      ok := ans.marked.Succeeds?;
      phase := if ok then Stopping(u) else Idle;
      Record(u, ans);
    }

    method StopSlot(u: UID, ans: Answers) returns (ok: bool)
      requires Under(u, ans) && phase == Stopping(u) && api[u].place.Some?
      modifies this
      ensures Under(u, ans) && phase == (if ok then Releasing(u) else Idle) && api == old(api)
      ensures from == old(from) && old(states) <= states && old(events) <= events
      ensures View() == if ans.endpointFound
                        then Call(old(View()), api[u], W.OpStop(api[u].place.value.slotID, IdentityOf(u, api[u]),
                                                               ans.stopAnswers), ans.stop, Releasing(u))
                        else old(View()).(phase := Idle)
      ensures ok ==> ans.endpointFound && ans.stop.Succeeds?
    {
      hide WorldStep, StartStep, Follows, Steps, Call;
      var o := api[u];
      if ans.endpointFound {
        ok := CallWorker(o, W.OpStop(o.place.value.slotID, IdentityOf(u, o), ans.stopAnswers), ans.stop, Releasing(u));
      } else {
        ghost var s := View();
        ok, phase := false, Idle;
        assert StartStep(s, GiveUp, View()) by { GivesUp(s, View()); }
      }
      Record(u, ans);
    }

    method ReleaseSlot(u: UID, ans: Answers) returns (ok: bool)
      requires Under(u, ans) && phase == Releasing(u) && api[u].place.Some?
      modifies this
      ensures Under(u, ans) && phase == (if ok then Forgetting(u) else Idle) && api == old(api)
      ensures from == old(from) && old(states) <= states && old(events) <= events
      ensures View() == Call(old(View()), api[u], W.OpRelease(api[u].place.value.slotID, IdentityOf(u, api[u]),
                                                              ans.releaseAnswers), ans.release, Forgetting(u))
      ensures ok ==> SlotFree(View(), api[u])
      ensures ok ==> ans.release.Succeeds?
    {
      hide WorldStep, StartStep, Follows, Steps, Call, SlotFree;
      ghost var s := View();
      var o := api[u];
      ok :=
        CallWorker(o, W.OpRelease(o.place.value.slotID, IdentityOf(u, o), ans.releaseAnswers), ans.release,
          Forgetting(u));
      if ok {
        ReleaseLeads(s, u, ans.releaseAnswers, ans.release, View());
      }
      Record(u, ans);
    }
  }

  lemma GivesUp(s: System, s': System)
    requires (s.phase.Reserving? || s.phase.Launching? || s.phase.Stopping?) && s' == s.(phase := Idle)
    ensures StartStep(s, GiveUp, s')
  {
  }
}
