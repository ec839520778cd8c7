/** The slot ownership protocol of internal/controller/sandbox_controller.go: API objects, Scheduler
    and Workers, with one reconcile in progress that can be interleaved at every external call. */
module Ownership {
  import opened Base
  import opened BinPack
  import opened Scheduler
  import W = WorkerSlots

  /** Where the status of a Sandbox says it is assigned. */
  datatype Place = Place(worker: string, slotID: SlotID)

  /** The fields of one API object that matter here; everything but the last three is immutable. */
  datatype Sandbox = Sandbox(namespace: string, name: string, pool: string, profile: string, fromSnapshot: bool,
                             finalizer: bool, deleting: bool, place: Option<Place>)

  datatype Pod = Pod(namespace: string, name: string)

  /** The next external call of the reconcile in progress, if any. */
  datatype Phase =
    | Idle
    | AddingFinalizer(u: UID)
    | Assigning(u: UID)
    | Persisting(u: UID, a: Assignment)
    | Restoring(u: UID)
    | Reserving(u: UID)
    | Launching(u: UID)
    | Marking(u: UID)
    | Stopping(u: UID)
    | Releasing(u: UID)
    | Forgetting(u: UID)
    | RemovingFinalizer(u: UID)

  datatype System = System(api: map<UID, Sandbox>, sched: Sched, workers: map<Pod, W.Worker>, phase: Phase)

  /** A write or a call may fail, or take effect although its caller sees an error. */
  datatype Outcome = Succeeds | TakesEffectOnly | Fails

  datatype Event =
    // The world around the controller.
    | Create(u: UID, sandbox: Sandbox)
    | Delete(u: UID)
    | Report(report: WorkerState)
    | Remove(key: WorkerKey)
    | PodStarts(pod: Pod, worker: W.Worker)
    | PodVanishes(pod: Pod)
    | WorkerDoes(pod: Pod, op: W.Op)
    | Restart
    // The reconcile in progress.
    | Fetch(u: UID, poolReady: bool)
    | AddFinalizer(outcome: Outcome)
    | Schedule(profileKnown: bool)
    | Persist(outcome: Outcome)
    | RestoreAssignment
    | ReserveSlot(outcome: Outcome)
    | StartSandbox(outcome: Outcome, containerOk: bool, start: W.StartAnswers)
    | StartFromSnapshot(outcome: Outcome, restore: W.RestoreAnswers)
    | GiveUp
    | MarkStopping(outcome: Outcome)
    | StopSandbox(outcome: Outcome, stop: W.StopAnswers)
    | ReleaseSlot(outcome: Outcome, release: W.ReleaseAnswers)
    | Forget
    | RemoveFinalizer(outcome: Outcome)

  // ---------------------------------------------------------------- pieces of a step

  function KeyOf(o: Sandbox, worker: string): WorkerKey {
    WorkerKey(o.namespace, o.pool, worker)
  }

  function RequestOf(u: UID, o: Sandbox): AssignRequest {
    AssignRequest(u, o.namespace, o.name, o.pool, o.profile)
  }

  /** assignmentFromSandbox. */
  function AssignmentOf(u: UID, o: Sandbox): Assignment
    requires o.place.Some?
  {
    Assignment(u, o.namespace, o.name, KeyOf(o, o.place.value.worker), o.place.value.slotID, o.profile)
  }

  function IdentityOf(u: UID, o: Sandbox): W.Identity {
    W.Identity(o.namespace, o.name, u)
  }

  function PodOf(o: Sandbox): Pod
    requires o.place.Some?
  {
    Pod(o.namespace, o.place.value.worker)
  }

  /** One call to the Worker of `o`; the reconcile goes on only after a reply without error. */
  ghost function Call(s: System, o: Sandbox, op: W.Op, outcome: Outcome, next: Phase): System
    requires o.place.Some?
  {
    if outcome.Fails? || PodOf(o) !in s.workers then s.(phase := Idle)
    else
      var (w, reply) := W.Step(s.workers[PodOf(o)], op);
      s.(workers := s.workers[PodOf(o) := w], phase := if outcome.Succeeds? && reply == W.Done then next else Idle)
  }

  function AfterWrite(s: System, outcome: Outcome, api: map<UID, Sandbox>, next: Phase): System {
    if outcome.Fails? then s.(phase := Idle)
    else s.(api := api, phase := if outcome.Succeeds? then next else Idle)
  }

  function Begin(s: System, u: UID, poolReady: bool): Phase {
    if u !in s.api then Idle
    else
      var o := s.api[u];
      if o.deleting then
        if !o.finalizer then Idle else if o.place.Some? then Marking(u) else Forgetting(u)
      else if !o.finalizer then AddingFinalizer(u)
      else if !poolReady then Idle
      else if o.place.None? then Assigning(u) else Restoring(u)
  }

  // ---------------------------------------------------------------- one step

  ghost predicate WorldStep(s: System, e: Event, s': System) {
    match e
    case Create(u, o) => u !in s.api && !o.deleting && o.place.None? && s' == s.(api := s.api[u := o])
    case Delete(u) =>
      && u in s.api
      && s' == s.(api := if s.api[u].finalizer then s.api[u := s.api[u].(deleting := true)] else s.api - {u})
    case Report(report) => Updated(s.sched, report, s'.sched) && s' == s.(sched := s'.sched)
    case Remove(key) => s' == s.(sched := RemoveWorker(s.sched, key))
    case PodStarts(pod, w) =>
      && pod !in s.workers && (forall id :: id in w.slots ==> w.slots[id].state == W.Free)
      && s' == s.(workers := s.workers[pod := w])
    case PodVanishes(pod) => s' == s.(workers := s.workers - {pod})
    case WorkerDoes(pod, op) =>
      && pod in s.workers && (op.OpApply? || op.OpVanish? || op.OpSnapshot?)
      && s' == s.(workers := s.workers[pod := W.Step(s.workers[pod], op).0])
    case Restart => s' == s.(sched := EMPTY, phase := Idle)
    case _ => false
  }

  ghost predicate StartStep(s: System, e: Event, s': System) {
    match e
    case Fetch(u, poolReady) => s.phase.Idle? && s' == s.(phase := Begin(s, u, poolReady))
    case AddFinalizer(outcome) =>
      && s.phase.AddingFinalizer?
      && s' == if s.phase.u !in s.api then s.(phase := Idle)
               else AfterWrite(s, outcome, s.api[s.phase.u := s.api[s.phase.u].(finalizer := true)], Idle)
    case Schedule(profileKnown) =>
      && s.phase.Assigning? && s.phase.u in s.api
      && s' == (if !profileKnown then s.(phase := Idle)
                else
                  var (sched, reply) := Assign(s.sched, RequestOf(s.phase.u, s.api[s.phase.u]));
                  var next := if reply.Assigned? then Persisting(s.phase.u, reply.assignment) else Idle;
                  s.(sched := sched, phase := next))
    case Persist(outcome) =>
      && s.phase.Persisting? && s.phase.u in s.api
      && var place := Some(Place(s.phase.a.worker.name, s.phase.a.slotID));
         s' == AfterWrite(s, outcome, s.api[s.phase.u := s.api[s.phase.u].(place := place)], Idle)
    case RestoreAssignment =>
      && s.phase.Restoring? && s.phase.u in s.api && s.api[s.phase.u].place.Some?
      && var (sched, ok) := Restore(s.sched, AssignmentOf(s.phase.u, s.api[s.phase.u]));
         s' == s.(sched := sched, phase := if ok then Reserving(s.phase.u) else Idle)
    case ReserveSlot(outcome) =>
      && s.phase.Reserving? && s.phase.u in s.api && s.api[s.phase.u].place.Some?
      && var o := s.api[s.phase.u];
         s' == Call(s, o, W.OpReserve(o.place.value.slotID, IdentityOf(s.phase.u, o)), outcome, Launching(s.phase.u))
    case StartSandbox(outcome, containerOk, a) =>
      && s.phase.Launching? && s.phase.u in s.api && s.api[s.phase.u].place.Some? && !s.api[s.phase.u].fromSnapshot
      && var o := s.api[s.phase.u];
         s' == Call(s, o, W.OpStart(o.place.value.slotID, IdentityOf(s.phase.u, o), containerOk, a), outcome, Idle)
    case StartFromSnapshot(outcome, a) =>
      && s.phase.Launching? && s.phase.u in s.api && s.api[s.phase.u].place.Some? && s.api[s.phase.u].fromSnapshot
      && var o := s.api[s.phase.u];
         s' == Call(s, o, W.OpRestore(o.place.value.slotID, IdentityOf(s.phase.u, o), a), outcome, Idle)
    case GiveUp => (s.phase.Reserving? || s.phase.Launching? || s.phase.Stopping?) && s' == s.(phase := Idle)
    case _ => false
  }

  ghost predicate DeleteStep(s: System, e: Event, s': System) {
    match e
    case MarkStopping(outcome) => s.phase.Marking? && s' == AfterWrite(s, outcome, s.api, Stopping(s.phase.u))
    case StopSandbox(outcome, a) =>
      && s.phase.Stopping? && s.phase.u in s.api && s.api[s.phase.u].place.Some?
      && var o := s.api[s.phase.u];
         s' == Call(s, o, W.OpStop(o.place.value.slotID, IdentityOf(s.phase.u, o), a), outcome, Releasing(s.phase.u))
    case ReleaseSlot(outcome, a) =>
      && s.phase.Releasing? && s.phase.u in s.api && s.api[s.phase.u].place.Some?
      && var o := s.api[s.phase.u];
         s' ==
           Call(s, o, W.OpRelease(o.place.value.slotID, IdentityOf(s.phase.u, o), a), outcome, Forgetting(s.phase.u))
    case Forget =>
      s.phase.Forgetting? && s' == s.(sched := Release(s.sched, s.phase.u), phase := RemovingFinalizer(s.phase.u))
    case RemoveFinalizer(outcome) =>
      s.phase.RemovingFinalizer? && s' == AfterWrite(s, outcome, s.api - {s.phase.u}, Idle)
    case _ => false
  }

  ghost predicate Next(s: System, e: Event, s': System) {
    WorldStep(s, e, s') || StartStep(s, e, s') || DeleteStep(s, e, s')
  }

  ghost predicate Initial(s: System) {
    s.api == map[] && s.sched == EMPTY && s.workers == map[] && s.phase.Idle?
  }

  ghost predicate Trace(states: seq<System>, events: seq<Event>) {
    && |states| == |events| + 1 && Initial(states[0])
    && forall i :: 0 <= i < |events| ==> Next(states[i], events[i], states[i + 1])
  }

  // ---------------------------------------------------------------- the invariant of every run

  predicate Owns(s: System, u: UID, pod: Pod, id: SlotID) {
    pod in s.workers && id in s.workers[pod].slots
    && s.workers[pod].slots[id].state != W.Free && s.workers[pod].slots[id].owner.uid == u
  }

  ghost predicate OwnsNothing(s: System, u: UID) {
    forall pod, id :: !Owns(s, u, pod, id)
  }

  /** A sandbox that owns a Worker Slot is an API object with the finalizer that is placed there. */
  ghost predicate OwnersOk(s: System) {
    forall u, pod, id :: Owns(s, u, pod, id) ==>
      u in s.api && s.api[u].finalizer && s.api[u].place == Some(Place(pod.name, id)) &&
        s.api[u].namespace == pod.namespace
  }

  predicate Agrees(u: UID, o: Sandbox, a: Assignment) {
    a == AssignmentOf(u, o.(place := Some(Place(a.worker.name, a.slotID))))
    && (o.place.Some? ==> o.place.value == Place(a.worker.name, a.slotID))
  }

  /** An assignment of the Scheduler is that of an API object with the finalizer, and equals what
      is persisted if anything is. */
  ghost predicate SchedOk(s: System) {
    forall u :: u in s.sched.assignments ==>
      u in s.api && s.api[u].finalizer && Agrees(u, s.api[u], s.sched.assignments[u])
  }

  ghost predicate ApiOk(s: System) {
    forall u :: u in s.api && s.api[u].deleting ==> s.api[u].finalizer
  }

  ghost predicate PhaseOk(s: System) {
    match s.phase
    case Idle => true
    case AddingFinalizer(_) => true
    case Assigning(u) => u in s.api && s.api[u].finalizer && s.api[u].place.None?
    case Persisting(u, a) =>
      u in s.api && s.api[u].finalizer && s.api[u].place.None? && u in s.sched.assignments &&
        s.sched.assignments[u] == a
    case Restoring(u) => u in s.api && s.api[u].finalizer && s.api[u].place.Some?
    case Reserving(u) => u in s.api && s.api[u].finalizer && s.api[u].place.Some?
    case Launching(u) => u in s.api && s.api[u].finalizer && s.api[u].place.Some?
    case Marking(u) => u in s.api && s.api[u].deleting && s.api[u].place.Some?
    case Stopping(u) => u in s.api && s.api[u].deleting && s.api[u].place.Some?
    case Releasing(u) => u in s.api && s.api[u].deleting && s.api[u].place.Some?
    case Forgetting(u) => u in s.api && s.api[u].deleting && OwnsNothing(s, u)
    case RemovingFinalizer(u) => u in s.api && s.api[u].deleting && OwnsNothing(s, u) && u !in s.sched.assignments
  }

  ghost predicate Safe(s: System) {
    OwnersOk(s) && SchedOk(s) && ApiOk(s) && PhaseOk(s)
  }

  // ---------------------------------------------------------------- how a Worker call moves ownership

  /** Only Reserve gives a Slot an owner, and only its caller. */
  lemma OwnersOfStep(w: W.Worker, op: W.Op, id: SlotID)
    requires id in W.Step(w, op).0.slots && W.Step(w, op).0.slots[id].state != W.Free
    ensures var s' := W.Step(w, op).0.slots[id];
      || (id in w.slots && w.slots[id].state != W.Free && w.slots[id].owner == s'.owner)
      || (op.OpReserve? && op.id == id && s'.owner == op.who && W.ValidIdentity(op.who))
  {
    hide W.Accepts;
  }

  /** After a Release that was answered without error its caller does not own the Slot. */
  lemma ReleasedNotOwned(w: W.Worker, id: SlotID, who: W.Identity, a: W.ReleaseAnswers)
    requires W.Step(w, W.OpRelease(id, who, a)).1 == W.Done
    ensures var w' := W.Step(w, W.OpRelease(id, who, a)).0; id in w'.slots && w'.slots[id].state == W.Free
  {
  }

  lemma CallOwners(s: System, o: Sandbox, op: W.Op, outcome: Outcome, next: Phase, u: UID, pod: Pod, id: SlotID)
    requires o.place.Some? && Owns(Call(s, o, op, outcome, next), u, pod, id)
    ensures Owns(s, u, pod, id) || (op.OpReserve? && pod == PodOf(o) && id == op.id && u == op.who.uid)
  {
    hide W.Step;
    if !outcome.Fails? && PodOf(o) in s.workers && pod == PodOf(o) {
      OwnersOfStep(s.workers[pod], op, id);
    }
  }

  // ---------------------------------------------------------------- every step keeps it

  ghost predicate OwnersShrink(s: System, s': System) {
    forall u, pod, id :: Owns(s', u, pod, id) ==> Owns(s, u, pod, id)
  }

  lemma WorldOwners(s: System, e: Event, s': System)
    requires WorldStep(s, e, s')
    ensures OwnersShrink(s, s')
  {
    hide W.Step, Updated;
    forall u, pod, id | Owns(s', u, pod, id) ensures Owns(s, u, pod, id) {
      if e.WorkerDoes? && pod == e.pod {
        OwnersOfStep(s.workers[pod], e.op, id);
      }
    }
  }

  lemma WorldAssignments(s: System, e: Event, s': System)
    requires WorldStep(s, e, s')
    ensures s'.sched.assignments == if e.Restart? then map[] else s.sched.assignments
  {
  }

  /** What the world may do to an API object: nothing, mark it deleting if it has the finalizer,
      remove it if not, or make it. */
  ghost predicate ApiChange(s: System, s': System) {
    forall u :: u in s.api ==> if u in s'.api
      then s'.api[u] == s.api[u] || (s.api[u].finalizer && s'.api[u] == s.api[u].(deleting := true))
      else !s.api[u].finalizer
  }

  lemma OwnersKept(s: System, s': System)
    requires OwnersOk(s) && OwnersShrink(s, s') && ApiChange(s, s')
    ensures OwnersOk(s')
  {
    hide Owns;
  }

  lemma SchedKept(s: System, s': System)
    requires SchedOk(s) && ApiChange(s, s')
    requires s'.sched.assignments == s.sched.assignments || s'.sched.assignments == map[]
    ensures SchedOk(s')
  {
    forall u | u in s'.sched.assignments
      ensures u in s'.api && s'.api[u].finalizer && Agrees(u, s'.api[u], s'.sched.assignments[u])
    {
      assert Agrees(u, s.api[u], s.sched.assignments[u]);
    }
  }

  lemma PhaseKept(s: System, s': System)
    requires PhaseOk(s) && ApiOk(s) && ApiChange(s, s') && OwnersShrink(s, s')
    requires (s'.phase == s.phase && s'.sched.assignments == s.sched.assignments) || s'.phase.Idle?
    ensures PhaseOk(s')
  {
    hide Owns;
  }

  lemma WorldKeeps(s: System, e: Event, s': System)
    requires Safe(s) && WorldStep(s, e, s')
    ensures Safe(s')
  {
    hide W.Step, Updated, Inv, Owns;
    WorldOwners(s, e, s');
    WorldAssignments(s, e, s');
    assert ApiChange(s, s');
    assert s'.phase == s.phase || s'.phase.Idle?;
    assert e.Restart? ==> s'.phase.Idle?;
    assert ApiOk(s');
    OwnersKept(s, s');
    SchedKept(s, s');
    hide WorldStep, OwnersShrink, OwnersOk, SchedOk, ApiChange, PhaseOk;
    PhaseKept(s, s');
  }

  /** A call to the Worker an object is placed on keeps the owners in order: only Reserve adds
      one, and that one is placed there. */
  lemma CallKeepsOwners(s: System, u: UID, op: W.Op, outcome: Outcome, next: Phase)
    requires OwnersOk(s) && u in s.api && s.api[u].finalizer && s.api[u].place.Some?
    requires op.OpReserve? ==> op.id == s.api[u].place.value.slotID && op.who.uid == u
    ensures OwnersOk(Call(s, s.api[u], op, outcome, next))
    ensures !op.OpReserve? ==> OwnersShrink(s, Call(s, s.api[u], op, outcome, next))
  {
    var o := s.api[u];
    var s' := Call(s, o, op, outcome, next);
    assert s'.api == s.api;
    forall v, pod, id | Owns(s', v, pod, id)
      ensures Owns(s, v, pod, id) || (op.OpReserve? && v == u && pod == PodOf(o) && id == o.place.value.slotID)
    {
      CallOwners(s, o, op, outcome, next, v, pod, id);
    }
    hide Call, Owns;
  }

  lemma AssignedAssignments(s: Sched, req: AssignRequest)
    ensures var (s', reply) := Assign(s, req);
      if reply.Assigned? then
        (s'.assignments == s.assignments[req.uid := reply.assignment]
         && (req.uid !in s.assignments ==>
               && reply.assignment == AssignmentFor(req, reply.assignment.worker, reply.assignment.slotID)
               && reply.assignment.worker.namespace == req.namespace && reply.assignment.worker.pool == req.pool))
      else s' == s
  {
    CandidatesOfOneRequest(s, req);
    if req.uid in s.assignments {
      assert s.assignments == s.assignments[req.uid := s.assignments[req.uid]];
    }
  }

  lemma RestoredAssignments(s: Sched, a: Assignment)
    ensures var (s', ok) := Restore(s, a); s'.assignments == if ok then s.assignments[a.uid := a] else s.assignments
  {
    if a.uid in s.assignments && s.assignments[a.uid] == a {
      assert s.assignments == s.assignments[a.uid := a];
    }
  }

  lemma ReleasedAssignments(s: Sched, u: UID)
    ensures Release(s, u).assignments == s.assignments - {u}
  {
  }

  /** A step of syncAssign or syncStart that leaves the Workers alone and gives `u` an assignment. */
  lemma RecordKeeps(s: System, u: UID, a: Assignment, s': System)
    requires Safe(s) && u in s.api && s.api[u].finalizer && Agrees(u, s.api[u], a)
    requires s'.api == s.api && s'.workers == s.workers && s'.sched.assignments == s.sched.assignments[u := a]
    requires s'.phase.Idle? || s'.phase == Persisting(u, a) || s'.phase == Reserving(u)
    requires s'.phase.Persisting? ==> s.api[u].place.None?
    requires s'.phase.Reserving? ==> s.api[u].place.Some?
    ensures Safe(s')
  {
    assert OwnersShrink(s, s');
    OwnersKept(s, s');
    hide Owns, OwnersOk, Agrees;
  }

  lemma ScheduleKeeps(s: System, e: Event, s': System)
    requires Safe(s) && e.Schedule? && StartStep(s, e, s')
    ensures Safe(s')
  {
    hide OwnersOk, SchedOk;
    var u := s.phase.u;
    var req := RequestOf(u, s.api[u]);
    AssignedAssignments(s.sched, req);
    var (sched, reply) := Assign(s.sched, req);
    hide Assign;
    if e.profileKnown && reply.Assigned? {
      assert Agrees(u, s.api[u], reply.assignment) by {
        if u in s.sched.assignments { AssignmentAgrees(s, u); AssignedBefore(s.sched, req); }
      }
      RecordKeeps(s, u, reply.assignment, s');
    } else {
      assert s'.api == s.api && s'.workers == s.workers && s'.sched == s.sched;
      assert OwnersShrink(s, s');
      OwnersKept(s, s');
      SchedKept(s, s');
    }
  }

  lemma AssignmentAgrees(s: System, u: UID)
    requires SchedOk(s) && u in s.sched.assignments
    ensures u in s.api && Agrees(u, s.api[u], s.sched.assignments[u])
  {
  }

  lemma AssignedBefore(s: Sched, req: AssignRequest)
    requires req.uid in s.assignments
    ensures Assign(s, req) == (s, Assigned(s.assignments[req.uid]))
  {
  }

  lemma PersistSched(s: System, s': System, u: UID)
    requires SchedOk(s) && u in s.api && s.api[u].finalizer && u in s'.api
    requires s'.sched == s.sched && s'.api.Keys == s.api.Keys
    requires forall v :: v in s.api && v != u ==> s'.api[v] == s.api[v]
    requires s'.api[u].finalizer && (u in s.sched.assignments ==> Agrees(u, s'.api[u], s.sched.assignments[u]))
    ensures SchedOk(s')
  {
    hide Agrees;
  }

  lemma PersistChanges(s: System, e: Event, s': System)
    requires e.Persist? && StartStep(s, e, s')
    ensures s.phase.Persisting? && s.phase.u in s.api
    ensures s'.workers == s.workers && s'.sched == s.sched && s'.phase.Idle?
    ensures s'.api == s.api ||
      s'.api == s.api[s.phase.u := s.api[s.phase.u].(place := Some(Place(s.phase.a.worker.name, s.phase.a.slotID)))]
  {
  }

  lemma PersistKeeps(s: System, e: Event, s': System)
    requires Safe(s) && e.Persist? && StartStep(s, e, s')
    ensures Safe(s')
  {
    PersistChanges(s, e, s');
    AssignmentAgrees(s, s.phase.u);
    hide StartStep, OwnersOk, SchedOk;
    var u := s.phase.u;
    assert s.api[u].finalizer && s.api[u].place.None?;
    assert s'.api.Keys == s.api.Keys && forall v :: v in s.api && v != u ==> s'.api[v] == s.api[v];
    assert u in s.sched.assignments ==> Agrees(u, s'.api[u], s.sched.assignments[u]);
    assert ApiOk(s') && s'.api[u].finalizer;
    hide Agrees, PhaseOk, ApiOk;
    PersistSched(s, s', u);
    PersistOwners(s, s', u);
    PhaseIdle(s');
  }

  lemma PersistOwners(s: System, s': System, u: UID)
    requires OwnersOk(s) && u in s.api && s.api[u].place.None? && s'.workers == s.workers
    requires s'.api.Keys == s.api.Keys && forall v :: v in s.api && v != u ==> s'.api[v] == s.api[v]
    ensures OwnersOk(s')
  {
    SameWorkers(s, s');
    hide Owns;
  }

  lemma SameWorkers(s: System, s': System)
    requires s'.workers == s.workers
    ensures OwnersShrink(s, s')
  {
  }

  lemma PhaseIdle(s: System)
    requires s.phase.Idle?
    ensures PhaseOk(s)
  {
  }

  lemma RestoreKeeps(s: System, e: Event, s': System)
    requires Safe(s) && e.RestoreAssignment? && StartStep(s, e, s')
    ensures Safe(s')
  {
    hide OwnersOk, SchedOk;
    var u := s.phase.u;
    var a := AssignmentOf(u, s.api[u]);
    RestoredAssignments(s.sched, a);
    var ok := Restore(s.sched, a).1;
    hide Restore;
    if ok {
      RecordKeeps(s, u, a, s');
    } else {
      assert s'.api == s.api && s'.workers == s.workers;
      assert OwnersShrink(s, s');
      OwnersKept(s, s');
      SchedKept(s, s');
    }
  }

  lemma LaunchKeeps(s: System, e: Event, s': System)
    requires Safe(s) && StartStep(s, e, s') && (e.ReserveSlot? || e.StartSandbox? || e.StartFromSnapshot?)
    ensures Safe(s')
  {
    var u := s.phase.u;
    var o := s.api[u];
    var id, who := o.place.value.slotID, IdentityOf(u, o);
    match e {
      case ReserveSlot(outcome) => CallKeepsOwners(s, u, W.OpReserve(id, who), outcome, Launching(u));
      case StartSandbox(outcome, containerOk, a) =>
        CallKeepsOwners(s, u, W.OpStart(id, who, containerOk, a), outcome, Idle);
      case StartFromSnapshot(outcome, a) => CallKeepsOwners(s, u, W.OpRestore(id, who, a), outcome, Idle);
    }
    hide OwnersOk, W.Step;
    assert s'.api == s.api && s'.sched == s.sched;
  }

  lemma BeginKeeps(s: System, e: Event, s': System)
    requires Safe(s) && (e.Fetch? || e.GiveUp? || e.AddFinalizer?) && StartStep(s, e, s')
    ensures Safe(s')
  {
    assert s'.workers == s.workers && s'.sched == s.sched;
    assert OwnersShrink(s, s');
    if e.AddFinalizer? {
      assert s'.phase.Idle?;
      hide Owns, Agrees;
      assert OwnersOk(s');
      hide OwnersOk;
      forall u | u in s'.sched.assignments ensures u in s'.api && s'.api[u] == s.api[u] && s'.api[u].finalizer {
      }
    } else {
      OwnersKept(s, s');
      SchedKept(s, s');
    }
  }

  lemma StartKeeps(s: System, e: Event, s': System)
    requires Safe(s) && StartStep(s, e, s')
    ensures Safe(s')
  {
    match e
    case Fetch(_, _) => BeginKeeps(s, e, s');
    case AddFinalizer(_) => BeginKeeps(s, e, s');
    case GiveUp => BeginKeeps(s, e, s');
    case Schedule(_) => ScheduleKeeps(s, e, s');
    case Persist(_) => PersistKeeps(s, e, s');
    case RestoreAssignment => RestoreKeeps(s, e, s');
    case _ => LaunchKeeps(s, e, s');
  }

  lemma StopKeeps(s: System, e: Event, s': System)
    requires Safe(s) && DeleteStep(s, e, s') && (e.StopSandbox? || e.ReleaseSlot?)
    ensures Safe(s')
  {
    var u := s.phase.u;
    var o := s.api[u];
    var id, who := o.place.value.slotID, IdentityOf(u, o);
    match e {
      case StopSandbox(outcome, a) => CallKeepsOwners(s, u, W.OpStop(id, who, a), outcome, Releasing(u));
      case ReleaseSlot(outcome, a) =>
        CallKeepsOwners(s, u, W.OpRelease(id, who, a), outcome, Forgetting(u));
        if s'.phase.Forgetting? {
          ReleasedNotOwned(s.workers[PodOf(o)], id, who, a);
          hide W.Step;
          assert OwnsNothing(s', u);
        }
    }
    hide OwnersOk, W.Step, OwnsNothing;
    assert s'.api == s.api && s'.sched == s.sched;
  }

  lemma ForgetKeeps(s: System, e: Event, s': System)
    requires Safe(s) && e.Forget? && DeleteStep(s, e, s')
    ensures Safe(s')
  {
    var u := s.phase.u;
    ReleasedAssignments(s.sched, u);
    hide Release;
    assert OwnersShrink(s, s');
    OwnersKept(s, s');
    hide Owns, OwnersOk, Agrees;
  }

  lemma UnfinalizeKeeps(s: System, e: Event, s': System)
    requires Safe(s) && e.RemoveFinalizer? && DeleteStep(s, e, s')
    ensures Safe(s')
  {
    assert OwnersShrink(s, s');
    assert s'.sched == s.sched && s'.phase.Idle?;
    hide Owns, Agrees;
  }

  lemma DeleteKeeps(s: System, e: Event, s': System)
    requires Safe(s) && DeleteStep(s, e, s')
    ensures Safe(s')
  {
    match e
    case StopSandbox(_, _) => StopKeeps(s, e, s');
    case ReleaseSlot(_, _) => StopKeeps(s, e, s');
    case Forget => ForgetKeeps(s, e, s');
    case RemoveFinalizer(_) => UnfinalizeKeeps(s, e, s');
    case MarkStopping(_) =>
      assert s'.api == s.api && s'.workers == s.workers && s'.sched == s.sched;
      assert OwnersShrink(s, s');
      OwnersKept(s, s');
      SchedKept(s, s');
  }

  lemma NextKeeps(s: System, e: Event, s': System)
    requires Safe(s) && Next(s, e, s')
    ensures Safe(s')
  {
    hide Safe, WorldStep, StartStep, DeleteStep;
    if WorldStep(s, e, s') {
      WorldKeeps(s, e, s');
    } else if StartStep(s, e, s') {
      StartKeeps(s, e, s');
    } else {
      DeleteKeeps(s, e, s');
    }
  }

  lemma {:induction false} RunIsSafe(states: seq<System>, events: seq<Event>, n: nat)
    requires Trace(states, events) && n < |states|
    ensures Safe(states[n])
    decreases n
  {
    if n > 0 {
      RunIsSafe(states, events, n - 1);
      assert Next(states[n - 1], events[n - 1], states[n]);
      NextKeeps(states[n - 1], events[n - 1], states[n]);
    }
  }

  /** Finalizer safety, in every run: restarts of the controller, lost replies, failed writes and
      arbitrary reports included. A sandbox that is gone from the API or has no finalizer owns no
      Worker Slot and has no assignment. */
  lemma FinalizerSafety(states: seq<System>, events: seq<Event>, n: nat, u: UID)
    requires Trace(states, events) && n < |states|
    requires u !in states[n].api || !states[n].api[u].finalizer
    ensures OwnsNothing(states[n], u) && u !in states[n].sched.assignments
  {
    RunIsSafe(states, events, n);
  }
}
