/** What the calls of one reconcile of a sandbox come to (internal/controller/sandbox_controller.go): when a
    start leaves the sandbox running in its Slot, when an assignment places it, when a deletion removes it. */
module ReconcileOutcomes {
  import opened Base
  import opened BinPack
  import opened Scheduler
  import opened Ownership
  import opened DeletionBlocked
  import opened WorkerOutcomes
  import W = WorkerSlots

  // ---------------------------------------------------------------- the state before and after

  /** The Worker of a placed sandbox is there and has its Slot. */
  predicate HasSlot(s: System, o: Sandbox) {
    && o.place.Some? && PodOf(o) in s.workers && o.place.value.slotID in s.workers[PodOf(o)].slots
  }

  function SlotOf(s: System, o: Sandbox): W.Slot
    requires HasSlot(s, o)
  {
    s.workers[PodOf(o)].slots[o.place.value.slotID]
  }

  /** The object in the Slot of the sandbox is alive. */
  predicate ObjectLives(s: System, o: Sandbox)
    requires HasSlot(s, o)
  {
    SlotOf(s, o).ref.Some? && SlotOf(s, o).ref.value in s.workers[PodOf(o)].backend.live
  }

  /** It is alive, and was made for this sandbox. */
  predicate OwnObjectLives(s: System, u: UID, o: Sandbox)
    requires HasSlot(s, o)
  {
    ObjectLives(s, o) && s.workers[PodOf(o)].backend.live[SlotOf(s, o).ref.value] == u
  }

  /** The sandbox runs: its Slot is Running, its own, and has a live object made for it. */
  predicate Runs(s: System, u: UID) {
    && u in s.api && HasSlot(s, s.api[u])
    && SlotOf(s, s.api[u]).state == W.Running && SlotOf(s, s.api[u]).owner.uid == u && OwnObjectLives(s, u, s.api[u])
  }

  /** The Scheduler has the assignment, or has none of the sandbox and does not see the Slot taken by
      another one. */
  predicate Recordable(s: System, u: UID)
    requires u in s.api && s.api[u].place.Some?
  {
    var a := AssignmentOf(u, s.api[u]);
    if u in s.sched.assignments then s.sched.assignments[u] == a
    else
      Visible(s.sched, a.worker, a.slotID) ==>
        InfoAt(s.sched, a.worker, a.slotID).state == W.Free || InfoAt(s.sched, a.worker, a.slotID).uid == u
  }

  /** The Slot can take the sandbox: it is Free; or its own, and then waiting, or started and, for a cold
      start, either dead, which is noticed, or its own object. */
  predicate Startable(s: System, u: UID)
    requires u in s.api && s.api[u].place.Some?
  {
    var o := s.api[u];
    && W.ValidIdentity(IdentityOf(u, o)) && HasSlot(s, o)
    && (SlotOf(s, o).state == W.Free || (SlotOf(s, o).owner.uid == u && OwnSlotStartable(s, u, o)))
  }

  predicate OwnSlotStartable(s: System, u: UID, o: Sandbox)
    requires HasSlot(s, o)
  {
    var state := SlotOf(s, o).state;
    || state == W.Reserved
    || (o.fromSnapshot && state == W.Starting)
    || (!o.fromSnapshot && state == W.Starting && OwnObjectLives(s, u, o))
    || (!o.fromSnapshot && state == W.Running && (ObjectLives(s, o) ==> OwnObjectLives(s, u, o)))
  }

  /** What a runtime without faults says of the object in the Slot. */
  function TrueStatus(s: System, o: Sandbox): W.Status {
    if HasSlot(s, o) && ObjectLives(s, o) then W.StatusRunning else W.StatusNotFound
  }

  /** A runtime that does what it is asked. */
  predicate RuntimeWorks(s: System, o: Sandbox, a: W.StartAnswers) {
    a.status == TrueStatus(s, o) && a.stale.Deleted? && a.created.Some? && a.started
  }

  /** A snapshot that can be had and loaded. */
  predicate SnapshotWorks(a: W.RestoreAnswers) {
    a.requestOk && a.downloaded && a.loaded.Some?
  }

  // ---------------------------------------------------------------- reserve, then start

  ghost function StartOp(u: UID, o: Sandbox, a: W.StartAnswers, b: W.RestoreAnswers): W.Op
    requires o.place.Some?
  {
    if o.fromSnapshot then W.OpRestore(o.place.value.slotID, IdentityOf(u, o), b)
    else W.OpStart(o.place.value.slotID, IdentityOf(u, o), true, a)
  }

  /** The two calls, the second only after the first was answered without error. */
  ghost predicate ReservedAndStarted(s: System, u: UID, a: W.StartAnswers, b: W.RestoreAnswers, s1: System, s2: System)
    requires u in s.api && s.api[u].place.Some?
  {
    var o := s.api[u];
    && s1 == Call(s, o, W.OpReserve(o.place.value.slotID, IdentityOf(u, o)), Succeeds, Launching(u))
    && s2 == if s1.phase.Idle? then s1 else Call(s1, o, StartOp(u, o, a, b), Succeeds, Idle)
  }

  /** On the Worker: after a Reserve that was answered, a start. */
  lemma ReserveEffect(w: W.Worker, id: SlotID, who: W.Identity)
    requires Addressed(w, id, who)
    ensures var (w', reply) := W.Step(w, W.OpReserve(id, who)); var s := w.slots[id];
      && (reply == W.Done <==> s.state == W.Free || s.owner.uid == who.uid)
      && id in w'.slots && w'.backend == w.backend
      && w'.slots[id] == if s.state == W.Free then s.(state := W.Reserved, owner := who) else s
  {
    ReserveOutcome(w, id, who);
  }

  predicate RunsAt(w: W.Worker, id: SlotID, u: UID) {
    && id in w.slots && w.slots[id].state == W.Running && w.slots[id].owner.uid == u
    && w.slots[id].ref.Some? && w.slots[id].ref.value in w.backend.live && w.backend.live[w.slots[id].ref.value] == u
  }

  predicate LivesAt(w: W.Worker, id: SlotID)
    requires id in w.slots
  {
    w.slots[id].ref.Some? && w.slots[id].ref.value in w.backend.live
  }

  predicate SameOwner(w: W.Worker, w': W.Worker, id: SlotID)
    requires id in w.slots
  {
    id in w'.slots && w'.slots[id].owner == w.slots[id].owner
  }

  lemma ColdStartEffect(w: W.Worker, id: SlotID, who: W.Identity, a: W.StartAnswers)
    requires Addressed(w, id, who) && w.slots[id].state != W.Free && w.slots[id].owner.uid == who.uid
    requires a.status == (if LivesAt(w, id) then W.StatusRunning else W.StatusNotFound)
    requires a.stale.Deleted? && a.created.Some? && a.started
    ensures SameOwner(w, W.Step(w, W.OpStart(id, who, true, a)).0, id)
    ensures RunsAt(W.Step(w, W.OpStart(id, who, true, a)).0, id, who.uid) <==>
      var s := w.slots[id];
      || s.state == W.Reserved
      || (s.state == W.Starting && LivesAt(w, id) && w.backend.live[s.ref.value] == who.uid)
      || (s.state == W.Running && (LivesAt(w, id) ==> w.backend.live[s.ref.value] == who.uid))
  {
    StartDoneIff(w, id, who, true, a);
    if W.Step(w, W.OpStart(id, who, true, a)).1 == W.Done {
      StartDone(w, id, who, true, a);
    } else {
      StartFailed(w, id, who, true, a);
    }
    hide W.Step;
  }

  lemma RestoreEffect(w: W.Worker, id: SlotID, who: W.Identity, a: W.RestoreAnswers)
    requires Addressed(w, id, who) && w.slots[id].state != W.Free && w.slots[id].owner.uid == who.uid &&
      SnapshotWorks(a)
    ensures SameOwner(w, W.Step(w, W.OpRestore(id, who, a)).0, id)
    ensures RunsAt(W.Step(w, W.OpRestore(id, who, a)).0, id, who.uid) <==>
      w.slots[id].state == W.Reserved || w.slots[id].state == W.Starting || RunsAt(w, id, who.uid)
  {
    RestoreDoneIff(w, id, who, a);
    if W.Step(w, W.OpRestore(id, who, a)).1 == W.Done {
      RestoreDone(w, id, who, a);
    } else {
      RestoreFailed(w, id, who, a);
    }
    hide W.Step;
  }

  lemma RunsAtPlace(s: System, u: UID)
    requires u in s.api && s.api[u].place.Some?
    ensures Runs(s, u) <==>
      PodOf(s.api[u]) in s.workers && RunsAt(s.workers[PodOf(s.api[u])], s.api[u].place.value.slotID, u)
  {
  }

  lemma CallEffect(s: System, o: Sandbox, op: W.Op, next: Phase)
    requires o.place.Some?
    ensures var s' := Call(s, o, op, Succeeds, next);
      && s'.api == s.api && s'.sched == s.sched
      && (PodOf(o) !in s.workers ==> s'.workers == s.workers && s'.phase.Idle?)
      && (PodOf(o) in s.workers ==>
            && s'.workers == s.workers[PodOf(o) := W.Step(s.workers[PodOf(o)], op).0]
            && s'.phase == if W.Step(s.workers[PodOf(o)], op).1 == W.Done then next else Idle)
  {
    hide W.Step;
  }

  lemma RefusedSlot(w: W.Worker, op: W.Op)
    requires !op.OpApply? && !op.OpVanish? && !Addressed(w, op.id, op.who)
    ensures W.Step(w, op).0 == w && W.Step(w, op).1 != W.Done
  {
    Refused(w, op);
  }

  /** A Slot that was Free is now the sandbox's by its full identity; any other has the owner it had. */
  ghost predicate OwnedBy(s: System, s': System, u: UID, o: Sandbox)
    requires HasSlot(s, o)
  {
    && HasSlot(s', o)
    && SlotOf(s', o).owner ==
       if SlotOf(s, o).state == W.Free then W.Identity(o.namespace, o.name, u) else SlotOf(s, o).owner
  }

  /** A start ends with the sandbox running exactly when it ran before or could be recorded and started. */
  ghost predicate StartEnds(s: System, u: UID, s': System)
    requires u in s.api && s.api[u].place.Some?
  {
    && s'.api == s.api
    && (Runs(s', u) <==> Runs(s, u) || (Recordable(s, u) && Startable(s, u)))
    && (Recordable(s, u) && Startable(s, u) ==> OwnedBy(s, s', u, s.api[u]))
  }

  /** With a Worker, a runtime and a store that do what they are asked, a start leaves the sandbox running
      exactly when it ran before or its Slot can take it. */
  lemma StartsIff(s: System, u: UID, a: W.StartAnswers, b: W.RestoreAnswers, s1: System, s2: System)
    requires u in s.api && s.api[u].place.Some? && ReservedAndStarted(s, u, a, b, s1, s2)
    requires if s.api[u].fromSnapshot then SnapshotWorks(b) else RuntimeWorks(s, s.api[u], a)
    ensures s2.api == s.api && s2.sched == s.sched
    ensures Runs(s2, u) <==> Runs(s, u) || Startable(s, u)
    ensures Startable(s, u) ==> OwnedBy(s, s2, u, s.api[u])
  {
    var o := s.api[u];
    var id, who := o.place.value.slotID, IdentityOf(u, o);
    CallEffect(s, o, W.OpReserve(id, who), Launching(u));
    CallEffect(s1, o, StartOp(u, o, a, b), Idle);
    RunsAtPlace(s, u);
    RunsAtPlace(s2, u);
    hide Call, Runs;
    if PodOf(o) in s.workers {
      var w := s.workers[PodOf(o)];
      if !Addressed(w, id, who) {
        RefusedSlot(w, W.OpReserve(id, who));
      } else {
        ReserveEffect(w, id, who);
        var w1 := W.Step(w, W.OpReserve(id, who)).0;
        if w.slots[id].state == W.Free || w.slots[id].owner.uid == u {
          if o.fromSnapshot {
            RestoreEffect(w1, id, who, b);
          } else {
            StartAfterReserve(w, w1, id, who, a);
          }
        }
      }
    }
    hide W.Step;
  }

  /** The status is asked of the Slot as the Reserve left it. */
  lemma StartAfterReserve(w: W.Worker, w1: W.Worker, id: SlotID, who: W.Identity, a: W.StartAnswers)
    requires Addressed(w, id, who) && id in w1.slots && w1.backend == w.backend
    requires w.slots[id].state == W.Free || w.slots[id].owner.uid == who.uid
    requires w1.slots[id] == if w.slots[id].state == W.Free
                             then w.slots[id].(state := W.Reserved, owner := who) else w.slots[id]
    requires a.status == (if LivesAt(w, id) then W.StatusRunning else W.StatusNotFound)
    requires a.stale.Deleted? && a.created.Some? && a.started
    ensures SameOwner(w1, W.Step(w1, W.OpStart(id, who, true, a)).0, id)
    ensures RunsAt(W.Step(w1, W.OpStart(id, who, true, a)).0, id, who.uid) <==>
      var s := w.slots[id];
      || s.state == W.Free || s.state == W.Reserved
      || (s.state == W.Starting && LivesAt(w, id) && w.backend.live[s.ref.value] == who.uid)
      || (s.state == W.Running && (LivesAt(w, id) ==> w.backend.live[s.ref.value] == who.uid))
  {
    ColdStartEffect(w1, id, who, a);
    hide W.Step;
  }

  // ---------------------------------------------------------------- restoring the assignment

  lemma RestoreIffRecordable(s: System, u: UID)
    requires u in s.api && s.api[u].place.Some?
    ensures Restore(s.sched, AssignmentOf(u, s.api[u])).1 <==> Recordable(s, u)
    ensures Recordable(s, u) ==>
      var sched := Restore(s.sched, AssignmentOf(u, s.api[u])).0;
      && u in sched.assignments && sched.assignments[u] == AssignmentOf(u, s.api[u])
      && Named(u, s.api[u], sched.assignments[u])
      && Place(sched.assignments[u].worker.name, sched.assignments[u].slotID) == s.api[u].place.value
    ensures !Recordable(s, u) ==> Restore(s.sched, AssignmentOf(u, s.api[u])).0 == s.sched
  {
  }

  // ---------------------------------------------------------------- assigning

  /** Where a sandbox without a place is put: where the Scheduler already has it, or on the Slot that suits
      it best, or nowhere if it has no profile or no Slot is free for it. */
  ghost predicate PlacedRight(s: System, u: UID, place: Option<Place>)
    requires u in s.api
  {
    var o := s.api[u];
    var req := AssignRequest(u, o.namespace, o.name, o.pool, o.profile);
    if u in s.sched.assignments then
      place == Some(Place(s.sched.assignments[u].worker.name, s.sched.assignments[u].slotID))
    else if place.Some? then
      req.profile != "" && BestFor(s.sched, req, WorkerKey(o.namespace, o.pool, place.value.worker), place.value.slotID)
    else
      req.profile == "" || forall k, id :: !FreeFor(s.sched, req, k, id)
  }

  /** The assignment is that of this sandbox, by its own name, namespace, pool and profile. */
  predicate Named(u: UID, o: Sandbox, a: Assignment) {
    a == Assignment(u, o.namespace, o.name, WorkerKey(o.namespace, o.pool, a.worker.name), a.slotID, o.profile)
  }

  lemma AssignPlacesRight(s: System, u: UID)
    requires u in s.api
    ensures var (sched, reply) := Assign(s.sched, RequestOf(u, s.api[u]));
      && (reply.Assigned? ==>
            && PlacedRight(s, u, Some(Place(reply.assignment.worker.name, reply.assignment.slotID)))
            && u in sched.assignments && sched.assignments[u] == reply.assignment
            && (u !in s.sched.assignments ==> Named(u, s.api[u], reply.assignment)))
      && (!reply.Assigned? ==> PlacedRight(s, u, None) && u !in s.sched.assignments && sched == s.sched)
  {
    var req := RequestOf(u, s.api[u]);
    if u !in s.sched.assignments && req.profile != "" {
      NoCapacityIff(s.sched, req);
      var reply := Assign(s.sched, req).1;
      if reply.Assigned? {
        NewAssignmentTakesOneSlot(s.sched, req);
        var k, id := reply.assignment.worker, reply.assignment.slotID;
        assert FreeFor(s.sched, req, k, id);
        assert k == KeyOf(s.api[u], k.name);
        AssignTakesIff(s.sched, req, k, id);
      }
    }
    hide BestFor;
  }

  // ---------------------------------------------------------------- deleting

  /** Nobody has the Slot of the sandbox. */
  predicate SlotFree(s: System, o: Sandbox) {
    HasSlot(s, o) && SlotOf(s, o).state == W.Free
  }

  lemma DeletedSlotIsFree(s: System, u: UID)
    requires u in s.api && s.api[u].place.Some? && Served(s, u, s.api[u])
    ensures SlotFree(AfterRelease(AfterStop(s, u), u), s.api[u])
  {
    var o := s.api[u];
    var id, who, w := o.place.value.slotID, IdentityOf(u, o), s.workers[PodOf(o)];
    StopGoesOnIff(s, u);
    CallEffect(s, o, W.OpStop(id, who, W.GOOD_STOP), Releasing(u));
    CallEffect(AfterStop(s, u), o, W.OpRelease(id, who, W.GOOD_RELEASE), Forgetting(u));
    StopOutcome(w, id, who, W.GOOD_STOP);
    var w1 := W.Step(w, W.OpStop(id, who, W.GOOD_STOP)).0;
    ReleaseOutcome(w1, id, who, W.GOOD_RELEASE);
    ReleaseDoneIff(w1, id, who, W.GOOD_RELEASE);
    hide W.Step, Call;
  }
}
