/** A restart of the controller loses the Scheduler's assignments. The persisted ones are restored
    one by one when their sandboxes are reconciled; until then they are pending. */
module OwnershipRestart {
  import opened Base
  import opened BinPack
  import opened Scheduler
  import opened Ownership
  import opened OwnershipRuns
  import R = SchedulerRuns
  import W = WorkerSlots

  predicate Live(s: System, u: UID) {
    u in s.api && s.api[u].place.Some? && !s.api[u].deleting
  }

  /** Placed and still to be restored: a live sandbox, or the one whose start is in progress. */
  predicate Pending(s: System, u: UID) {
    && u in s.api && s.api[u].place.Some? && u !in s.sched.assignments
    && (!s.api[u].deleting || s.phase == Restoring(u))
  }

  /** The placement that is waiting to be restored. */
  function Wanted(s: System, u: UID): Assignment
    requires Pending(s, u)
  {
    AssignmentOf(u, s.api[u])
  }

  /** No assignment of the Scheduler and no other pending placement is on a pending Slot. */
  ghost predicate PendingApart(s: System) {
    && (forall u, v :: Pending(s, v) && u in s.sched.assignments ==>
         !At(s.sched.assignments[u], Wanted(s, v).worker, Wanted(s, v).slotID))
    && (forall u, v :: Pending(s, u) && Pending(s, v) && u != v ==>
         !At(Wanted(s, u), Wanted(s, v).worker, Wanted(s, v).slotID))
  }

  /** The Scheduler sees a pending Slot free or occupied by the sandbox it is persisted for. */
  ghost predicate PendingShown(s: System) {
    forall v :: Pending(s, v) && Wanted(s, v).worker in s.sched.workers ==>
      R.Attributed(s.sched.workers[Wanted(s, v).worker].slots, Wanted(s, v))
  }

  ghost predicate Recovering(s: System) {
    && Safe(s) && Inv(s.sched) && PendingApart(s) && PendingShown(s)
    && (s.phase.Reserving? ==> s.phase.u in s.sched.assignments)
  }

  /** The sandbox that is about to be assigned is new to the Scheduler, and the best Slot free for it is
      one a pending sandbox is placed on. */
  ghost predicate TakesPending(s: System) {
    && s.phase.Assigning? && s.phase.u in s.api && s.phase.u !in s.sched.assignments && s.api[s.phase.u].profile != ""
    && exists v :: Pending(s, v) &&
         BestFor(s.sched, RequestOf(s.phase.u, s.api[s.phase.u]), Wanted(s, v).worker, Wanted(s, v).slotID)
  }

  /** All that is asked of the world: a report does not show a pending Slot occupied by somebody else,
      and a new assignment does not take one. Nothing is asked when nothing is pending. */
  ghost predicate RecoveryEvent(s: System, e: Event) {
    && (e.Report? ==> forall v :: Pending(s, v) && Wanted(s, v).worker == e.report.key ==>
         R.Attributed(e.report.slots, Wanted(s, v)))
    && (e.Schedule? && e.profileKnown ==> !TakesPending(s))
  }

  // ---------------------------------------------------------------- settled states and restarts

  lemma AgreesOnPlace(s: System, u: UID)
    requires SchedOk(s) && u in s.sched.assignments && u in s.api && s.api[u].place.Some?
    ensures s.sched.assignments[u] == AssignmentOf(u, s.api[u])
  {
    assert Agrees(u, s.api[u], s.sched.assignments[u]);
  }

  /** In a settled state nothing is pending. */
  lemma SettledRecovering(s: System)
    requires Settled(s)
    ensures Recovering(s)
  {
    hide Safe, Inv;
    assert forall v :: !Pending(s, v);
  }

  /** Two live sandboxes are never placed on the same Slot of the same Worker. */
  lemma LiveApart(s: System, u: UID, v: UID)
    requires Recovering(s) && Live(s, u) && Live(s, v) && u != v
    ensures !At(AssignmentOf(u, s.api[u]), AssignmentOf(v, s.api[v]).worker, AssignmentOf(v, s.api[v]).slotID)
  {
    if u in s.sched.assignments { AgreesOnPlace(s, u); } else { assert Pending(s, u); }
    if v in s.sched.assignments { AgreesOnPlace(s, v); } else { assert Pending(s, v); }
    hide Safe, PendingShown;
  }

  /** A restart makes every live placement pending and nothing else. */
  lemma RestartKeeps(s: System, s': System)
    requires Recovering(s) && WorldStep(s, Restart, s')
    ensures Recovering(s')
  {
    WorldKeeps(s, Restart, s');
    forall u, v | Pending(s', u) && Pending(s', v) && u != v
      ensures !At(Wanted(s', u), Wanted(s', v).worker, Wanted(s', v).slotID)
    {
      LiveApart(s, u, v);
    }
    hide Safe, Recovering;
  }

  // ---------------------------------------------------------------- every step keeps it

  /** The same placements are pending, or fewer, and the Scheduler has not changed. */
  ghost predicate PendingShrinks(s: System, s': System) {
    && s'.sched == s.sched
    && forall v :: Pending(s', v) ==> Pending(s, v) && Wanted(s', v) == Wanted(s, v)
  }

  lemma ShrunkRecovers(s: System, s': System)
    requires Recovering(s) && Safe(s') && PendingShrinks(s, s')
    requires s'.phase.Reserving? ==> s'.phase.u in s'.sched.assignments
    ensures Recovering(s')
  {
    hide Safe, Inv, Pending;
  }

  lemma ReportRecovers(s: System, e: Event, s': System)
    requires Recovering(s) && e.Report? && WorldStep(s, e, s') && RecoveryEvent(s, e)
    ensures Recovering(s')
  {
    WorldKeeps(s, e, s');
    UpdateKeepsInv(s.sched, e.report, s'.sched);
    hide Safe, Inv;
    assert forall v :: Pending(s', v) <==> Pending(s, v);
    forall v | Pending(s', v) && Wanted(s', v).worker in s'.sched.workers
      ensures R.Attributed(s'.sched.workers[Wanted(s', v).worker].slots, Wanted(s', v))
    {
      var a := Wanted(s, v);
      if a.worker == e.report.key && a.slotID in e.report.slots {
        assert R.Attributed(e.report.slots, a);
        assert Shown(s.sched, a.worker, a.slotID, e.report.slots[a.slotID], s'.sched.workers[a.worker].slots[a.slotID]);
        assert forall u :: !HeldBy(s.sched, a.worker, a.slotID, u);
      }
    }
  }

  lemma RemoveRecovers(s: System, e: Event, s': System)
    requires Recovering(s) && e.Remove? && WorldStep(s, e, s')
    ensures Recovering(s')
  {
    WorldKeeps(s, e, s');
    RemoveKeepsInv(s.sched, e.key);
    hide Safe, Inv;
    assert forall v :: Pending(s', v) <==> Pending(s, v);
  }

  lemma WorldRecovers(s: System, e: Event, s': System)
    requires Recovering(s) && WorldStep(s, e, s') && RecoveryEvent(s, e)
    ensures Recovering(s')
  {
    hide Safe, Inv, W.Step, Updated;
    if e.Restart? {
      RestartKeeps(s, s');
    } else if e.Report? {
      ReportRecovers(s, e, s');
    } else if e.Remove? {
      RemoveRecovers(s, e, s');
    } else {
      WorldKeeps(s, e, s');
      assert ApiChange(s, s') && s'.sched == s.sched && s'.phase == s.phase;
      assert forall u :: u in s'.api && u !in s.api ==> s'.api[u].place.None?;
      hide WorldStep, Safe, Inv, W.Step;
      ShrunkRecovers(s, s');
    }
  }

  lemma ScheduleRecovers(s: System, e: Event, s': System)
    requires Recovering(s) && e.Schedule? && StartStep(s, e, s') && RecoveryEvent(s, e)
    ensures Recovering(s')
  {
    StartKeeps(s, e, s');
    var u := s.phase.u;
    var req := RequestOf(u, s.api[u]);
    assert s.api[u].place.None?;
    AssignKeepsInv(s.sched, req);
    AssignedAssignments(s.sched, req);
    if e.profileKnown && Assign(s.sched, req).1.Assigned? && u !in s.sched.assignments {
      NewAssignmentTakesOneSlot(s.sched, req);
      NotTaken(s);
      hide Assign, Safe, Inv, TakesPending;
      TakenElsewhere(s, s', req);
    } else {
      AssignedBeforeOrNot(s.sched, req);
      hide Assign;
      assert s'.sched == s.sched;
      hide Safe, Inv, TakesPending;
      ShrunkRecovers(s, s');
    }
  }

  lemma NotTaken(s: System)
    requires s.phase.Assigning? && s.phase.u in s.api && s.phase.u !in s.sched.assignments && !TakesPending(s)
    requires Assign(s.sched, RequestOf(s.phase.u, s.api[s.phase.u])).1.Assigned?
    ensures var a := Assign(s.sched, RequestOf(s.phase.u, s.api[s.phase.u])).1.assignment;
      forall v :: Pending(s, v) ==> !At(Wanted(s, v), a.worker, a.slotID)
  {
    var req := RequestOf(s.phase.u, s.api[s.phase.u]);
    assert req.profile != "";
    hide BestFor, Assign;
    forall v | Pending(s, v)
      ensures !At(Wanted(s, v), Assign(s.sched, req).1.assignment.worker, Assign(s.sched, req).1.assignment.slotID)
    {
      AssignTakesIff(s.sched, req, Wanted(s, v).worker, Wanted(s, v).slotID);
    }
  }

  lemma AssignedBeforeOrNot(s: Sched, req: AssignRequest)
    ensures req.uid in s.assignments || !Assign(s, req).1.Assigned? ==> Assign(s, req).0 == s
  {
  }

  /** A new assignment elsewhere leaves the pending Slots as they were. */
  lemma TakenElsewhere(s: System, s': System, req: AssignRequest)
    requires PendingApart(s) && PendingShown(s) && s'.api == s.api && !s'.phase.Restoring? && req.uid in s.api
    requires var (sched, reply) := Assign(s.sched, req);
      && reply.Assigned? && s'.sched == sched && req.uid !in s.sched.assignments
      && sched.assignments == s.sched.assignments[req.uid := reply.assignment]
      && (forall v :: Pending(s, v) ==> !At(Wanted(s, v), reply.assignment.worker, reply.assignment.slotID))
      && sched.workers.Keys == s.sched.workers.Keys
      && (forall k, id :: Visible(sched, k, id) <==> Visible(s.sched, k, id))
      && (forall k, id :: Visible(s.sched, k, id) && !At(reply.assignment, k, id) ==>
           InfoAt(sched, k, id) == InfoAt(s.sched, k, id))
    ensures PendingApart(s') && PendingShown(s')
  {
    hide Assign;
    assert forall v :: Pending(s', v) ==> Pending(s, v);
    forall v | Pending(s', v) && Wanted(s', v).worker in s'.sched.workers
      ensures R.Attributed(s'.sched.workers[Wanted(s', v).worker].slots, Wanted(s', v))
    {
      var a := Wanted(s, v);
      assert R.Attributed(s.sched.workers[a.worker].slots, a);
      assert Visible(s'.sched, a.worker, a.slotID) <==> Visible(s.sched, a.worker, a.slotID);
    }
  }

  /** The start of a pending sandbox restores its placement without conflict. */
  lemma RestoreRecovers(s: System, e: Event, s': System)
    requires Recovering(s) && e.RestoreAssignment? && StartStep(s, e, s')
    ensures Recovering(s') && s'.phase == Reserving(s.phase.u)
  {
    StartKeeps(s, e, s');
    var u := s.phase.u;
    var a := AssignmentOf(u, s.api[u]);
    if u in s.sched.assignments {
      AgreesOnPlace(s, u);
      assert s'.sched == s.sched;
      hide Safe, Inv;
      ShrunkRecovers(s, s');
    } else {
      assert Pending(s, u);
      assert !HeldByOther(s.sched, a);
      RestoreKeepsInvIff(s.sched, a);
      hide Safe, Inv, HeldByOther;
      RestoredElsewhere(s, s', u);
    }
  }

  lemma RestoredElsewhere(s: System, s': System, u: UID)
    requires PendingApart(s) && PendingShown(s) && Pending(s, u) && s'.api == s.api && !s'.phase.Restoring?
    requires Restore(s.sched, Wanted(s, u)) == (s'.sched, true)
    ensures PendingApart(s') && PendingShown(s') && u in s'.sched.assignments
  {
    assert forall v :: Pending(s', v) ==> Pending(s, v) && v != u;
    forall v | Pending(s', v) && Wanted(s', v).worker in s'.sched.workers
      ensures R.Attributed(s'.sched.workers[Wanted(s', v).worker].slots, Wanted(s', v))
    {
      assert R.Attributed(s.sched.workers[Wanted(s, v).worker].slots, Wanted(s, v));
      assert !At(Wanted(s, u), Wanted(s, v).worker, Wanted(s, v).slotID);
    }
  }

  lemma OtherStartRecovers(s: System, e: Event, s': System)
    requires Recovering(s) && StartStep(s, e, s') && !e.Schedule? && !e.RestoreAssignment?
    ensures Recovering(s')
  {
    hide OwnersOk, SchedOk, Inv, W.Step, Assign, Restore;
    StartKeeps(s, e, s');
    assert s'.sched == s.sched;
    assert PendingShrinks(s, s');
    hide StartStep;
    ShrunkRecovers(s, s');
  }

  lemma StartRecovers(s: System, e: Event, s': System)
    requires Recovering(s) && StartStep(s, e, s') && RecoveryEvent(s, e)
    ensures Recovering(s') && (e.RestoreAssignment? ==> s.phase.Restoring? && s'.phase == Reserving(s.phase.u))
  {
    if e.Schedule? {
      ScheduleRecovers(s, e, s');
    } else if e.RestoreAssignment? {
      RestoreRecovers(s, e, s');
    } else {
      OtherStartRecovers(s, e, s');
    }
    hide Recovering, RecoveryEvent, Restore, Assign;
  }

  lemma ForgetRecovers(s: System, e: Event, s': System)
    requires Recovering(s) && e.Forget? && DeleteStep(s, e, s')
    ensures Recovering(s')
  {
    DeleteKeeps(s, e, s');
    ReleaseKeepsInv(s.sched, s.phase.u);
    assert s.api[s.phase.u].deleting;
    hide Safe, Inv;
    assert forall v :: Pending(s', v) ==> Pending(s, v);
    forall v | Pending(s', v) && Wanted(s', v).worker in s'.sched.workers
      ensures R.Attributed(s'.sched.workers[Wanted(s', v).worker].slots, Wanted(s', v))
    {
      assert R.Attributed(s.sched.workers[Wanted(s, v).worker].slots, Wanted(s, v));
    }
  }

  lemma DeleteRecovers(s: System, e: Event, s': System)
    requires Recovering(s) && DeleteStep(s, e, s')
    ensures Recovering(s')
  {
    if e.Forget? {
      ForgetRecovers(s, e, s');
    } else {
      DeleteKeeps(s, e, s');
      assert s'.sched == s.sched && !s'.phase.Restoring? && !s'.phase.Reserving?;
      assert forall v :: v in s'.api ==> v in s.api && s'.api[v] == s.api[v];
      hide Safe, Inv, DeleteStep;
      ShrunkRecovers(s, s');
    }
  }

  lemma NextRecovers(s: System, e: Event, s': System)
    requires Recovering(s) && Next(s, e, s') && RecoveryEvent(s, e)
    ensures Recovering(s') && (e.RestoreAssignment? ==> s.phase.Restoring? && s'.phase == Reserving(s.phase.u))
  {
    hide Recovering, RecoveryEvent, WorldStep, StartStep, DeleteStep;
    if WorldStep(s, e, s') {
      WorldRecovers(s, e, s');
      NotARestore(s, e, s');
    } else if StartStep(s, e, s') {
      StartRecovers(s, e, s');
    } else {
      DeleteRecovers(s, e, s');
      NotARestore(s, e, s');
    }
  }

  lemma NotARestore(s: System, e: Event, s': System)
    requires WorldStep(s, e, s') || DeleteStep(s, e, s')
    ensures !e.RestoreAssignment?
  {
  }

  // ---------------------------------------------------------------- main results

  ghost predicate RecoveryRun(states: seq<System>, events: seq<Event>) {
    Steps(states, events) && forall i :: 0 <= i < |events| ==> RecoveryEvent(states[i], events[i])
  }

  lemma {:induction false} RunRecovers(states: seq<System>, events: seq<Event>, n: nat)
    requires RecoveryRun(states, events) && Recovering(states[0]) && n < |states|
    ensures Recovering(states[n])
    decreases n
  {
    hide Recovering, Next, RecoveryEvent;
    if n > 0 {
      RunRecovers(states, events, n - 1);
      NextRecovers(states[n - 1], events[n - 1], states[n]);
    }
  }

  predicate PlacedApart(s: System, u: UID, v: UID)
    requires Live(s, u) && Live(s, v)
  {
    !At(AssignmentOf(u, s.api[u]), AssignmentOf(v, s.api[v]).worker, AssignmentOf(v, s.api[v]).slotID)
  }

  ghost predicate PlacedTwice(s: System) {
    exists u, v :: Live(s, u) && Live(s, v) && u != v && !PlacedApart(s, u, v)
  }

  lemma NotPlacedTwice(s: System)
    requires Recovering(s)
    ensures !PlacedTwice(s)
  {
    forall u, v | Live(s, u) && Live(s, v) && u != v ensures PlacedApart(s, u, v) {
      LiveApart(s, u, v);
    }
  }

  /** Restart recovery of the whole system, with any number of restarts, also in the middle of a
      recovery, and with deleting sandboxes the Scheduler no longer knows: every start in progress
      restores its placement without conflict, live sandboxes stay on different Slots throughout, and
      whenever all of them are restored the state is settled. */
  lemma RestartRecovery(states: seq<System>, events: seq<Event>, i: nat)
    requires RecoveryRun(states, events) && Settled(states[0]) && i < |events|
    ensures events[i].RestoreAssignment? ==>
      states[i].phase.Restoring? && states[i + 1].phase == Reserving(states[i].phase.u)
    ensures !PlacedTwice(states[i + 1])
    ensures PlacedKnown(states[i + 1]) ==> Settled(states[i + 1])
  {
    SettledRecovering(states[0]);
    RunRecovers(states, events, i);
    RunRecovers(states, events, i + 1);
    assert RecoveryEvent(states[i], events[i]) && Next(states[i], events[i], states[i + 1]);
    NextRecovers(states[i], events[i], states[i + 1]);
    NotPlacedTwice(states[i + 1]);
    hide Safe, PlacedTwice, Inv, PendingApart, PendingShown, RecoveryEvent, PlacedKnown;
  }

  /** What a new assignment may not do: it places two live sandboxes on one Slot exactly when, before
      the call, the best Slot for it is one a pending sandbox is placed on. */
  lemma NewAssignmentPlacesTwiceIff(s: System, s1: System, s2: System)
    requires Recovering(s) && s.phase.Assigning? && !s.api[s.phase.u].deleting
    requires StartStep(s, Schedule(true), s1) && s1.phase.Persisting? && StartStep(s1, Persist(Succeeds), s2)
    ensures PlacedTwice(s2) <==> TakesPending(s)
  {
    var u := s.phase.u;
    var a := s1.phase.a;
    var req := RequestOf(u, s.api[u]);
    StartKeeps(s, Schedule(true), s1);
    assert s1.api == s.api && s1.phase == Persisting(u, a) && a == Assign(s.sched, req).1.assignment;
    assert s2.api == s.api[u := s.api[u].(place := Some(Place(a.worker.name, a.slotID)))];
    assert Agrees(u, s1.api[u], a);
    assert AssignmentOf(u, s2.api[u]) == a;
    hide BestFor, Assign;
    if TakesPending(s) {
      var v :| Pending(s, v) && BestFor(s.sched, req, Wanted(s, v).worker, Wanted(s, v).slotID);
      AssignTakesIff(s.sched, req, Wanted(s, v).worker, Wanted(s, v).slotID);
      assert v != u && Live(s2, v) && Live(s2, u) && !PlacedApart(s2, u, v);
    } else {
      ScheduleRecovers(s, Schedule(true), s1);
      StartRecovers(s1, Persist(Succeeds), s2);
      NotPlacedTwice(s2);
    }
  }

  // ---------------------------------------------------------------- truthful reports

  /** A Worker Pod belongs to one pool. */
  ghost predicate OnePoolPerPod(s: System) {
    forall u, v ::
      u in s.api && v in s.api && s.api[u].place.Some? && s.api[v].place.Some? && PodOf(s.api[u]) == PodOf(s.api[v]) ==>
      s.api[u].pool == s.api[v].pool
  }

  /** A Worker Slot on which a sandbox is live or pending is owned by no other. */
  ghost predicate Undisputed(s: System) {
    forall u, pod, id, v :: Owns(s, u, pod, id) && (Live(s, v) || Pending(s, v)) && PlacedOn(s, v, pod, id) ==> u == v
  }

  predicate PlacedOn(s: System, v: UID, pod: Pod, id: SlotID) {
    v in s.api && s.api[v].place.Some? && PodOf(s.api[v]) == pod && s.api[v].place.value.slotID == id
  }

  /** So it is where every owner is known to the Scheduler, in particular before the first restart. */
  lemma KnownUndisputed(s: System)
    requires Settled(s) && OwnersKnown(s) && OnePoolPerPod(s)
    ensures Undisputed(s)
  {
    forall u, pod, id, v | Owns(s, u, pod, id) && (Live(s, v) || Pending(s, v)) && PlacedOn(s, v, pod, id)
      ensures u == v
    {
      AgreesOnPlace(s, u);
      AgreesOnPlace(s, v);
      assert At(s.sched.assignments[u], s.sched.assignments[v].worker, s.sched.assignments[v].slotID);
    }
  }

  /** The Slot a placement is being persisted on has no other owner. */
  ghost predicate PersistsUnowned(s: System, e: Event) {
    e.Persist? && s.phase.Persisting? ==>
      var a := s.phase.a;
      forall u :: Owns(s, u, Pod(a.worker.namespace, a.worker.name), a.slotID) ==> u == s.phase.u
  }

  lemma UndisputedAt(s: System, e: Event, s': System, u: UID, pod: Pod, id: SlotID, v: UID)
    requires Recovering(s) && OnePoolPerPod(s) && Undisputed(s) && Next(s, e, s') && PersistsUnowned(s, e)
    requires Owns(s', u, pod, id) && (Live(s', v) || Pending(s', v)) && PlacedOn(s', v, pod, id)
    ensures u == v
  {
    hide Next, RecoveryEvent, Inv, PendingApart, PendingShown;
    OwnerBefore(s, e, s', u, pod, id);
    PlacedBefore(s, e, s', v, pod, id);
    if Owns(s, u, pod, id) {
      hide OnePoolPerPod;
    } else if u != v {
      hide Undisputed, PersistsUnowned;
      ReserverApart(s, u, v);
    }
  }

  /** It stays so in every step that does not place a sandbox on a Slot somebody else owns. */
  lemma UndisputedKept(s: System, e: Event, s': System)
    requires Recovering(s) && OnePoolPerPod(s) && Undisputed(s) && Next(s, e, s') && RecoveryEvent(s, e)
    requires PersistsUnowned(s, e)
    ensures Undisputed(s')
  {
    hide Recovering, OnePoolPerPod, Next, RecoveryEvent, PersistsUnowned, Owns, Live, Pending, PlacedOn;
    forall u, pod, id, v | Owns(s', u, pod, id) && (Live(s', v) || Pending(s', v)) && PlacedOn(s', v, pod, id)
      ensures u == v
    {
      UndisputedAt(s, e, s', u, pod, id, v);
    }
  }

  ghost predicate OwnerChangeOk(s: System, e: Event, s': System, u: UID, pod: Pod, id: SlotID) {
    Owns(s, u, pod, id) ||
      (e.ReserveSlot? && s.phase == Reserving(u) && PlacedOn(s, u, pod, id) && s'.api == s.api && s'.sched == s.sched)
  }

  lemma OwnerBeforeStart(s: System, e: Event, s': System, u: UID, pod: Pod, id: SlotID)
    requires Safe(s) && StartStep(s, e, s') && Owns(s', u, pod, id)
    ensures OwnerChangeOk(s, e, s', u, pod, id)
  {
    hide W.Step, Inv, Owns, OwnersOk, SchedOk, ApiOk;
    if e.ReserveSlot? || e.StartSandbox? || e.StartFromSnapshot? {
      var o := s.api[s.phase.u];
      var slotID, who := o.place.value.slotID, IdentityOf(s.phase.u, o);
      if e.ReserveSlot? {
        CallOwners(s, o, W.OpReserve(slotID, who), e.outcome, Launching(s.phase.u), u, pod, id);
      } else if e.StartSandbox? {
        CallOwners(s, o, W.OpStart(slotID, who, e.containerOk, e.start), e.outcome, Idle, u, pod, id);
      } else {
        CallOwners(s, o, W.OpRestore(slotID, who, e.restore), e.outcome, Idle, u, pod, id);
      }
    } else {
      assert s'.workers == s.workers;
      SameWorkersSameOwners(s, s', u, pod, id);
    }
  }

  lemma OwnerBeforeDelete(s: System, e: Event, s': System, u: UID, pod: Pod, id: SlotID)
    requires Safe(s) && DeleteStep(s, e, s') && Owns(s', u, pod, id)
    ensures OwnerChangeOk(s, e, s', u, pod, id)
  {
    hide W.Step, Inv, Owns, OwnersOk, SchedOk, ApiOk;
    if e.StopSandbox? || e.ReleaseSlot? {
      var o := s.api[s.phase.u];
      var slotID, who := o.place.value.slotID, IdentityOf(s.phase.u, o);
      if e.StopSandbox? {
        CallOwners(s, o, W.OpStop(slotID, who, e.stop), e.outcome, Releasing(s.phase.u), u, pod, id);
      } else {
        CallOwners(s, o, W.OpRelease(slotID, who, e.release), e.outcome, Forgetting(s.phase.u), u, pod, id);
      }
    } else {
      assert s'.workers == s.workers;
      SameWorkersSameOwners(s, s', u, pod, id);
    }
  }

  /** Who owns a Slot after a step owned it before, or is just reserving it on its own place. */
  lemma OwnerBefore(s: System, e: Event, s': System, u: UID, pod: Pod, id: SlotID)
    requires Safe(s) && Next(s, e, s') && Owns(s', u, pod, id)
    ensures OwnerChangeOk(s, e, s', u, pod, id)
  {
    hide Safe, StartStep, DeleteStep;
    if WorldStep(s, e, s') {
      hide WorldStep;
      WorldOwners(s, e, s');
    } else if StartStep(s, e, s') {
      OwnerBeforeStart(s, e, s', u, pod, id);
    } else {
      OwnerBeforeDelete(s, e, s', u, pod, id);
    }
  }

  lemma SameWorkersSameOwners(s: System, s': System, u: UID, pod: Pod, id: SlotID)
    requires s'.workers == s.workers
    ensures Owns(s', u, pod, id) == Owns(s, u, pod, id)
  {
  }

  /** Who is live or pending on a Slot after a step was so before, or is just being placed there. */
  lemma PlacedBefore(s: System, e: Event, s': System, v: UID, pod: Pod, id: SlotID)
    requires Safe(s) && Next(s, e, s') && (Live(s', v) || Pending(s', v)) && PlacedOn(s', v, pod, id)
    ensures ((Live(s, v) || Pending(s, v)) && PlacedOn(s, v, pod, id))
      || (e.Persist? && s.phase.Persisting? && s.phase.u == v &&
           pod == Pod(s.phase.a.worker.namespace, s.phase.a.worker.name)
          && id == s.phase.a.slotID && s'.workers == s.workers)
  {
    hide Inv, Safe, WorldStep, StartStep, DeleteStep, Live, Pending, PlacedOn;
    if WorldStep(s, e, s') {
      PlacedBeforeWorld(s, e, s', v, pod, id);
    } else if StartStep(s, e, s') {
      PlacedBeforeStart(s, e, s', v, pod, id);
    } else {
      PlacedBeforeDelete(s, e, s', v, pod, id);
    }
  }

  lemma PlacedBeforeWorld(s: System, e: Event, s': System, v: UID, pod: Pod, id: SlotID)
    requires Safe(s) && WorldStep(s, e, s') && (Live(s', v) || Pending(s', v)) && PlacedOn(s', v, pod, id)
    ensures (Live(s, v) || Pending(s, v)) && PlacedOn(s, v, pod, id)
  {
    WorldAssignments(s, e, s');
    assert ApiChange(s, s') && (s'.phase == s.phase || e.Restart?);
    assert v in s.api;
    hide WorldStep, SchedOk, OwnersOk, ApiOk;
  }

  lemma PlacedBeforeStart(s: System, e: Event, s': System, v: UID, pod: Pod, id: SlotID)
    requires Safe(s) && StartStep(s, e, s') && (Live(s', v) || Pending(s', v)) && PlacedOn(s', v, pod, id)
    ensures ((Live(s, v) || Pending(s, v)) && PlacedOn(s, v, pod, id))
      || (e.Persist? && s.phase.Persisting? && s.phase.u == v &&
           pod == Pod(s.phase.a.worker.namespace, s.phase.a.worker.name)
          && id == s.phase.a.slotID && s'.workers == s.workers)
  {
    hide W.Step, OwnersOk, Assign, Restore;
    if e.Persist? {
      AssignmentAgrees(s, s.phase.u);
    }
    hide SchedOk;
  }

  lemma PlacedBeforeDelete(s: System, e: Event, s': System, v: UID, pod: Pod, id: SlotID)
    requires Safe(s) && DeleteStep(s, e, s') && (Live(s', v) || Pending(s', v)) && PlacedOn(s', v, pod, id)
    ensures (Live(s, v) || Pending(s, v)) && PlacedOn(s, v, pod, id)
  {
    hide W.Step, OwnersOk, SchedOk, Release;
    assert v in s.api && s'.api[v] == s.api[v] && !s'.phase.Restoring?;
  }

  /** The sandbox that reserves is on a Slot where no other is live or pending. */
  lemma ReserverApart(s: System, u: UID, v: UID)
    requires Recovering(s) && OnePoolPerPod(s) && s.phase == Reserving(u) && (Live(s, v) || Pending(s, v)) && u != v
    requires s.api[u].place.Some?
    ensures !(PodOf(s.api[u]) == PodOf(s.api[v]) && s.api[u].place.value.slotID == s.api[v].place.value.slotID)
  {
    AgreesOnPlace(s, u);
    if v in s.sched.assignments {
      AgreesOnPlace(s, v);
    } else {
      assert Pending(s, v);
    }
    hide Safe;
  }

  /** Then a Worker that reports its Slots as they are attributes every pending Slot rightly. */
  lemma TrueReportAttributed(s: System, pod: Pod, report: WorkerState)
    requires Undisputed(s) && pod in s.workers && report.key.namespace == pod.namespace && report.key.name == pod.name
    requires forall id :: id in report.slots ==>
      (id in s.workers[pod].slots && report.slots[id].state == s.workers[pod].slots[id].state
       && report.slots[id].uid == s.workers[pod].slots[id].owner.uid)
    ensures RecoveryEvent(s, Report(report))
  {
    forall v | Pending(s, v) && Wanted(s, v).worker == report.key ensures R.Attributed(report.slots, Wanted(s, v)) {
      var id := Wanted(s, v).slotID;
      if id in report.slots && report.slots[id].state != W.Free {
        assert Owns(s, report.slots[id].uid, pod, id) && PlacedOn(s, v, pod, id);
      }
    }
  }
}
