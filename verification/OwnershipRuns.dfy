/** What the slot ownership protocol guarantees between restarts of the controller, and how a
    restart gets back there. */
module OwnershipRuns {
  import opened Base
  import opened BinPack
  import opened Scheduler
  import R = SchedulerRuns
  import opened Ownership
  import W = WorkerSlots

  /** Whoever is placed and not deleting is known to the Scheduler, and so is the sandbox whose
      start is in progress. */
  ghost predicate PlacedKnown(s: System) {
    && (forall u :: u in s.api && s.api[u].place.Some? && !s.api[u].deleting ==> u in s.sched.assignments)
    && (s.phase.Restoring? || s.phase.Reserving? ==> s.phase.u in s.sched.assignments)
  }

  /** So is whoever owns a Worker Slot. */
  ghost predicate OwnersKnown(s: System) {
    forall u, pod, id :: Owns(s, u, pod, id) ==> u in s.sched.assignments
  }

  ghost predicate Settled(s: System) {
    Safe(s) && Inv(s.sched) && PlacedKnown(s)
  }

  // ---------------------------------------------------------------- every step but a restart keeps it

  lemma WorldInv(s: System, e: Event, s': System)
    requires Inv(s.sched) && WorldStep(s, e, s') && !e.Restart?
    ensures Inv(s'.sched)
  {
    hide Inv, W.Step, Updated;
    if e.Report? {
      UpdateKeepsInv(s.sched, e.report, s'.sched);
    } else if e.Remove? {
      RemoveKeepsInv(s.sched, e.key);
    } else {
      assert s'.sched == s.sched;
    }
  }

  lemma StartInv(s: System, e: Event, s': System)
    requires Inv(s.sched) && PlacedKnown(s) && StartStep(s, e, s')
    ensures Inv(s'.sched)
  {
    hide Inv, W.Step, Assign, HeldByOther;
    if e.Schedule? {
      AssignKeepsInv(s.sched, RequestOf(s.phase.u, s.api[s.phase.u]));
    } else {
      assert s'.sched == s.sched;
    }
  }

  lemma SchedInvKept(s: System, e: Event, s': System)
    requires Inv(s.sched) && PlacedKnown(s) && Next(s, e, s') && !e.Restart?
    ensures Inv(s'.sched)
  {
    hide Inv, PlacedKnown, WorldStep, StartStep, W.Step, Release;
    if WorldStep(s, e, s') {
      WorldInv(s, e, s');
    } else if StartStep(s, e, s') {
      StartInv(s, e, s');
    } else if e.Forget? {
      ReleaseKeepsInv(s.sched, s.phase.u);
    }
  }

  lemma WorldKnown(s: System, e: Event, s': System)
    requires Settled(s) && WorldStep(s, e, s') && !e.Restart?
    ensures PlacedKnown(s') && (OwnersKnown(s) ==> OwnersKnown(s'))
  {
    hide Owns, Inv, W.Step, Updated;
    WorldOwners(s, e, s');
    WorldAssignments(s, e, s');
    assert ApiChange(s, s');
    assert forall u :: u in s'.api && u !in s.api ==> s'.api[u].place.None?;
    assert s'.phase == s.phase;
    hide Safe, WorldStep;
  }

  lemma ScheduleKnown(s: System, e: Event, s': System)
    requires Settled(s) && StartStep(s, e, s') && (e.Schedule? || e.RestoreAssignment?)
    ensures PlacedKnown(s') && (OwnersKnown(s) ==> OwnersKnown(s'))
  {
    hide Inv;
    if e.Schedule? {
      AssignedAssignments(s.sched, RequestOf(s.phase.u, s.api[s.phase.u]));
    } else {
      RestoredAssignments(s.sched, AssignmentOf(s.phase.u, s.api[s.phase.u]));
    }
    hide Assign, Restore;
    assert s'.api == s.api && s'.workers == s.workers;
    assert s.sched.assignments.Keys <= s'.sched.assignments.Keys;
    assert OwnersShrink(s, s');
    hide Owns, OwnersOk, SchedOk, StartStep, ApiOk;
    assert s'.phase.Reserving? ==> s'.phase.u in s'.sched.assignments;
  }

  lemma OtherStartKnown(s: System, e: Event, s': System)
    requires Settled(s) && StartStep(s, e, s')
    requires !e.Schedule? && !e.RestoreAssignment? && !e.ReserveSlot? && !e.StartSandbox? && !e.StartFromSnapshot?
    ensures PlacedKnown(s') && (OwnersKnown(s) ==> OwnersKnown(s'))
  {
    hide Inv, OwnersOk, SchedOk, W.Step, Call, Assign, Restore;
    assert s'.workers == s.workers && s'.sched == s.sched;
    assert OwnersShrink(s, s');
    hide Owns;
  }

  lemma StartKnown(s: System, e: Event, s': System)
    requires Settled(s) && StartStep(s, e, s')
    ensures PlacedKnown(s') && (OwnersKnown(s) ==> OwnersKnown(s'))
  {
    hide Settled, StartStep, PlacedKnown, OwnersKnown;
    if e.Schedule? || e.RestoreAssignment? {
      ScheduleKnown(s, e, s');
    } else if e.ReserveSlot? || e.StartSandbox? || e.StartFromSnapshot? {
      CallKnown(s, e, s');
    } else {
      OtherStartKnown(s, e, s');
    }
  }

  lemma CallKnown(s: System, e: Event, s': System)
    requires Settled(s) && StartStep(s, e, s') && (e.ReserveSlot? || e.StartSandbox? || e.StartFromSnapshot?)
    ensures PlacedKnown(s') && (OwnersKnown(s) ==> OwnersKnown(s'))
  {
    var u := s.phase.u;
    var o := s.api[u];
    var id, who := o.place.value.slotID, IdentityOf(u, o);
    hide Inv, W.Step, OwnersOk, SchedOk;
    forall v, pod, slot | Owns(s', v, pod, slot) ensures Owns(s, v, pod, slot) || v in s.sched.assignments {
      match e {
        case ReserveSlot(outcome) => CallOwners(s, o, W.OpReserve(id, who), outcome, Launching(u), v, pod, slot);
        case StartSandbox(outcome, containerOk, a) =>
          CallOwners(s, o, W.OpStart(id, who, containerOk, a), outcome, Idle, v, pod, slot);
        case StartFromSnapshot(outcome, a) => CallOwners(s, o, W.OpRestore(id, who, a), outcome, Idle, v, pod, slot);
      }
    }
  }

  lemma DeleteKnown(s: System, e: Event, s': System)
    requires Settled(s) && DeleteStep(s, e, s')
    ensures PlacedKnown(s') && (OwnersKnown(s) ==> OwnersKnown(s'))
  {
    hide Inv, W.Step, SchedOk;
    var u := s.phase.u;
    forall v, pod, slot | Owns(s', v, pod, slot)
      ensures Owns(s, v, pod, slot) && (v in s.sched.assignments ==> v in s'.sched.assignments)
    {
      if e.StopSandbox? {
        var o := s.api[u];
        CallOwners(s, o, W.OpStop(o.place.value.slotID, IdentityOf(u, o), e.stop), e.outcome, Releasing(u), v, pod,
          slot);
      } else if e.ReleaseSlot? {
        var o := s.api[u];
        CallOwners(s, o, W.OpRelease(o.place.value.slotID, IdentityOf(u, o), e.release), e.outcome, Forgetting(u), v,
          pod, slot);
      }
      assert Owns(s, v, pod, slot);
    }
    if e.Forget? {
      ReleasedAssignments(s.sched, u);
    }
  }

  lemma NextSettled(s: System, e: Event, s': System)
    requires Settled(s) && Next(s, e, s') && !e.Restart?
    ensures Settled(s') && (OwnersKnown(s) ==> OwnersKnown(s'))
  {
    NextKeeps(s, e, s');
    SchedInvKept(s, e, s');
    hide Safe, Inv, PlacedKnown, OwnersKnown, WorldStep, StartStep, DeleteStep;
    if WorldStep(s, e, s') {
      WorldKnown(s, e, s');
    } else if StartStep(s, e, s') {
      StartKnown(s, e, s');
    } else {
      DeleteKnown(s, e, s');
    }
  }

  ghost predicate Steps(states: seq<System>, events: seq<Event>) {
    |states| == |events| + 1 && forall i :: 0 <= i < |events| ==> Next(states[i], events[i], states[i + 1])
  }

  lemma {:induction false} RunIsSettled(states: seq<System>, events: seq<Event>, n: nat)
    requires Steps(states, events) && Settled(states[0]) && n < |states|
    requires forall e :: e in events ==> !e.Restart?
    ensures Settled(states[n]) && (OwnersKnown(states[0]) ==> OwnersKnown(states[n]))
    decreases n
  {
    hide Settled, OwnersKnown, Next;
    if n > 0 {
      RunIsSettled(states, events, n - 1);
      NextSettled(states[n - 1], events[n - 1], states[n]);
    }
  }

  // ---------------------------------------------------------------- main results

  /** Between restarts no two sandboxes that are not being deleted are placed on the same Slot of the
      same Worker, whatever Workers report, replies are lost and writes fail. */
  lemma NoDoublePlacement(states: seq<System>, events: seq<Event>, n: nat, u: UID, v: UID)
    requires Steps(states, events) && Settled(states[0]) && n < |states|
    requires forall e :: e in events ==> !e.Restart?
    requires var api := states[n].api;
      && u in api && v in api && u != v && !api[u].deleting && !api[v].deleting && api[u].place.Some? &&
           api[v].place.Some?
    ensures var a, b := AssignmentOf(u, states[n].api[u]), AssignmentOf(v, states[n].api[v]);
      !At(a, b.worker, b.slotID)
  {
    RunIsSettled(states, events, n);
    var s := states[n];
    assert Agrees(u, s.api[u], s.sched.assignments[u]) && Agrees(v, s.api[v], s.sched.assignments[v]);
  }

  /** What is persisted for sandboxes that are not being deleted is what the Scheduler has. */
  ghost predicate PersistedIsRecorded(s: System) {
    forall u :: u in s.api && s.api[u].place.Some? && !s.api[u].deleting ==>
      u in s.sched.assignments && s.sched.assignments[u] == AssignmentOf(u, s.api[u])
  }

  lemma SettledIsRecorded(s: System)
    requires Settled(s)
    ensures PersistedIsRecorded(s)
  {
    hide Inv, OwnersOk;
    forall u | u in s.api && s.api[u].place.Some? && !s.api[u].deleting
      ensures u in s.sched.assignments && s.sched.assignments[u] == AssignmentOf(u, s.api[u])
    {
      assert Agrees(u, s.api[u], s.sched.assignments[u]);
    }
  }

  /** Between restarts the persisted assignment of a sandbox that is not being deleted is the
      Scheduler's, and restoring it before a start never reports a conflict. */
  lemma RestoreNeverConflicts(states: seq<System>, events: seq<Event>, i: nat)
    requires Steps(states, events) && Settled(states[0]) && i < |events|
    requires forall e :: e in events ==> !e.Restart?
    ensures PersistedIsRecorded(states[i])
    ensures events[i].RestoreAssignment? ==>
      states[i].phase.Restoring? && states[i + 1] == states[i].(phase := Reserving(states[i].phase.u))
  {
    RunIsSettled(states, events, i);
    assert Next(states[i], events[i], states[i + 1]);
    hide Inv, OwnersOk;
    var s := states[i];
    SettledIsRecorded(s);
    if events[i].RestoreAssignment? {
      var u := s.phase.u;
      assert Agrees(u, s.api[u], s.sched.assignments[u]);
    }
  }

  lemma InitiallySettled(s: System)
    requires Initial(s)
    ensures Settled(s) && OwnersKnown(s)
  {
  }

  /** From the empty system on, in every run without a restart, the last state included: live sandboxes
      are on different Slots, their persisted assignments are the Scheduler's, and a start never finds a
      conflict. */
  lemma RunNeverPlacesTwice(states: seq<System>, events: seq<Event>, i: nat)
    requires Trace(states, events) && i <= |events| && forall e :: e in events ==> !e.Restart?
    ensures PersistedIsRecorded(states[i]) && Injective(states[i].sched.assignments)
    ensures i < |events| && events[i].RestoreAssignment? ==>
      states[i].phase.Restoring? && states[i + 1] == states[i].(phase := Reserving(states[i].phase.u))
  {
    InitiallySettled(states[0]);
    hide Settled, OwnersKnown, Next, PersistedIsRecorded;
    RunIsSettled(states, events, i);
    SettledIsRecorded(states[i]);
    SettledInjective(states[i]);
    if i < |events| {
      RestoreNeverConflicts(states, events, i);
    }
  }

  lemma SettledInjective(s: System)
    requires Settled(s)
    ensures Injective(s.sched.assignments)
  {
  }
}
