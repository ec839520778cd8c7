/** Runtime objects across the whole system: each belongs to a sandbox that still exists. */
module OwnershipAccounting {
  import opened Base
  import opened Ownership
  import opened Scheduler
  import W = WorkerSlots

  /** What is assumed of one step: a UID is used for one sandbox only, whose spec says for life how
      it starts; a new Pod's Worker is in order; runtime IDs are not given out twice. */
  ghost predicate Assumed(s: System, e: Event, fromSnapshot: W.Kinds) {
    match e
    case Create(u, o) => o.fromSnapshot == fromSnapshot(u)
    case PodStarts(_, w) => W.WorkerInv(w, fromSnapshot)
    case StartSandbox(_, containerOk, a) =>
      s.phase.Launching? && s.phase.u in s.api && s.api[s.phase.u].place.Some? &&
        PodOf(s.api[s.phase.u]) in s.workers ==>
        var o := s.api[s.phase.u];
        W.FreshIDs(s.workers[PodOf(o)], W.OpStart(o.place.value.slotID, IdentityOf(s.phase.u, o), containerOk, a))
    case StartFromSnapshot(_, a) =>
      s.phase.Launching? && s.phase.u in s.api && s.api[s.phase.u].place.Some? &&
        PodOf(s.api[s.phase.u]) in s.workers ==>
        var o := s.api[s.phase.u];
        W.FreshIDs(s.workers[PodOf(o)], W.OpRestore(o.place.value.slotID, IdentityOf(s.phase.u, o), a))
    case _ => true
  }

  ghost predicate Accounted(s: System, fromSnapshot: W.Kinds) {
    && (forall pod :: pod in s.workers ==> W.WorkerInv(s.workers[pod], fromSnapshot))
    && (forall u :: u in s.api ==> s.api[u].fromSnapshot == fromSnapshot(u))
  }

  lemma CallAccounted(s: System, u: UID, op: W.Op, outcome: Outcome, next: Phase, fromSnapshot: W.Kinds)
    requires Accounted(s, fromSnapshot) && u in s.api && s.api[u].place.Some?
    requires W.KindOk(op, fromSnapshot)
    requires PodOf(s.api[u]) in s.workers ==> W.FreshIDs(s.workers[PodOf(s.api[u])], op)
    ensures Accounted(Call(s, s.api[u], op, outcome, next), fromSnapshot)
  {
    hide W.WorkerInv, W.FreshIDs, W.Step, W.KindOk;
    var pod := PodOf(s.api[u]);
    if pod in s.workers {
      KindAndIDsLegal(s.workers[pod], op, fromSnapshot);
      W.StepKeeps(s.workers[pod], op, fromSnapshot);
    }
  }

  lemma KindAndIDsLegal(w: W.Worker, op: W.Op, fromSnapshot: W.Kinds)
    requires W.KindOk(op, fromSnapshot) && W.FreshIDs(w, op)
    ensures W.Legal(w, op, fromSnapshot)
  {
  }

  lemma WorldAccounted(s: System, e: Event, s': System, fromSnapshot: W.Kinds)
    requires Accounted(s, fromSnapshot) && WorldStep(s, e, s') && Assumed(s, e, fromSnapshot)
    ensures Accounted(s', fromSnapshot)
  {
    if e.WorkerDoes? {
      W.StepKeeps(s.workers[e.pod], e.op, fromSnapshot);
    }
    hide W.WorkerInv, W.Step;
  }

  lemma LaunchAccounted(s: System, e: Event, s': System, fromSnapshot: W.Kinds)
    requires Accounted(s, fromSnapshot) && StartStep(s, e, s') && Assumed(s, e, fromSnapshot)
    requires e.ReserveSlot? || e.StartSandbox? || e.StartFromSnapshot?
    ensures Accounted(s', fromSnapshot)
  {
    hide W.WorkerInv, W.Step, W.Unreferenced;
    var u := s.phase.u;
    var id, who := s.api[u].place.value.slotID, IdentityOf(u, s.api[u]);
    match e
    case ReserveSlot(outcome) => CallAccounted(s, u, W.OpReserve(id, who), outcome, Launching(u), fromSnapshot);
    case StartSandbox(outcome, containerOk, a) =>
      CallAccounted(s, u, W.OpStart(id, who, containerOk, a), outcome, Idle, fromSnapshot);
    case StartFromSnapshot(outcome, a) => CallAccounted(s, u, W.OpRestore(id, who, a), outcome, Idle, fromSnapshot);
  }

  lemma StartAccounted(s: System, e: Event, s': System, fromSnapshot: W.Kinds)
    requires Accounted(s, fromSnapshot) && StartStep(s, e, s') && Assumed(s, e, fromSnapshot)
    ensures Accounted(s', fromSnapshot)
  {
    hide W.WorkerInv, W.Step, Assign, Restore;
    if e.ReserveSlot? || e.StartSandbox? || e.StartFromSnapshot? {
      LaunchAccounted(s, e, s', fromSnapshot);
    } else {
      assert s'.workers == s.workers;
    }
  }

  lemma DeleteAccounted(s: System, e: Event, s': System, fromSnapshot: W.Kinds)
    requires Accounted(s, fromSnapshot) && DeleteStep(s, e, s')
    ensures Accounted(s', fromSnapshot)
  {
    hide W.WorkerInv, W.Step, Release;
    if e.StopSandbox? || e.ReleaseSlot? {
      var u := s.phase.u;
      var id, who := s.api[u].place.value.slotID, IdentityOf(u, s.api[u]);
      match e
      case StopSandbox(outcome, a) => CallAccounted(s, u, W.OpStop(id, who, a), outcome, Releasing(u), fromSnapshot);
      case ReleaseSlot(outcome, a) =>
        CallAccounted(s, u, W.OpRelease(id, who, a), outcome, Forgetting(u), fromSnapshot);
    } else {
      assert s'.workers == s.workers;
    }
  }

  lemma NextAccounted(s: System, e: Event, s': System, fromSnapshot: W.Kinds)
    requires Accounted(s, fromSnapshot) && Next(s, e, s') && Assumed(s, e, fromSnapshot)
    ensures Accounted(s', fromSnapshot)
  {
    hide Accounted, WorldStep, StartStep, DeleteStep, Assumed;
    if WorldStep(s, e, s') {
      WorldAccounted(s, e, s', fromSnapshot);
    } else if StartStep(s, e, s') {
      StartAccounted(s, e, s', fromSnapshot);
    } else {
      DeleteAccounted(s, e, s', fromSnapshot);
    }
  }

  lemma {:induction false} RunIsAccounted(states: seq<System>, events: seq<Event>, n: nat, fromSnapshot: W.Kinds)
    requires Trace(states, events) && n < |states|
    requires forall i :: 0 <= i < |events| ==> Assumed(states[i], events[i], fromSnapshot)
    ensures Accounted(states[n], fromSnapshot)
    decreases n
  {
    hide Next, Assumed;
    if n > 0 {
      RunIsAccounted(states, events, n - 1, fromSnapshot);
      NextAccounted(states[n - 1], events[n - 1], states[n], fromSnapshot);
    }
  }

  /** In every run, restarts included: a live runtime object that no failed clean-up abandoned sits
      in the one Slot its sandbox is placed on, and that sandbox still exists with its finalizer. */
  lemma RuntimeBelongsToSandbox(states: seq<System>, events: seq<Event>, n: nat, fromSnapshot: W.Kinds, pod: Pod,
                                r: W.RuntimeID)
    returns (id: SlotID)
    requires Trace(states, events) && n < |states|
    requires forall i :: 0 <= i < |events| ==> Assumed(states[i], events[i], fromSnapshot)
    requires pod in states[n].workers
    requires var b := states[n].workers[pod].backend; r in b.live && r !in b.orphans
    ensures var s := states[n]; var u := s.workers[pod].backend.live[r];
      && W.RefersTo(s.workers[pod], id, r) && W.Unreferenced(s.workers[pod], id, r)
      && u in s.api && s.api[u].finalizer && s.api[u].namespace == pod.namespace &&
           s.api[u].place == Some(Place(pod.name, id))
  {
    RunIsSafe(states, events, n);
    RunIsAccounted(states, events, n, fromSnapshot);
    var w := states[n].workers[pod];
    hide SchedOk, ApiOk, PhaseOk, Assumed, Trace;
    id :| W.RefersTo(w, id, r);
    assert Owns(states[n], w.backend.live[r], pod, id);
  }
}
