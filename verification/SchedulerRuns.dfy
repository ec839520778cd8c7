/** Sequences of Scheduler calls: the invariant over every run, and recovery after a restart of the
    controller from the assignments that were persisted. */
module SchedulerRuns {
  import opened Base
  import opened BinPack
  import opened Scheduler
  import W = WorkerSlots

  datatype Call =
    | CallUpdate(report: WorkerState)
    | CallRemove(key: WorkerKey)
    | CallAssign(req: AssignRequest)
    | CallRestore(a: Assignment)
    | CallRelease(uid: UID)

  /** UpdateWorker leaves the choice among several holders of a Slot open, so a call is a relation. */
  ghost predicate Next(s: Sched, call: Call, s': Sched) {
    match call
    case CallUpdate(report) => Updated(s, report, s')
    case CallRemove(key) => s' == RemoveWorker(s, key)
    case CallAssign(req) => s' == Assign(s, req).0
    case CallRestore(a) => s' == Restore(s, a).0
    case CallRelease(uid) => s' == Release(s, uid)
  }

  ghost predicate Trace(states: seq<Sched>, calls: seq<Call>) {
    |states| == |calls| + 1 && forall i :: 0 <= i < |calls| ==> Next(states[i], calls[i], states[i + 1])
  }

  /** The only call the invariant depends on: a Restore must not name a Slot of another holder. */
  ghost predicate Considerate(s: Sched, call: Call) {
    call.CallRestore? ==> call.a.uid in s.assignments || !HeldByOther(s, call.a)
  }

  lemma NextKeepsInv(s: Sched, call: Call, s': Sched)
    requires Inv(s) && Next(s, call, s') && Considerate(s, call)
    ensures Inv(s')
  {
    hide Inv;
    match call
    case CallUpdate(report) => UpdateKeepsInv(s, report, s');
    case CallRemove(key) => RemoveKeepsInv(s, key);
    case CallAssign(req) => AssignKeepsInv(s, req);
    case CallRestore(a) => if Restore(s, a).1 { RestoreKeepsInvIff(s, a); }
    case CallRelease(uid) => ReleaseKeepsInv(s, uid);
  }

  /** No run without such a Restore ever assigns a Slot twice or shows an assigned Slot free. */
  lemma {:induction false} RunKeepsInv(states: seq<Sched>, calls: seq<Call>, n: nat)
    requires Trace(states, calls) && states[0] == EMPTY && n < |states|
    requires forall i :: 0 <= i < |calls| ==> Considerate(states[i], calls[i])
    ensures Inv(states[n])
    decreases n
  {
    if n > 0 {
      RunKeepsInv(states, calls, n - 1);
      NextKeepsInv(states[n - 1], calls[n - 1], states[n]);
    }
  }

  // ---------------------------------------------------------------- restart

  ghost predicate Persisted(p: map<UID, Assignment>) {
    (forall u :: u in p ==> p[u].uid == u) && Injective(p)
  }

  /** Before the first Assign only Workers report and persisted assignments are restored; a report
      shows a persisted Slot free or occupied by the sandbox it is persisted for. */
  ghost predicate RecoveryCall(p: map<UID, Assignment>, call: Call) {
    match call
    case CallUpdate(report) => forall u :: u in p && p[u].worker == report.key ==> Attributed(report.slots, p[u])
    case CallRemove(_) => true
    case CallRestore(a) => a.uid in p && p[a.uid] == a
    case CallAssign(_) => false
    case CallRelease(_) => false
  }

  predicate Attributed(slots: map<SlotID, Info>, a: Assignment) {
    a.slotID in slots && slots[a.slotID].state != W.Free ==> slots[a.slotID].uid == a.uid
  }

  ghost predicate RecoveryInv(p: map<UID, Assignment>, s: Sched) {
    && Inv(s)
    && (forall u :: u in s.assignments ==> u in p && s.assignments[u] == p[u])
    && (forall u :: u in p && p[u].worker in s.workers ==> Attributed(s.workers[p[u].worker].slots, p[u]))
  }

  lemma RecoveredUpdate(p: map<UID, Assignment>, s: Sched, report: WorkerState, s': Sched)
    requires Persisted(p) && RecoveryInv(p, s) && Updated(s, report, s') && RecoveryCall(p, CallUpdate(report))
    ensures RecoveryInv(p, s')
  {
    UpdateKeepsInv(s, report, s');
    hide Inv;
    forall u | u in p && p[u].worker in s'.workers ensures Attributed(s'.workers[p[u].worker].slots, p[u]) {
      var a := p[u];
      if a.worker == report.key && a.slotID in report.slots {
        assert Attributed(report.slots, a);
        assert Shown(s, report.key, a.slotID, report.slots[a.slotID], s'.workers[report.key].slots[a.slotID]);
      }
    }
  }

  lemma RecoveredRestore(p: map<UID, Assignment>, s: Sched, a: Assignment)
    requires Persisted(p) && RecoveryInv(p, s) && RecoveryCall(p, CallRestore(a))
    ensures Restore(s, a).1 && RecoveryInv(p, Restore(s, a).0) && a.uid in Restore(s, a).0.assignments
  {
    assert !HeldByOther(s, a);
    RestoreKeepsInvIff(s, a);
    hide Inv, HeldByOther;
    var s' := Restore(s, a).0;
    forall u | u in p && p[u].worker in s'.workers ensures Attributed(s'.workers[p[u].worker].slots, p[u]) {
      assert Attributed(s.workers[p[u].worker].slots, p[u]);
    }
  }

  lemma {:induction false} RecoveryKeeps(p: map<UID, Assignment>, states: seq<Sched>, calls: seq<Call>, n: nat)
    requires Persisted(p) && Trace(states, calls) && states[0] == EMPTY && n < |states|
    requires forall i :: 0 <= i < |calls| ==> RecoveryCall(p, calls[i])
    ensures RecoveryInv(p, states[n])
    ensures forall i :: 0 <= i < n && calls[i].CallRestore? ==> calls[i].a.uid in states[n].assignments
    decreases n
  {
    if n > 0 {
      RecoveryKeeps(p, states, calls, n - 1);
      var s, call := states[n - 1], calls[n - 1];
      assert Next(s, call, states[n]) && RecoveryCall(p, call);
      match call
      case CallUpdate(report) => RecoveredUpdate(p, s, report, states[n]);
      case CallRemove(key) => RemoveKeepsInv(s, key);
      case CallRestore(a) => RecoveredRestore(p, s, a);
    }
  }

  /** Restart recovery: distinct persisted assignments, restored in any order and interleaved with
      reports and removals of Workers, all succeed; once each has been restored, the Scheduler holds
      exactly the persisted assignments and its invariant. */
  lemma RestartRecovers(p: map<UID, Assignment>, states: seq<Sched>, calls: seq<Call>)
    requires Persisted(p) && Trace(states, calls) && states[0] == EMPTY
    requires forall i :: 0 <= i < |calls| ==> RecoveryCall(p, calls[i])
    ensures forall i :: 0 <= i < |calls| && calls[i].CallRestore? ==> Restore(states[i], calls[i].a).1
    ensures Inv(states[|calls|])
    ensures (forall u :: u in p ==> CallRestore(p[u]) in calls) ==> states[|calls|].assignments == p
  {
    forall i | 0 <= i < |calls| && calls[i].CallRestore? ensures Restore(states[i], calls[i].a).1 {
      RecoveryKeeps(p, states, calls, i);
      RecoveredRestore(p, states[i], calls[i].a);
    }
    RecoveryKeeps(p, states, calls, |calls|);
  }

  /** Attribution is needed: a persisted Slot reported as someone else's makes its Restore fail. */
  lemma UnattributedReportConflicts(s: Sched, report: WorkerState, s': Sched, a: Assignment)
    requires Inv(s) && a.uid !in s.assignments && a.worker == report.key && a.slotID in report.slots
    requires !Attributed(report.slots, a) && Updated(s, report, s')
    ensures !Restore(s', a).1
  {
    assert Shown(s, report.key, a.slotID, report.slots[a.slotID], s'.workers[report.key].slots[a.slotID]);
  }
}
