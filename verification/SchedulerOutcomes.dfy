/** What the calls of internal/scheduler/memory.go leave in the Scheduler's view, Slot by Slot. */
module SchedulerOutcomes {
  import opened Base
  import opened Topology
  import opened BinPack
  import opened Scheduler
  import W = WorkerSlots

  /** Workers and all Slots but the named one are as before. */
  ghost predicate OnlyAt(s: Sched, s': Sched, k: WorkerKey, id: SlotID) {
    && s'.workers.Keys == s.workers.Keys
    && (forall x :: x in s.workers ==> s'.workers[x].key == s.workers[x].key)
    && (forall x :: x in s.workers ==> s'.workers[x].healthy == s.workers[x].healthy)
    && (forall x, j :: Visible(s', x, j) <==> Visible(s, x, j))
    && (forall x, j :: Visible(s, x, j) && !(x == k && j == id) ==> InfoAt(s', x, j) == InfoAt(s, x, j))
  }

  /** A recorded sandbox can only repeat its assignment. Another one is recorded unless the Slot is seen
      taken by somebody else, and then the Slot, if it is seen, is Reserved for it, under the profile of the
      assignment if that has one. */
  lemma RestoreOutcome(s: Sched, a: Assignment)
    ensures var (s', ok) := Restore(s, a); var k, id := a.worker, a.slotID;
      && (a.uid in s.assignments ==> s' == s && (ok <==> s.assignments[a.uid] == a))
      && (a.uid !in s.assignments ==>
            (ok <==> !Visible(s, k, id) || InfoAt(s, k, id).state == W.Free || InfoAt(s, k, id).uid == a.uid))
      && (a.uid !in s.assignments && !ok ==> s' == s)
      && (a.uid !in s.assignments && ok ==>
            && s'.assignments == s.assignments[a.uid := a] && OnlyAt(s, s', k, id)
            && (Visible(s, k, id) ==>
                  && InfoAt(s', k, id).state == W.Reserved && InfoAt(s', k, id).uid == a.uid
                  && (a.profile != "" ==> InfoAt(s', k, id).profile == a.profile)
                  && (a.profile == "" ==> InfoAt(s', k, id).profile == InfoAt(s, k, id).profile)))
  {
  }

  /** The assignment goes, and its Slot is shown Free if it was shown as this sandbox's. */
  lemma ReleaseOutcome(s: Sched, uid: UID)
    ensures var s' := Release(s, uid);
      && (uid !in s.assignments ==> s' == s)
      && (uid in s.assignments ==>
            var k, id := s.assignments[uid].worker, s.assignments[uid].slotID;
            && s'.assignments == s.assignments - {uid} && OnlyAt(s, s', k, id)
            && (Visible(s, k, id) ==>
                  InfoAt(s', k, id) ==
                    if InfoAt(s, k, id).uid == uid then Info(InfoAt(s, k, id).profile, W.Free, "")
                      else InfoAt(s, k, id)))
  {
  }

  /** A report replaces what is seen of its Worker and of no other. A Slot it calls Free is shown Reserved for
      the sandbox it is assigned to; every other one is shown as reported. */
  lemma ReportOutcome(s: Sched, report: WorkerState, s': Sched)
    requires Inv(s) && Updated(s, report, s')
    ensures s'.assignments == s.assignments && s'.workers.Keys == s.workers.Keys + {report.key}
    ensures forall x :: x in s.workers && x != report.key ==> s'.workers[x] == s.workers[x]
    ensures s'.workers[report.key].healthy == report.healthy && s'.workers[report.key].slots.Keys == report.slots.Keys
    ensures forall id :: id in report.slots ==> Visible(s', report.key, id)
    ensures forall id, u :: id in report.slots && u in s.assignments && At(s.assignments[u], report.key, id) ==>
      InfoAt(s', report.key, id) == if report.slots[id].state == W.Free
                                    then Info(report.slots[id].profile, W.Reserved, u) else report.slots[id]
    ensures forall id :: (
      id in report.slots && (forall u :: u in s.assignments ==> !At(s.assignments[u], report.key, id)) ==>
        InfoAt(s', report.key, id) == report.slots[id])
  {
    forall id | id in report.slots
      ensures Shown(s, report.key, id, report.slots[id], InfoAt(s', report.key, id))
    {
    }
    forall id, u | id in report.slots && u in s.assignments && At(s.assignments[u], report.key, id)
      ensures InfoAt(s', report.key, id) == if report.slots[id].state == W.Free
                                            then Info(report.slots[id].profile, W.Reserved, u) else report.slots[id]
    {
      assert HeldBy(s, report.key, id, u);
      assert forall v :: v in s.assignments && v != u ==> !At(s.assignments[v], report.key, id);
    }
  }
}
