/** internal/scheduler/scheduler.go as transitions of the Scheduler's view of the Workers and of its
    assignments. */
module Scheduler {
  import opened Base
  import opened BinPack
  import opened WorkerSlots

  datatype Info = Info(profile: string, state: State, uid: UID)

  datatype WorkerState = WorkerState(key: WorkerKey, healthy: bool, slots: map<SlotID, Info>)

  datatype Assignment = Assignment(uid: UID, namespace: string, name: string, worker: WorkerKey, slotID: SlotID,
                                   profile: string)

  datatype AssignRequest = AssignRequest(uid: UID, namespace: string, name: string, pool: string, profile: string)

  datatype Sched = Sched(workers: map<WorkerKey, WorkerState>, assignments: map<UID, Assignment>)

  datatype AssignReply = Assigned(assignment: Assignment) | NoCapacity | InvalidProfile

  const EMPTY := Sched(map[], map[])

  // ---------------------------------------------------------------- lookups

  predicate Visible(s: Sched, k: WorkerKey, id: SlotID) {
    k in s.workers && id in s.workers[k].slots
  }

  function InfoAt(s: Sched, k: WorkerKey, id: SlotID): Info
    requires Visible(s, k, id)
  {
    s.workers[k].slots[id]
  }

  function SetInfo(s: Sched, k: WorkerKey, id: SlotID, info: Info): Sched
    requires k in s.workers
  {
    s.(workers := s.workers[k := s.workers[k].(slots := s.workers[k].slots[id := info])])
  }

  predicate At(a: Assignment, k: WorkerKey, id: SlotID) {
    a.worker == k && a.slotID == id
  }

  // ---------------------------------------------------------------- candidates

  predicate FreeFor(s: Sched, req: AssignRequest, k: WorkerKey, id: SlotID) {
    && k.namespace == req.namespace && k.pool == req.pool
    && Visible(s, k, id) && s.workers[k].healthy
    && InfoAt(s, k, id).state == Free && InfoAt(s, k, id).profile == req.profile
  }

  function FreeSlots(slots: map<SlotID, Info>, profile: string): set<SlotID> {
    set id | id in slots && slots[id].state == Free && slots[id].profile == profile
  }

  function BusySlots(slots: map<SlotID, Info>): set<SlotID> {
    set id | id in slots && slots[id].state != Free
  }

  function CandidateAt(s: Sched, req: AssignRequest, k: WorkerKey, id: SlotID): Candidate
    requires k in s.workers
  {
    Candidate(k, id, req.profile, |FreeSlots(s.workers[k].slots, req.profile)|, |BusySlots(s.workers[k].slots)|)
  }

  function Candidates(s: Sched, req: AssignRequest): set<Candidate> {
    set k, id | k in s.workers && id in s.workers[k].slots && FreeFor(s, req, k, id) :: CandidateAt(s, req, k, id)
  }

  lemma CandidatesOfOneRequest(s: Sched, req: AssignRequest)
    ensures OneRequest(Candidates(s, req))
    ensures forall c :: c in Candidates(s, req) ==>
      FreeFor(s, req, c.worker, c.slotID) && c == CandidateAt(s, req, c.worker, c.slotID)
    ensures forall k, id :: FreeFor(s, req, k, id) ==> CandidateAt(s, req, k, id) in Candidates(s, req)
  {
  }

  // ---------------------------------------------------------------- operations

  /** The assignment the request gets in the best of the candidates. */
  ghost function Place(s: Sched, req: AssignRequest): (c: Candidate)
    requires Candidates(s, req) != {}
    ensures Best(Candidates(s, req), c)
  {
    BestFound(Candidates(s, req));
    var c :| Best(Candidates(s, req), c); c
  }

  lemma BestFound(cs: set<Candidate>)
    requires cs != {}
    ensures exists c :: Best(cs, c)
  {
    var c := BestExists(cs);
  }

  function AssignmentFor(req: AssignRequest, k: WorkerKey, id: SlotID): Assignment {
    Assignment(req.uid, req.namespace, req.name, k, id, req.profile)
  }

  ghost function Assign(s: Sched, req: AssignRequest): (Sched, AssignReply) {
    if req.uid in s.assignments then (s, Assigned(s.assignments[req.uid]))
    else if req.profile == "" then (s, InvalidProfile)
    else if Candidates(s, req) == {} then (s, NoCapacity)
    else
      var c := Place(s, req);
      CandidatesOfOneRequest(s, req);
      var a := AssignmentFor(req, c.worker, c.slotID);
      (Take(s, c.worker, c.slotID, req.uid).(assignments := s.assignments[req.uid := a]), Assigned(a))
  }

  function Take(s: Sched, k: WorkerKey, id: SlotID, uid: UID): Sched
    requires Visible(s, k, id)
  {
    SetInfo(s, k, id, InfoAt(s, k, id).(state := Reserved, uid := uid))
  }

  predicate Clashes(s: Sched, a: Assignment) {
    Visible(s, a.worker, a.slotID)
    && InfoAt(s, a.worker, a.slotID).state != Free && InfoAt(s, a.worker, a.slotID).uid != a.uid
  }

  function Restore(s: Sched, a: Assignment): (Sched, bool) {
    if a.uid in s.assignments then (s, s.assignments[a.uid] == a)
    else if Clashes(s, a) then (s, false)
    else
      var s' := s.(assignments := s.assignments[a.uid := a]);
      if Visible(s, a.worker, a.slotID) then
        var info := InfoAt(s, a.worker, a.slotID);
        (SetInfo(s', a.worker, a.slotID, Info(if a.profile != "" then a.profile else info.profile, Reserved, a.uid)),
          true)
      else (s', true)
  }

  function Release(s: Sched, uid: UID): Sched {
    if uid !in s.assignments then s
    else
      var a := s.assignments[uid];
      var s' := s.(assignments := s.assignments - {uid});
      if Visible(s, a.worker, a.slotID) && InfoAt(s, a.worker, a.slotID).uid == uid
      then SetInfo(s', a.worker, a.slotID, InfoAt(s, a.worker, a.slotID).(state := Free, uid := ""))
      else s'
  }

  function RemoveWorker(s: Sched, k: WorkerKey): Sched {
    s.(workers := s.workers - {k})
  }

  predicate HeldBy(s: Sched, k: WorkerKey, id: SlotID, uid: UID) {
    uid in s.assignments && At(s.assignments[uid], k, id)
  }

  /** A reported Slot in the view: a Free one that is assigned is shown Reserved by a holder. The
      source takes the assignments in map order, so which holder is left open. */
  ghost predicate Shown(s: Sched, k: WorkerKey, id: SlotID, reported: Info, shown: Info) {
    if reported.state == Free && exists uid :: HeldBy(s, k, id, uid)
    then exists uid :: HeldBy(s, k, id, uid) && shown == reported.(state := Reserved, uid := uid)
    else shown == reported
  }

  ghost predicate Updated(s: Sched, report: WorkerState, s': Sched) {
    && s'.assignments == s.assignments
    && report.key in s'.workers && s'.workers == s.workers[report.key := s'.workers[report.key]]
    && var w := s'.workers[report.key];
       && w.key == report.key && w.healthy == report.healthy && w.slots.Keys == report.slots.Keys
       && forall id :: id in report.slots ==> Shown(s, report.key, id, report.slots[id], w.slots[id])
  }

  // ---------------------------------------------------------------- the invariant

  /** No Slot is assigned twice, and every assigned Slot that can be seen is taken. */
  ghost predicate Inv(s: Sched) {
    && (forall u :: u in s.assignments ==> s.assignments[u].uid == u)
    && Injective(s.assignments)
    && (forall u :: u in s.assignments ==> Taken(s, s.assignments[u].worker, s.assignments[u].slotID))
  }

  ghost predicate Injective(assignments: map<UID, Assignment>) {
    forall u, v :: u in assignments && v in assignments && u != v ==>
      !At(assignments[u], assignments[v].worker, assignments[v].slotID)
  }

  predicate Taken(s: Sched, k: WorkerKey, id: SlotID) {
    Visible(s, k, id) ==> InfoAt(s, k, id).state != Free
  }

  lemma UpdateKeepsInv(s: Sched, report: WorkerState, s': Sched)
    requires Inv(s) && Updated(s, report, s')
    ensures Inv(s')
  {
    forall u | u in s'.assignments ensures Taken(s', s'.assignments[u].worker, s'.assignments[u].slotID) {
      var a := s.assignments[u];
      assert Taken(s, a.worker, a.slotID);
      if a.worker == report.key && a.slotID in report.slots {
        assert HeldBy(s, report.key, a.slotID, u);
        assert Shown(s, report.key, a.slotID, report.slots[a.slotID], s'.workers[report.key].slots[a.slotID]);
      }
    }
  }

  lemma RemoveKeepsInv(s: Sched, k: WorkerKey)
    requires Inv(s)
    ensures Inv(RemoveWorker(s, k))
  {
    var s' := RemoveWorker(s, k);
    forall u | u in s'.assignments ensures Taken(s', s'.assignments[u].worker, s'.assignments[u].slotID) {
      assert Taken(s, s.assignments[u].worker, s.assignments[u].slotID);
    }
  }

  lemma AssignKeepsInv(s: Sched, req: AssignRequest)
    requires Inv(s)
    ensures Inv(Assign(s, req).0)
  {
    if req.uid !in s.assignments && req.profile != "" && Candidates(s, req) != {} {
      var c := Place(s, req);
      CandidatesOfOneRequest(s, req);
      hide Candidates, Best;
      var s' := Assign(s, req).0;
      forall u | u in s.assignments
        ensures !At(s.assignments[u], c.worker, c.slotID) && Taken(s', s.assignments[u].worker, s.assignments[u].slotID)
      {
        assert Taken(s, s.assignments[u].worker, s.assignments[u].slotID);
      }
    }
  }

  lemma ReleaseKeepsInv(s: Sched, uid: UID)
    requires Inv(s)
    ensures Inv(Release(s, uid))
  {
    var s' := Release(s, uid);
    forall u | u in s'.assignments ensures Taken(s', s'.assignments[u].worker, s'.assignments[u].slotID) {
      assert u in s.assignments && s'.assignments[u] == s.assignments[u];
      assert Taken(s, s.assignments[u].worker, s.assignments[u].slotID);
    }
  }

  /** Another sandbox is recorded as the holder of the Slot that `a` names. */
  ghost predicate HeldByOther(s: Sched, a: Assignment) {
    exists u :: u in s.assignments && u != a.uid && At(s.assignments[u], a.worker, a.slotID)
  }

  /** An accepted Restore keeps the invariant exactly when it repeats what is recorded or no other
      sandbox holds the Slot. */
  lemma RestoreKeepsInvIff(s: Sched, a: Assignment)
    requires Inv(s) && Restore(s, a).1
    ensures Inv(Restore(s, a).0) <==> a.uid in s.assignments || !HeldByOther(s, a)
  {
    var s' := Restore(s, a).0;
    if a.uid !in s.assignments {
      if HeldByOther(s, a) {
        var u :| u in s.assignments && u != a.uid && At(s.assignments[u], a.worker, a.slotID);
        assert At(s'.assignments[u], s'.assignments[a.uid].worker, s'.assignments[a.uid].slotID);
      } else {
        forall u | u in s'.assignments ensures Taken(s', s'.assignments[u].worker, s'.assignments[u].slotID) {
          if u in s.assignments {
            assert Taken(s, s.assignments[u].worker, s.assignments[u].slotID);
          }
        }
      }
    }
  }

  /** Restore checks a clash only in what it sees: into a Slot of an unseen Worker it always
      records, even over another holder. */
  lemma UnseenRestoreUnchecked(s: Sched, a: Assignment)
    requires Inv(s) && !Visible(s, a.worker, a.slotID) && a.uid !in s.assignments && HeldByOther(s, a)
    ensures Restore(s, a).1 && !Inv(Restore(s, a).0)
  {
    RestoreKeepsInvIff(s, a);
  }

  /** Such a state exists. */
  lemma UnseenRestoreExample() returns (s: Sched, a: Assignment)
    ensures Inv(s) && Restore(s, a).1 && !Inv(Restore(s, a).0)
  {
    var k := WorkerKey("n", "p", "w");
    s := Sched(map[], map["u" := Assignment("u", "n", "a", k, 0, "")]);
    a := Assignment("v", "n", "b", k, 0, "");
    assert At(s.assignments["u"], a.worker, a.slotID);
    UnseenRestoreUnchecked(s, a);
  }

  // ---------------------------------------------------------------- what Assign promises

  /** For a new sandbox with a profile, capacity is missing exactly when no healthy Worker of its
      namespace and pool has a matching free Slot. */
  lemma NoCapacityIff(s: Sched, req: AssignRequest)
    requires req.uid !in s.assignments && req.profile != ""
    ensures Assign(s, req).1.NoCapacity? <==> forall k, id :: !FreeFor(s, req, k, id)
    ensures forall k, id :: FreeFor(s, req, k, id) <==>
      && k.namespace == req.namespace && k.pool == req.pool && k in s.workers && s.workers[k].healthy
      && id in s.workers[k].slots && s.workers[k].slots[id].state == Free
      && s.workers[k].slots[id].profile == req.profile
  {
    CandidatesOfOneRequest(s, req);
    if Candidates(s, req) != {} {
      var c :| c in Candidates(s, req);
    }
  }

  /** A new assignment takes one Slot that was free and matching, and nothing else changes. */
  lemma NewAssignmentTakesOneSlot(s: Sched, req: AssignRequest)
    requires req.uid !in s.assignments && Assign(s, req).1.Assigned?
    ensures var (s', reply) := Assign(s, req); var a := reply.assignment;
      && a.uid == req.uid && a.namespace == req.namespace && a.name == req.name && a.profile == req.profile
      && FreeFor(s, req, a.worker, a.slotID)
      && s'.assignments == s.assignments[req.uid := a]
      && s'.workers.Keys == s.workers.Keys
      && Visible(s', a.worker, a.slotID) && InfoAt(s', a.worker, a.slotID) == Info(req.profile, Reserved, req.uid)
      && (forall k, id :: Visible(s', k, id) <==> Visible(s, k, id))
      && (forall k, id :: Visible(s, k, id) && !At(a, k, id) ==> InfoAt(s', k, id) == InfoAt(s, k, id))
  {
    CandidatesOfOneRequest(s, req);
  }

  /** Packing: every other free matching Slot was no better. An idle Worker is opened only if no
      Worker in use has a matching free Slot, and among those in use a tightest one is taken. */
  lemma AssignPacks(s: Sched, req: AssignRequest, k: WorkerKey, id: SlotID)
    requires req.uid !in s.assignments && Assign(s, req).1.Assigned? && FreeFor(s, req, k, id)
    requires BusySlots(s.workers[k].slots) != {}
    ensures var w := s.workers[Assign(s, req).1.assignment.worker].slots;
      BusySlots(w) != {} && |FreeSlots(w, req.profile)| <= |FreeSlots(s.workers[k].slots, req.profile)|
  {
    CandidatesOfOneRequest(s, req);
    BestPacks(Candidates(s, req), Place(s, req), CandidateAt(s, req, k, id));
  }

  /** The choice is the only best one, so it does not depend on the order of the candidates. */
  lemma AssignDetermined(s: Sched, req: AssignRequest, c: Candidate)
    requires Best(Candidates(s, req), c)
    ensures Place(s, req) == c
  {
    CandidatesOfOneRequest(s, req);
    BestUnique(Candidates(s, req), Place(s, req), c);
  }

  /** Some Slot of the Worker is not Free. */
  predicate InUse(s: Sched, k: WorkerKey)
    requires k in s.workers
  {
    exists id :: id in s.workers[k].slots && s.workers[k].slots[id].state != Free
  }

  /** How many Slots of the profile a Worker has free. */
  function Room(s: Sched, k: WorkerKey, profile: string): nat
    requires k in s.workers
  {
    var slots := s.workers[k].slots;
    |set id | id in slots && slots[id].state == Free && slots[id].profile == profile|
  }

  /** The Slot that suits the request best: it is free for it; its Worker is in use if one with a Slot free
      for it is, and then has the least room; of the Workers left it has the least name, and of that
      Worker's Slots the least ID. */
  ghost predicate BestFor(s: Sched, req: AssignRequest, k: WorkerKey, id: SlotID) {
    && FreeFor(s, req, k, id)
    && (!InUse(s, k) ==> forall x, j :: FreeFor(s, req, x, j) ==> !InUse(s, x))
    && (InUse(s, k) ==>
          forall x, j :: FreeFor(s, req, x, j) && InUse(s, x) ==> Room(s, k, req.profile) <= Room(s, x, req.profile))
    && (forall x, j ::
          FreeFor(s, req, x, j) &&
          (InUse(s, k) ==> InUse(s, x) && Room(s, x, req.profile) == Room(s, k, req.profile)) ==>
            StrLess(k.name, x.name) || (k.name == x.name && id <= j))
  }

  lemma InUseCounted(s: Sched, req: AssignRequest, k: WorkerKey, id: SlotID)
    requires k in s.workers
    ensures var c := CandidateAt(s, req, k, id);
      && (c.busySlots > 0 <==> InUse(s, k)) && c.freeSlots == Room(s, k, req.profile)
      && c.worker == k && c.slotID == id
  {
    var slots := s.workers[k].slots;
    assert FreeSlots(slots, req.profile) ==
      set x | x in slots && slots[x].state == Free && slots[x].profile == req.profile;
    if InUse(s, k) {
      var x :| x in slots && slots[x].state != Free;
      assert x in BusySlots(slots);
    }
    if !InUse(s, k) {
      forall x ensures x !in BusySlots(slots) {
        if x in slots {
          assert slots[x].state == Free;
        }
      }
      assert BusySlots(slots) == {};
    }
  }

  lemma FirstIffBestFor(s: Sched, req: AssignRequest, k: WorkerKey, id: SlotID)
    requires FreeFor(s, req, k, id)
    ensures First(Candidates(s, req), CandidateAt(s, req, k, id)) <==> BestFor(s, req, k, id)
  {
    CandidatesOfOneRequest(s, req);
    hide Candidates, CandidateAt, InUse, Room;
    InUseCounted(s, req, k, id);
    forall x, j | FreeFor(s, req, x, j)
      ensures var d := CandidateAt(s, req, x, j);
        && d in Candidates(s, req) && (d.busySlots > 0 <==> InUse(s, x)) && d.freeSlots == Room(s, x, req.profile)
        && d.worker == x && d.slotID == j
    {
      InUseCounted(s, req, x, j);
    }
    forall d | d in Candidates(s, req)
      ensures FreeFor(s, req, d.worker, d.slotID) && d == CandidateAt(s, req, d.worker, d.slotID)
    {
    }
  }

  /** Which Slot a new sandbox gets, by the state before the call: the one that suits it best. */
  lemma AssignTakesIff(s: Sched, req: AssignRequest, k: WorkerKey, id: SlotID)
    requires req.uid !in s.assignments && req.profile != ""
    ensures BestFor(s, req, k, id) <==>
      Assign(s, req).1.Assigned? && At(Assign(s, req).1.assignment, k, id)
  {
    CandidatesOfOneRequest(s, req);
    hide Candidates, Better, First, BestFor;
    if FreeFor(s, req, k, id) {
      FirstIffBestFor(s, req, k, id);
      BestIffFirst(Candidates(s, req), CandidateAt(s, req, k, id));
      if BestFor(s, req, k, id) {
        AssignDetermined(s, req, CandidateAt(s, req, k, id));
      }
    } else {
      assert !BestFor(s, req, k, id) by { NotBestFor(s, req, k, id); }
    }
  }

  lemma NotBestFor(s: Sched, req: AssignRequest, k: WorkerKey, id: SlotID)
    requires !FreeFor(s, req, k, id)
    ensures !BestFor(s, req, k, id)
  {
  }

  /** Releasing right after a new assignment undoes it exactly when the Free Slot that was taken was
      shown without an owner; a release always leaves it so. */
  lemma ReleaseUndoesAssignIff(s: Sched, req: AssignRequest)
    requires req.uid !in s.assignments && Assign(s, req).1.Assigned?
    ensures var a := Assign(s, req).1.assignment;
      Visible(s, a.worker, a.slotID) &&
        (Release(Assign(s, req).0, req.uid) == s <==> InfoAt(s, a.worker, a.slotID).uid == "")
  {
    NewAssignmentTakesOneSlot(s, req);
    var (s1, reply) := Assign(s, req);
    var a := reply.assignment;
    var s2 := Release(s1, req.uid);
    assert s1 == Take(s, a.worker, a.slotID, req.uid).(assignments := s.assignments[req.uid := a]);
    hide Assign;
    if InfoAt(s, a.worker, a.slotID).uid == "" {
      assert s2.workers[a.worker].slots == s.workers[a.worker].slots;
      assert s2.workers == s.workers;
      assert s2.assignments == s.assignments;
    } else {
      assert s2.workers[a.worker].slots[a.slotID].uid == "";
    }
  }
}
