/** What each operation on a Slot comes to (internal/worker/manager.go, internal/worker/snapshot.go): when
    it is answered without error, and what the Slot and the runtime objects are afterwards. */
module WorkerOutcomes {
  import opened Base
  import opened GoStrings
  import opened Topology
  import opened WorkerSlots

  /** Nothing but the Slot and the runtime objects `changed` differs. */
  ghost predicate OnlySlot(w: Worker, w': Worker, id: SlotID, changed: set<RuntimeID>) {
    && w'.slots.Keys == w.slots.Keys && (forall j :: j in w.slots && j != id ==> w'.slots[j] == w.slots[j])
    && (forall r :: r !in changed ==> (r in w'.backend.live <==> r in w.backend.live))
    && (forall r :: r in w.backend.live && r !in changed ==> w'.backend.live[r] == w.backend.live[r])
  }

  /** The operation is for a Slot the Worker has and passes the checks of the request. */
  predicate Addressed(w: Worker, id: SlotID, who: Identity) {
    ValidIdentity(who) && id in w.slots
  }

  function RefSet(s: Slot): set<RuntimeID> {
    if s.ref.Some? then {s.ref.value} else {}
  }

  // ---------------------------------------------------------------- ReserveSlot

  /** A Free Slot is taken, the owner's own stays as it is however often it asks, and nobody else's is
      given. */
  lemma ReserveOutcome(w: Worker, id: SlotID, who: Identity)
    requires Addressed(w, id, who)
    ensures var (w', reply) := Step(w, OpReserve(id, who)); var s := w.slots[id];
      && id in w'.slots && w'.backend == w.backend && OnlySlot(w, w', id, {})
      && (reply == Done <==> s.state == Free || s.owner.uid == who.uid)
      && (reply == Done || reply == Conflict)
      && (reply == Done ==> w'.slots[id].state != Free)
      && (s.state == Free ==> w'.slots[id] == s.(state := Reserved, owner := who))
      && (s.state != Free ==> w' == w)
  {
    assert w.slots[id := w.slots[id]] == w.slots;
  }

  // ---------------------------------------------------------------- StartSandbox

  /** The Slot has a Created object, found again after the Worker restarted. */
  predicate Resumable(s: Slot) {
    s.state == Starting && s.ref.Some?
  }

  /** A start is answered without error exactly when its owner asks and the runtime already runs, or the
      object there is started, or a new one is created and started. */
  lemma StartDoneIff(w: Worker, id: SlotID, who: Identity, containerOk: bool, a: StartAnswers)
    requires Addressed(w, id, who)
    ensures var s := w.slots[id];
      Step(w, OpStart(id, who, containerOk, a)).1 == Done <==>
        s.owner.uid == who.uid &&
        ((s.state == Running && s.ref.Some? && a.status == StatusRunning)
         || (Resumable(s) && a.started)
         || (MakesNew(s, a) && containerOk && a.created.Some? && a.started))
  {
  }

  /** Then the Slot is Running with an object of the same owner: the one it had, or the new one, which is
      alive for that owner; a stale object is gone. */
  lemma StartDone(w: Worker, id: SlotID, who: Identity, containerOk: bool, a: StartAnswers)
    requires Addressed(w, id, who) && Step(w, OpStart(id, who, containerOk, a)).1 == Done
    ensures var w' := Step(w, OpStart(id, who, containerOk, a)).0; var s := w.slots[id];
      && id in w'.slots && w'.slots[id].state == Running && w'.slots[id].ref.Some?
      && w'.slots[id].owner == s.owner && w'.slots[id].owner.uid == who.uid
      && w'.slots[id].profile == s.profile && w'.slots[id].resources == s.resources
      && w'.slots[id].restoreDir == s.restoreDir
      && (s.state == Running && s.ref.Some? && a.status == StatusRunning ==> w' == w)
      && (Resumable(s) ==>
            w'.slots[id] == s.(state := Running) && w'.backend == w.backend && OnlySlot(w, w', id, {}))
      && (MakesNew(s, a) ==>
            && w'.slots[id].ref == a.created && w'.slots[id].restored == IsRestoredID(a.created.value)
            && a.created.value in w'.backend.live && w'.backend.live[a.created.value] == who.uid
            && (forall r :: r in RefSet(s) && s.state == Running && Some(r) != a.created ==> r !in w'.backend.live)
            && OnlySlot(w, w', id, {a.created.value} + if s.state == Running then RefSet(s) else {}))
  {
    StartDoneIff(w, id, who, containerOk, a);
    assert w.slots[id := w.slots[id]] == w.slots;
  }

  /** A start that fails leaves the Slot owned and never Running on a new object: unchanged if it was not
      the owner's turn, Failed if a delete failed, and else Reserved without an object. */
  lemma StartFailed(w: Worker, id: SlotID, who: Identity, containerOk: bool, a: StartAnswers)
    requires Addressed(w, id, who) && Step(w, OpStart(id, who, containerOk, a)).1 != Done
    ensures var (w', reply) := Step(w, OpStart(id, who, containerOk, a)); var s := w.slots[id];
      && id in w'.slots && w'.slots[id].owner == s.owner
      && (reply == Conflict <==> s.owner.uid != who.uid) && (reply == Conflict ==> w' == w)
      && (reply == Invalid <==> s.owner.uid == who.uid && MakesNew(s, a) && !containerOk)
      && (s.owner.uid == who.uid && s.state == Running && s.ref.Some? && a.status == StatusError ==> w' == w)
      && (s.owner.uid == who.uid && s.state == Running && s.ref.Some? && a.status != StatusRunning &&
          a.status != StatusError && !a.stale.Deleted? ==>
            w'.slots[id] == s.(state := Failed) && (s.ref.value in w'.backend.live <==>
              s.ref.value in w.backend.live && !a.stale.gone))
      && (s.owner.uid == who.uid && MakesNew(s, a) && (!containerOk || a.created.None?) ==>
            w'.slots[id] == s.(state := Reserved, ref := if s.state == Running then None else s.ref))
      && (s.owner.uid == who.uid && MakesNew(s, a) && containerOk && a.created.Some? ==>
            w'.slots[id] == s.(ref := None, restored := false,
                               state := if a.cleanup.Deleted? then Reserved else Failed))
      && (s.owner.uid == who.uid && Resumable(s) ==>
            w'.slots[id] == s.(state := if a.cleanup.Deleted? then Reserved else Failed, ref := None))
      && (!MakesNew(s, a) && !Resumable(s) && s.state != Running ==> w' == w)
  {
    assert w.slots[id := w.slots[id]] == w.slots;
  }

  // ---------------------------------------------------------------- RestoreFromSnapshot

  /** A restore is answered without error exactly when its owner asks and a runtime is there already, or
      the snapshot is downloaded and loaded into a Slot that waits for it. */
  lemma RestoreDoneIff(w: Worker, id: SlotID, who: Identity, a: RestoreAnswers)
    requires Addressed(w, id, who) && a.requestOk
    ensures var s := w.slots[id];
      Step(w, OpRestore(id, who, a)).1 == Done <==>
        s.owner.uid == who.uid &&
        ((s.state == Running && s.ref.Some?)
         || ((s.state == Reserved || s.state == Starting) && a.downloaded && a.loaded.Some?))
  {
  }

  /** Then the Slot is Running. If it was not before, it is on the loaded object, alive for its owner, is
      marked restored and keeps the directory the object reads from. */
  lemma RestoreDone(w: Worker, id: SlotID, who: Identity, a: RestoreAnswers)
    requires Addressed(w, id, who) && a.requestOk && Step(w, OpRestore(id, who, a)).1 == Done
    ensures var w' := Step(w, OpRestore(id, who, a)).0; var s := w.slots[id];
      && id in w'.slots && w'.slots[id].state == Running && w'.slots[id].owner == s.owner && s.owner.uid == who.uid
      && (s.state == Running ==> w' == w)
      && (s.state != Running ==>
            && a.loaded.Some? && w'.slots[id].ref == a.loaded && w'.slots[id].restored
            && w'.slots[id].restoreDir == a.workDir
            && w'.slots[id].profile == s.profile && w'.slots[id].resources == s.resources
            && a.loaded.value in w'.backend.live && w'.backend.live[a.loaded.value] == who.uid
            && OnlySlot(w, w', id, {a.loaded.value}))
  {
    RestoreDoneIff(w, id, who, a);
    assert w.slots[id := w.slots[id]] == w.slots;
  }

  /** A restore that fails leaves everything as it was, except that a failed load leaves the Slot Reserved. */
  lemma RestoreFailed(w: Worker, id: SlotID, who: Identity, a: RestoreAnswers)
    requires Addressed(w, id, who) && a.requestOk && Step(w, OpRestore(id, who, a)).1 != Done
    ensures var (w', reply) := Step(w, OpRestore(id, who, a)); var s := w.slots[id];
      && (reply == Conflict <==> s.owner.uid != who.uid)
      && (if s.owner.uid == who.uid && (s.state == Reserved || s.state == Starting) && a.downloaded
          then w' == w.(slots := w.slots[id := s.(state := Reserved)]) else w' == w)
  {
    assert w.slots[id := w.slots[id]] == w.slots;
  }

  // ---------------------------------------------------------------- StopSandbox

  /** There is something to stop: the owner's Slot with an object, not stopped yet. */
  predicate Stoppable(s: Slot, who: Identity) {
    s.owner.uid == who.uid && s.state != Free && s.state != Stopping && s.state != Cleaning && s.ref.Some?
  }

  /** A stop is answered without error exactly when the Slot is Free or the owner's and the object there, if
      any, is stopped; of a restored one that is its deletion. */
  lemma StopDoneIff(w: Worker, id: SlotID, who: Identity, a: StopAnswers)
    requires Addressed(w, id, who)
    ensures var (w', reply) := Step(w, OpStop(id, who, a)); var s := w.slots[id];
      && (reply == Conflict <==> s.state != Free && s.owner.uid != who.uid)
      && (reply == Done <==> s.state == Free || (s.owner.uid == who.uid && (Stoppable(s, who) ==>
            if s.restored then a.snapshotterKnown && a.deleted.Deleted? else a.stopped)))
  {
  }

  /** Afterwards the owner's Slot is Stopping, or Failed after an error, and still the owner's. Only a
      restored object is deleted, with its directory; any other stays for the release. */
  lemma StopOutcome(w: Worker, id: SlotID, who: Identity, a: StopAnswers)
    requires Addressed(w, id, who)
    ensures var (w', reply) := Step(w, OpStop(id, who, a)); var s := w.slots[id];
      && id in w'.slots && w'.slots[id].owner == s.owner && OnlySlot(w, w', id, RefSet(s))
      && (s.state == Free || s.owner.uid != who.uid || s.state == Stopping || s.state == Cleaning ==> w' == w)
      && (s.state != Free && s.owner.uid == who.uid ==>
            w'.slots[id].state == if s.state == Cleaning then Cleaning else if reply == Done then Stopping else Failed)
      && (Stoppable(s, who) && s.restored && reply == Done ==>
            w'.slots[id].ref == None && w'.slots[id].restoreDir == "" && s.ref.value !in w'.backend.live)
      && (Stoppable(s, who) && !(s.restored && reply == Done) ==>
            w'.slots[id] == s.(state := w'.slots[id].state))
      && (Stoppable(s, who) && !s.restored ==>
            (s.ref.value in w'.backend.live <==> s.ref.value in w.backend.live && !a.stopRemoves))
  {
    assert w.slots[id := w.slots[id]] == w.slots;
  }

  // ---------------------------------------------------------------- ReleaseSlot

  /** A release is answered without error exactly when the Slot is Free or the owner's and the object
      there, if any, is deleted. */
  lemma ReleaseDoneIff(w: Worker, id: SlotID, who: Identity, a: ReleaseAnswers)
    requires Addressed(w, id, who)
    ensures var (w', reply) := Step(w, OpRelease(id, who, a)); var s := w.slots[id];
      && (reply == Conflict <==> s.state != Free && s.owner.uid != who.uid)
      && (reply == Done <==>
            || s.state == Free
            || (s.owner.uid == who.uid && (s.ref.Some? ==> a.deleted.Deleted? && (s.restored ==> a.snapshotterKnown))))
  {
  }

  /** Then the owner's Slot is as new and its object gone; after an error it is Failed and still owned. */
  lemma ReleaseOutcome(w: Worker, id: SlotID, who: Identity, a: ReleaseAnswers)
    requires Addressed(w, id, who)
    ensures var (w', reply) := Step(w, OpRelease(id, who, a)); var s := w.slots[id];
      && id in w'.slots && OnlySlot(w, w', id, RefSet(s))
      && (s.state == Free || s.owner.uid != who.uid ==> w' == w)
      && (s.state != Free && reply == Done ==>
            && w'.slots[id] == Slot(s.profile, s.resources, Free, NOBODY, None, false, "")
            && forall r :: r in RefSet(s) ==> r !in w'.backend.live)
      && (s.state != Free && s.owner.uid == who.uid && reply != Done ==>
            && w'.slots[id] == s.(state := Failed) && s.ref.Some?
            && (s.ref.value in w'.backend.live ==> s.ref.value in w.backend.live))
  {
    assert w.slots[id := w.slots[id]] == w.slots;
  }

  // ---------------------------------------------------------------- CreateSnapshot

  /** The sandbox is Running in the Slot, and its container is found if it needs one. */
  predicate Capturable(s: Slot, who: Identity, a: SnapshotAnswers) {
    s.state == Running && s.ref.Some? && s.owner.uid == who.uid && (IsRestoredID(s.ref.value) || a.containerResolved)
  }

  /** A checkpoint succeeds exactly when the sandbox runs there, is saved and uploaded. */
  lemma SnapshotDoneIff(w: Worker, id: SlotID, who: Identity, a: SnapshotAnswers)
    requires Addressed(w, id, who) && a.requestOk
    ensures var (w', reply) := Step(w, OpSnapshot(id, who, a)); var s := w.slots[id];
      && (reply == Invalid <==> s.state != Running || s.ref.None? || s.owner.uid != who.uid)
      && (reply == Done <==> Capturable(s, who, a) && a.saved && a.uploaded)
  {
  }

  /** Once saved, a VM that is torn down leaves its Slot Failed, owned and without a runtime, whether or not
      the upload works; any other keeps running. */
  lemma SnapshotOutcome(w: Worker, id: SlotID, who: Identity, a: SnapshotAnswers)
    requires Addressed(w, id, who) && a.requestOk
    ensures var (w', reply) := Step(w, OpSnapshot(id, who, a)); var s := w.slots[id];
      && id in w'.slots && OnlySlot(w, w', id, RefSet(s))
      && w'.slots[id] == (
           if Capturable(s, who, a) && a.saved && a.tearsDown
           then s.(state := Failed, ref := None, restored := false, restoreDir := "") else s)
      && (!Capturable(s, who, a) ==> w' == w)
      && (Capturable(s, who, a) ==>
            (s.ref.value in w'.backend.live <==>
              s.ref.value in w.backend.live && !a.saveRemoves
              && !(a.saved && a.tearsDown && (a.deleted.Deleted? || a.deleted.gone))))
  {
    assert w.slots[id := w.slots[id]] == w.slots;
  }

  // ---------------------------------------------------------------- requests that are refused

  /** A request without a full identity, or without what a snapshot needs, changes nothing, and neither does
      one for a Slot the Worker does not have. */
  lemma Refused(w: Worker, op: Op)
    requires !op.OpApply? && !op.OpVanish?
    ensures var bad := (
        || op.who.namespace == "" || op.who.name == "" || op.who.uid == ""
        || (op.OpSnapshot? && !op.snapshot.requestOk) || (op.OpRestore? && !op.restore.requestOk));
      && (bad ==> Step(w, op) == (w, Invalid))
      && (!bad && op.id !in w.slots ==> Step(w, op) == (w, NotFound))
      && (!bad && op.id in w.slots ==> Step(w, op).1 != NotFound)
  {
  }

  // ---------------------------------------------------------------- ApplySlots

  /** An accepted layout is what the Worker has afterwards: kept Slots untouched, new ones Free. */
  lemma ApplyOutcome(w: Worker, configs: seq<Config>)
    ensures var (w', reply) := Step(w, OpApply(configs));
      && w'.backend == w.backend && (reply == Done || reply == Rejected)
      && (reply == Rejected ==> w' == w)
      && (reply == Done <==>
            && (forall i, j :: 0 <= i < j < |configs| ==> configs[i].id != configs[j].id)
            && (forall id :: id in w.slots && (forall c :: c in configs ==> c.id != id) ==> w.slots[id].state == Free)
            && (forall c :: c in configs && c.id in w.slots ==>
                  w.slots[c.id].profile == c.profile && w.slots[c.id].resources == c.resources))
      && (reply == Done ==>
            && (forall id :: id in w'.slots <==> exists c :: c in configs && c.id == id)
            && (forall c :: c in configs && c.id in w.slots ==> w'.slots[c.id] == w.slots[c.id])
            && (forall c :: c in configs && c.id !in w.slots ==>
                  w'.slots[c.id] == Slot(c.profile, c.resources, Free, NOBODY, None, false, "")))
  {
    assert forall id :: id in Ids(configs) <==> exists c :: c in configs && c.id == id;
    if DistinctIds(configs) {
      forall c | c in configs ensures ConfigAt(configs, c.id) == c {
        IdDetermines(configs);
      }
    }
  }

  // ---------------------------------------------------------------- which objects are marked restored

  /** The objects that are not CRI's have an ID that starts with the name of their runtime and a colon. */
  lemma SelfManagedIff(r: RuntimeID)
    ensures IsRestoredID(r) <==> exists x :: r == "runsc:" + x || r == "kata:" + x
  {
    if IsRestoredID(r) {
      var x := r[if HasPrefix(r, "runsc:") then 6 else 5..];
      assert r == "runsc:" + x || r == "kata:" + x;
    }
    forall x ensures HasPrefix("runsc:" + x, "runsc:") && HasPrefix("kata:" + x, "kata:") {
      assert ("runsc:" + x)[..6] == "runsc:" && ("kata:" + x)[..5] == "kata:";
    }
  }

  /** A Slot's object is marked restored exactly if it is self-managed or was loaded from a snapshot: by
      that mark a stop or a release picks the backend that deletes it. */
  predicate Marked(s: Slot, fromSnapshot: Kinds) {
    s.ref.Some? ==> (s.restored <==> IsRestoredID(s.ref.value) || fromSnapshot(s.owner.uid))
  }

  ghost predicate AllMarked(w: Worker, fromSnapshot: Kinds) {
    forall id :: id in w.slots ==> Marked(w.slots[id], fromSnapshot)
  }

  lemma StepMarks(w: Worker, op: Op, fromSnapshot: Kinds)
    requires WorkerInv(w, fromSnapshot) && Legal(w, op, fromSnapshot) && AllMarked(w, fromSnapshot)
    ensures AllMarked(Step(w, op).0, fromSnapshot)
  {
    hide IsRestoredID, Accounted, FreshIDs, Accepts;
    var w' := Step(w, op).0;
    if !op.OpApply? && !op.OpVanish? && RequestOk(op) && op.id in w.slots {
      SlotStaysMarked(w.slots[op.id], w.backend, op, fromSnapshot);
      hide OnSlot;
    }
  }

  lemma SlotStaysMarked(s: Slot, b: Backend, op: Op, fromSnapshot: Kinds)
    requires !op.OpApply? && !op.OpVanish? && KindOk(op, fromSnapshot)
    requires SlotOk(s, fromSnapshot) && Marked(s, fromSnapshot)
    ensures Marked(OnSlot(s, b, op).0, fromSnapshot)
  {
    hide IsRestoredID, AfterDelete, With, Without, Abandon;
  }

  /** So it is after every run: in particular a sandbox from a snapshot has its object in a Slot that is
      marked restored. */
  lemma {:induction false} RunMarks(w: Worker, ops: seq<Op>, fromSnapshot: Kinds)
    requires WorkerInv(w, fromSnapshot) && AllMarked(w, fromSnapshot) && LegalRun(w, ops, fromSnapshot)
    ensures AllMarked(Run(w, ops), fromSnapshot)
  {
    hide WorkerInv, Legal, AllMarked, Step;
    if ops != [] {
      RunKeeps(w, ops[..|ops| - 1], fromSnapshot);
      RunMarks(w, ops[..|ops| - 1], fromSnapshot);
      StepMarks(Run(w, ops[..|ops| - 1]), ops[|ops| - 1], fromSnapshot);
    }
  }
}
