/** internal/worker/manager.go and snapshot.go as transitions of one Worker's Slots and of the
    runtime objects behind them. Every answer of a backend is an input of the transition. */
module WorkerSlots {
  import opened Base
  import opened GoStrings
  import opened Topology

  datatype State = Free | Reserved | Starting | Running | Stopping | Cleaning | Failed

  datatype Identity = Identity(namespace: string, name: string, uid: UID)

  const NOBODY := Identity("", "", "")

  predicate ValidIdentity(i: Identity) {
    i.namespace != "" && i.name != "" && i.uid != ""
  }

  /** The value of a runtime object's ID. */
  type RuntimeID = string

  /** Self-managed objects are told apart from CRI ones by the prefix of their ID. */
  predicate IsRestoredID(r: RuntimeID) {
    HasPrefix(r, "runsc:") || HasPrefix(r, "kata:")
  }

  datatype Slot = Slot(profile: string, resources: Resources, state: State, owner: Identity,
                       ref: Option<RuntimeID>, restored: bool, restoreDir: string)

  function NewSlot(c: Config): Slot {
    Slot(c.profile, c.resources, Free, NOBODY, None, false, "")
  }

  /** Live runtime objects with the sandbox each was made for, and those no Slot refers to any more. */
  datatype Backend = Backend(live: map<RuntimeID, UID>, orphans: set<RuntimeID>)

  datatype Worker = Worker(slots: map<SlotID, Slot>, backend: Backend)

  datatype Reply = Done | Invalid | NotFound | Conflict | Rejected

  /** A delete either succeeds, or reports an error with the object gone or not. */
  datatype Deletion = Deleted | Undeleted(gone: bool)

  datatype Status = StatusRunning | StatusOther | StatusNotFound | StatusError

  datatype StartAnswers = StartAnswers(status: Status, stale: Deletion, created: Option<RuntimeID>, started: bool,
                                       cleanup: Deletion)

  datatype StopAnswers = StopAnswers(snapshotterKnown: bool, deleted: Deletion, stopped: bool, stopRemoves: bool)

  datatype ReleaseAnswers = ReleaseAnswers(snapshotterKnown: bool, deleted: Deletion)

  datatype SnapshotAnswers = SnapshotAnswers(requestOk: bool, containerResolved: bool, saved: bool, saveRemoves: bool,
                                             tearsDown: bool, deleted: Deletion, uploaded: bool)

  datatype RestoreAnswers = RestoreAnswers(requestOk: bool, workDir: string, downloaded: bool,
                                           loaded: Option<RuntimeID>)

  // ---------------------------------------------------------------- backend effects

  function Without(b: Backend, r: RuntimeID): Backend {
    Backend(b.live - {r}, b.orphans - {r})
  }

  function AfterDelete(b: Backend, r: RuntimeID, d: Deletion): Backend {
    if d.Deleted? || d.gone then Without(b, r) else b
  }

  function With(b: Backend, r: RuntimeID, uid: UID): Backend {
    b.(live := b.live[r := uid])
  }

  /** The Slot stops referring to `r`; if the object still exists nobody does. */
  function Abandon(b: Backend, r: RuntimeID): Backend {
    if r in b.live then b.(orphans := b.orphans + {r}) else b
  }

  // ---------------------------------------------------------------- one Slot

  function Reserve(s: Slot, who: Identity): (Slot, Reply) {
    if s.state == Free then (s.(state := Reserved, owner := who), Done)
    else if s.owner.uid == who.uid then (s, Done)
    else (s, Conflict)
  }

  /** A failed start: delete the object and forget it, whether or not the delete worked. */
  function CleanUpStart(s: Slot, b: Backend, r: RuntimeID, d: Deletion): (Slot, Backend) {
    (s.(ref := None, state := if d.Deleted? then Reserved else Failed), Abandon(AfterDelete(b, r, d), r))
  }

  /** Create and start a new object in a Reserved Slot. */
  function StartNew(s: Slot, b: Backend, who: Identity, containerOk: bool, a: StartAnswers): (Slot, Backend, Reply) {
    if s.state != Reserved then (s, b, Rejected)
    else if !containerOk then (s, b, Invalid)
    else if a.created.None? then (s, b, Rejected)
    else
      var r := a.created.value;
      var b' := With(b, r, who.uid);
      if a.started then
        (s.(ref := Some(r), restored := IsRestoredID(r), state := Running), b', Done)
      else
        var (s', b'') := CleanUpStart(s.(restored := false), b', r, a.cleanup);
        (s', b'', Rejected)
  }

  /** A Created object found again after a Worker restart is started where it is. */
  function StartResume(s: Slot, b: Backend, who: Identity, containerOk: bool, a: StartAnswers): (Slot, Backend, Reply) {
    if s.state == Starting && s.ref.Some? then
      if a.started then (s.(state := Running), b, Done)
      else
        var (s', b') := CleanUpStart(s, b, s.ref.value, a.cleanup);
        (s', b', Rejected)
    else StartNew(s, b, who, containerOk, a)
  }

  function Start(s: Slot, b: Backend, who: Identity, containerOk: bool, a: StartAnswers): (Slot, Backend, Reply) {
    if s.owner.uid != who.uid then (s, b, Conflict)
    else if s.state == Running && s.ref.Some? then
      if a.status == StatusRunning then (s, b, Done)
      else if a.status == StatusError then (s, b, Rejected)
      else
        var b' := AfterDelete(b, s.ref.value, a.stale);
        if a.stale.Deleted? then StartNew(s.(ref := None, state := Reserved), b', who, containerOk, a)
        else (s.(state := Failed), b', Rejected)
    else StartResume(if s.state == Running then s.(state := Reserved) else s, b, who, containerOk, a)
  }

  function Stop(s: Slot, b: Backend, who: Identity, a: StopAnswers): (Slot, Backend, Reply) {
    if s.state == Free then (s, b, Done)
    else if s.owner.uid != who.uid then (s, b, Conflict)
    else if s.state == Stopping || s.state == Cleaning then (s, b, Done)
    else if s.ref.None? then (s.(state := Stopping), b, Done)
    else
      var r := s.ref.value;
      if s.restored then
        if !a.snapshotterKnown then (s.(state := Failed), b, Rejected)
        else if a.deleted.Deleted? then (s.(state := Stopping, ref := None, restoreDir := ""), Without(b, r), Done)
        else (s.(state := Failed), AfterDelete(b, r, a.deleted), Rejected)
      else
        (s.(state := if a.stopped then Stopping else Failed), if a.stopRemoves then Without(b, r) else b,
         if a.stopped then Done else Rejected)
  }

  function Release(s: Slot, b: Backend, who: Identity, a: ReleaseAnswers): (Slot, Backend, Reply) {
    var released := s.(state := Free, owner := NOBODY, ref := None, restored := false, restoreDir := "");
    if s.state == Free then (s, b, Done)
    else if s.owner.uid != who.uid then (s, b, Conflict)
    else if s.ref.None? then (released, b, Done)
    else if s.restored && !a.snapshotterKnown then (s.(state := Failed), b, Rejected)
    else if a.deleted.Deleted? then (released, Without(b, s.ref.value), Done)
    else (s.(state := Failed), AfterDelete(b, s.ref.value, a.deleted), Rejected)
  }

  /** A snapshot that tears the VM down leaves the Slot owned but without a runtime; the error of
      its DeleteRestored is ignored. */
  function Snapshot(s: Slot, b: Backend, who: Identity, a: SnapshotAnswers): (Slot, Backend, Reply) {
    if s.state != Running || s.ref.None? || s.owner.uid != who.uid then (s, b, Invalid)
    else
      var r := s.ref.value;
      if !IsRestoredID(r) && !a.containerResolved then (s, b, Rejected)
      else
        var b' := if a.saveRemoves then Without(b, r) else b;
        if !a.saved then (s, b', Rejected)
        else
          var reply := if a.uploaded then Done else Rejected;
          if a.tearsDown then
            (s.(ref := None, restored := false, restoreDir := "", state := Failed),
             Abandon(AfterDelete(b', r, a.deleted), r), reply)
          else (s, b', reply)
  }

  function Restore(s: Slot, b: Backend, who: Identity, a: RestoreAnswers): (Slot, Backend, Reply) {
    if s.owner.uid != who.uid then (s, b, Conflict)
    else if s.state == Running && s.ref.Some? then (s, b, Done)
    else if s.state != Reserved && s.state != Starting then (s, b, Rejected)
    else if !a.downloaded then (s, b, Rejected)
    else if a.loaded.None? then (s.(state := Reserved), b, Rejected)
    else
      // A reference the Slot still holds here is overwritten.
      var b' := if s.ref.Some? then Abandon(b, s.ref.value) else b;
      (s.(ref := a.loaded, restored := true, restoreDir := a.workDir, state := Running),
       With(b', a.loaded.value, who.uid), Done)
  }

  // ---------------------------------------------------------------- ApplySlots

  predicate SameShape(s: Slot, c: Config) {
    s.profile == c.profile && s.resources == c.resources
  }

  /** All or nothing: no repeated ID, no busy Slot removed, no profile or resources changed. */
  predicate Accepts(slots: map<SlotID, Slot>, configs: seq<Config>) {
    && DistinctIds(configs)
    && (forall id :: id in slots && id !in Ids(configs) ==> slots[id].state == Free)
    && (forall c :: c in configs && c.id in slots ==> SameShape(slots[c.id], c))
  }

  ghost function ConfigAt(configs: seq<Config>, id: SlotID): Config
    requires id in Ids(configs)
  {
    var c :| c in configs && c.id == id; c
  }

  ghost function Applied(slots: map<SlotID, Slot>, configs: seq<Config>): map<SlotID, Slot> {
    map id | id in Ids(configs) :: if id in slots then slots[id] else NewSlot(ConfigAt(configs, id))
  }

  // ---------------------------------------------------------------- one Worker

  datatype Op =
    | OpReserve(id: SlotID, who: Identity)
    | OpStart(id: SlotID, who: Identity, containerOk: bool, start: StartAnswers)
    | OpStop(id: SlotID, who: Identity, stop: StopAnswers)
    | OpRelease(id: SlotID, who: Identity, release: ReleaseAnswers)
    | OpSnapshot(id: SlotID, who: Identity, snapshot: SnapshotAnswers)
    | OpRestore(id: SlotID, who: Identity, restore: RestoreAnswers)
    | OpApply(configs: seq<Config>)
    | OpVanish(runtime: RuntimeID)

  /** What an operation does to the Slot it names. */
  function OnSlot(s: Slot, b: Backend, op: Op): (Slot, Backend, Reply)
    requires !op.OpApply? && !op.OpVanish?
  {
    match op
    case OpReserve(_, who) => var (s', reply) := Reserve(s, who); (s', b, reply)
    case OpStart(_, who, containerOk, a) => Start(s, b, who, containerOk, a)
    case OpStop(_, who, a) => Stop(s, b, who, a)
    case OpRelease(_, who, a) => Release(s, b, who, a)
    case OpSnapshot(_, who, a) => Snapshot(s, b, who, a)
    case OpRestore(_, who, a) => Restore(s, b, who, a)
  }

  /** The request checks that come before the Slot is looked up. */
  predicate RequestOk(op: Op)
    requires !op.OpApply? && !op.OpVanish?
  {
    && ValidIdentity(op.who)
    && (op.OpSnapshot? ==> op.snapshot.requestOk)
    && (op.OpRestore? ==> op.restore.requestOk)
  }

  /** OpVanish is the outside world: a runtime object dies on its own. */
  ghost function Step(w: Worker, op: Op): (Worker, Reply) {
    if op.OpApply? then
      if Accepts(w.slots, op.configs) then (w.(slots := Applied(w.slots, op.configs)), Done) else (w, Rejected)
    else if op.OpVanish? then (w.(backend := Without(w.backend, op.runtime)), Done)
    else if !RequestOk(op) then (w, Invalid)
    else if op.id !in w.slots then (w, NotFound)
    else
      var (s, b, reply) := OnSlot(w.slots[op.id], w.backend, op);
      (Worker(w.slots[op.id := s], b), reply)
  }

  // ---------------------------------------------------------------- what every run keeps

  /** Which sandboxes start from a snapshot; the two ways of starting exclude each other for life. */
  type Kinds = UID -> bool

  /** The state table of a Slot at rest. */
  ghost predicate SlotOk(s: Slot, fromSnapshot: Kinds) {
    && s.state != Cleaning
    && (s.state == Free ==> s.owner == NOBODY && s.ref.None? && !s.restored && s.restoreDir == "")
    && (s.state != Free ==> s.owner.uid != "")
    && (s.state == Reserved ==> s.ref.None?)
    && (s.state == Running || s.state == Starting ==> s.ref.Some?)
    && (s.state == Starting ==> !fromSnapshot(s.owner.uid))
    && (s.restoreDir != "" ==> s.ref.Some? && s.restored && fromSnapshot(s.owner.uid))
  }

  /** Every live object is an orphan or referenced by a Slot of its own sandbox; no two Slots share one. */
  ghost predicate Accounted(w: Worker) {
    && w.backend.orphans <= w.backend.live.Keys
    && (forall r :: r in w.backend.live && r !in w.backend.orphans ==> exists id :: RefersTo(w, id, r))
    && (forall i, j :: i in w.slots && j in w.slots && i != j && w.slots[i].ref.Some? ==>
         w.slots[i].ref != w.slots[j].ref)
    && (forall i :: i in w.slots && w.slots[i].ref.Some? ==> RefOk(w.slots[i], w.backend))
  }

  predicate RefersTo(w: Worker, id: SlotID, r: RuntimeID)
    requires r in w.backend.live
  {
    id in w.slots && w.slots[id].ref == Some(r) && w.slots[id].owner.uid == w.backend.live[r]
  }

  predicate RefOk(s: Slot, b: Backend)
    requires s.ref.Some?
  {
    s.ref.value !in b.orphans && (s.ref.value in b.live ==> b.live[s.ref.value] == s.owner.uid)
  }

  ghost predicate WorkerInv(w: Worker, fromSnapshot: Kinds) {
    && (forall id :: id in w.slots ==> SlotOk(w.slots[id], fromSnapshot))
    && Accounted(w)
  }

  predicate Unreferenced(w: Worker, id: SlotID, r: RuntimeID) {
    forall j :: j in w.slots && j != id ==> w.slots[j].ref != Some(r)
  }

  /** A sandbox is only ever started one way. */
  ghost predicate KindOk(op: Op, fromSnapshot: Kinds) {
    (op.OpStart? ==> !fromSnapshot(op.who.uid)) && (op.OpRestore? ==> fromSnapshot(op.who.uid))
  }

  /** A new object's ID is not in use. A stale object that was just deleted may give its ID again. */
  predicate FreshIDs(w: Worker, op: Op) {
    match op
    case OpStart(id, who, _, a) =>
      a.created.Some? && id in w.slots ==>
        && Unreferenced(w, id, a.created.value)
        && (a.created.value !in w.backend.live || (w.slots[id].ref == a.created && a.stale.Deleted?))
    case OpRestore(id, who, a) =>
      a.loaded.Some? && id in w.slots ==> Unreferenced(w, id, a.loaded.value) && a.loaded.value !in w.backend.live
    case _ => true
  }

  /** What is assumed of callers and backends. */
  ghost predicate Legal(w: Worker, op: Op, fromSnapshot: Kinds) {
    KindOk(op, fromSnapshot) && FreshIDs(w, op)
  }

  /** A change of one Slot and the backend that keeps the accounting of the others. */
  ghost predicate LocalChange(s: Slot, b: Backend, s': Slot, b': Backend) {
    && b'.orphans <= b'.live.Keys
    && (forall r :: r in b'.live && r !in b'.orphans && s'.ref != Some(r) ==>
          r in b.live && r !in b.orphans && b'.live[r] == b.live[r] && s.ref != Some(r))
    && (s'.ref.Some? ==> RefOk(s', b'))
  }

  lemma LocalChangeKeepsAccounting(w: Worker, id: SlotID, s': Slot, b': Backend)
    requires id in w.slots && Accounted(w) && LocalChange(w.slots[id], w.backend, s', b')
    requires s'.ref.Some? ==> Unreferenced(w, id, s'.ref.value)
    requires forall j :: j in w.slots && j != id && w.slots[j].ref.Some? ==> RefOk(w.slots[j], b')
    ensures Accounted(Worker(w.slots[id := s'], b'))
  {
    var w' := Worker(w.slots[id := s'], b');
    forall r | r in b'.live && r !in b'.orphans ensures exists j :: RefersTo(w', j, r) {
      if s'.ref == Some(r) {
        assert RefersTo(w', id, r);
      } else {
        var j :| RefersTo(w, j, r);
        assert RefersTo(w', j, r);
      }
    }
  }

  /** Runtime IDs an operation on a Slot can affect. */
  function Touched(s: Slot, op: Op): set<RuntimeID>
    requires !op.OpApply? && !op.OpVanish?
  {
    (if s.ref.Some? then {s.ref.value} else {})
    + (if op.OpStart? && op.start.created.Some? then {op.start.created.value} else {})
    + (if op.OpRestore? && op.restore.loaded.Some? then {op.restore.loaded.value} else {})
  }

  ghost predicate SameOutside(b: Backend, b': Backend, touched: set<RuntimeID>) {
    forall r :: r !in touched ==>
      && (r in b.live <==> r in b'.live) && (r in b.orphans <==> r in b'.orphans)
      && (r in b.live && r in b'.live ==> b.live[r] == b'.live[r])
  }

  ghost predicate SlotLegal(s: Slot, b: Backend, op: Op, fromSnapshot: Kinds)
    requires !op.OpApply? && !op.OpVanish?
  {
    && ValidIdentity(op.who)
    && (op.OpStart? ==> !fromSnapshot(op.who.uid) && (op.start.created.Some? ==>
          op.start.created.value !in b.live || (s.ref == op.start.created && op.start.stale.Deleted?)))
    && (op.OpRestore? ==> fromSnapshot(op.who.uid) && (op.restore.loaded.Some? ==> op.restore.loaded.value !in b.live))
  }

  ghost predicate KeepsSlot(s: Slot, b: Backend, s': Slot, b': Backend, op: Op, fromSnapshot: Kinds)
    requires !op.OpApply? && !op.OpVanish?
  {
    && SlotOk(s', fromSnapshot) && LocalChange(s, b, s', b') && SameOutside(b, b', Touched(s, op))
    && (s'.ref.Some? ==> s'.ref.value in Touched(s, op))
  }

  lemma StartNewKeeps(s: Slot, b: Backend, op: Op, fromSnapshot: Kinds)
    requires op.OpStart? && SlotLegal(s, b, op, fromSnapshot)
    requires SlotOk(s, fromSnapshot) && s.ref.None? && s.owner.uid == op.who.uid && b.orphans <= b.live.Keys
    ensures var (s', b', _) := StartNew(s, b, op.who, op.containerOk, op.start);
      KeepsSlot(s, b, s', b', op, fromSnapshot)
  {
  }

  /** A stale object is deleted first; what follows starts from a Reserved Slot. */
  lemma StartStaleKeeps(s: Slot, b: Backend, op: Op, fromSnapshot: Kinds)
    requires op.OpStart? && SlotLegal(s, b, op, fromSnapshot)
    requires SlotOk(s, fromSnapshot) && s.owner.uid == op.who.uid && b.orphans <= b.live.Keys
    requires s.state == Running && RefOk(s, b) && op.start.stale.Deleted?
    ensures var (s', b', _) :=
      StartNew(s.(ref := None, state := Reserved), Without(b, s.ref.value), op.who, op.containerOk, op.start);
      KeepsSlot(s, b, s', b', op, fromSnapshot)
  {
    var s1, b1 := s.(ref := None, state := Reserved), Without(b, s.ref.value);
    assert s.restoreDir == "";
    StartNewKeeps(s1, b1, op, fromSnapshot);
    var (s', b', _) := StartNew(s1, b1, op.who, op.containerOk, op.start);
    hide StartNew, SlotOk;
    assert LocalChange(s, b, s', b');
  }

  lemma StartResumeKeeps(s: Slot, b: Backend, op: Op, fromSnapshot: Kinds)
    requires op.OpStart? && SlotLegal(s, b, op, fromSnapshot)
    requires SlotOk(s, fromSnapshot) && b.orphans <= b.live.Keys && (s.ref.Some? ==> RefOk(s, b))
    requires s.owner.uid == op.who.uid && s.state != Running
    ensures var (s', b', _) := StartResume(s, b, op.who, op.containerOk, op.start);
      KeepsSlot(s, b, s', b', op, fromSnapshot)
  {
    hide StartNew;
    if s.ref.None? {
      StartNewKeeps(s, b, op, fromSnapshot);
    } else if s.state != Starting {
      StartNewRejects(s, b, op);
    }
  }

  /** A running Slot whose stale object is not replaced. */
  lemma StartRunningKeeps(s: Slot, b: Backend, op: Op, fromSnapshot: Kinds)
    requires op.OpStart? && SlotLegal(s, b, op, fromSnapshot) && s.owner.uid == op.who.uid
    requires SlotOk(s, fromSnapshot) && b.orphans <= b.live.Keys && s.state == Running && RefOk(s, b)
    ensures var (s', b', _) := OnSlot(s, b, op); KeepsSlot(s, b, s', b', op, fromSnapshot)
  {
    hide StartNew, StartResume, Stop, Release, Snapshot, Restore, Reserve;
    if op.start.stale.Deleted? {
      StartStaleKeeps(s, b, op, fromSnapshot);
      hide SlotOk, KeepsSlot;
    }
  }

  lemma StartKeeps(s: Slot, b: Backend, op: Op, fromSnapshot: Kinds)
    requires op.OpStart? && SlotLegal(s, b, op, fromSnapshot)
    requires SlotOk(s, fromSnapshot) && b.orphans <= b.live.Keys && (s.ref.Some? ==> RefOk(s, b))
    ensures var (s', b', _) := OnSlot(s, b, op); KeepsSlot(s, b, s', b', op, fromSnapshot)
  {
    hide StartNew, StartResume;
    if s.owner.uid != op.who.uid {
      assert OnSlot(s, b, op) == (s, b, Conflict);
    } else if s.state != Running {
      assert OnSlot(s, b, op) == StartResume(s, b, op.who, op.containerOk, op.start);
      StartResumeKeeps(s, b, op, fromSnapshot);
      hide KeepsSlot, OnSlot, SlotOk;
    } else {
      StartRunningKeeps(s, b, op, fromSnapshot);
      hide KeepsSlot, OnSlot, SlotOk;
    }
  }

  lemma StartNewRejects(s: Slot, b: Backend, op: Op)
    requires op.OpStart? && s.state != Reserved
    ensures StartNew(s, b, op.who, op.containerOk, op.start) == (s, b, Rejected)
  {
  }

  lemma StopRestoredKeeps(s: Slot, b: Backend, op: Op, fromSnapshot: Kinds)
    requires op.OpStop? && SlotLegal(s, b, op, fromSnapshot)
    requires SlotOk(s, fromSnapshot) && b.orphans <= b.live.Keys && s.ref.Some? && RefOk(s, b) && s.restored
    ensures var (s', b', _) := OnSlot(s, b, op); KeepsSlot(s, b, s', b', op, fromSnapshot)
  {
  }

  lemma StopOtherKeeps(s: Slot, b: Backend, op: Op, fromSnapshot: Kinds)
    requires op.OpStop? && SlotLegal(s, b, op, fromSnapshot)
    requires SlotOk(s, fromSnapshot) && b.orphans <= b.live.Keys && (s.ref.Some? ==> RefOk(s, b) && !s.restored)
    ensures var (s', b', _) := OnSlot(s, b, op); KeepsSlot(s, b, s', b', op, fromSnapshot)
  {
    hide AfterDelete;
  }

  lemma StopKeeps(s: Slot, b: Backend, op: Op, fromSnapshot: Kinds)
    requires op.OpStop? && SlotLegal(s, b, op, fromSnapshot)
    requires SlotOk(s, fromSnapshot) && b.orphans <= b.live.Keys && (s.ref.Some? ==> RefOk(s, b))
    ensures var (s', b', _) := OnSlot(s, b, op); KeepsSlot(s, b, s', b', op, fromSnapshot)
  {
    hide OnSlot, SlotOk, KeepsSlot, SlotLegal;
    if s.ref.Some? && s.restored {
      StopRestoredKeeps(s, b, op, fromSnapshot);
    } else {
      StopOtherKeeps(s, b, op, fromSnapshot);
    }
  }

  lemma ReleaseKeeps(s: Slot, b: Backend, op: Op, fromSnapshot: Kinds)
    requires op.OpRelease? && SlotLegal(s, b, op, fromSnapshot)
    requires SlotOk(s, fromSnapshot) && b.orphans <= b.live.Keys && (s.ref.Some? ==> RefOk(s, b))
    ensures var (s', b', _) := OnSlot(s, b, op); KeepsSlot(s, b, s', b', op, fromSnapshot)
  {
  }

  lemma TearDownKeeps(s: Slot, b: Backend, op: Op, fromSnapshot: Kinds)
    requires op.OpSnapshot? && SlotLegal(s, b, op, fromSnapshot) && op.snapshot.tearsDown
    requires SlotOk(s, fromSnapshot) && b.orphans <= b.live.Keys && (s.ref.Some? ==> RefOk(s, b))
    ensures var (s', b', _) := OnSlot(s, b, op); KeepsSlot(s, b, s', b', op, fromSnapshot)
  {
    hide IsRestoredID;
  }

  lemma SnapshotKeeps(s: Slot, b: Backend, op: Op, fromSnapshot: Kinds)
    requires op.OpSnapshot? && SlotLegal(s, b, op, fromSnapshot)
    requires SlotOk(s, fromSnapshot) && b.orphans <= b.live.Keys && (s.ref.Some? ==> RefOk(s, b))
    ensures var (s', b', _) := OnSlot(s, b, op); KeepsSlot(s, b, s', b', op, fromSnapshot)
  {
    hide IsRestoredID;
    if op.snapshot.tearsDown {
      TearDownKeeps(s, b, op, fromSnapshot);
      hide OnSlot, SlotOk, KeepsSlot;
    }
  }

  lemma RestoreKeeps(s: Slot, b: Backend, op: Op, fromSnapshot: Kinds)
    requires op.OpRestore? && SlotLegal(s, b, op, fromSnapshot)
    requires SlotOk(s, fromSnapshot) && b.orphans <= b.live.Keys && (s.ref.Some? ==> RefOk(s, b))
    ensures var (s', b', _) := OnSlot(s, b, op); KeepsSlot(s, b, s', b', op, fromSnapshot)
  {
  }

  /** Every operation keeps the state table of its Slot and changes the backend only locally. */
  lemma OnSlotKeeps(s: Slot, b: Backend, op: Op, fromSnapshot: Kinds)
    requires !op.OpApply? && !op.OpVanish? && SlotLegal(s, b, op, fromSnapshot)
    requires SlotOk(s, fromSnapshot) && b.orphans <= b.live.Keys && (s.ref.Some? ==> RefOk(s, b))
    ensures var (s', b', _) := OnSlot(s, b, op); KeepsSlot(s, b, s', b', op, fromSnapshot)
  {
    match op
    case OpReserve(_, _) =>
    case OpStart(_, _, _, _) => StartKeeps(s, b, op, fromSnapshot);
    case OpStop(_, _, _) => StopKeeps(s, b, op, fromSnapshot);
    case OpRelease(_, _, _) => ReleaseKeeps(s, b, op, fromSnapshot);
    case OpSnapshot(_, _, _) => SnapshotKeeps(s, b, op, fromSnapshot);
    case OpRestore(_, _, _) => RestoreKeeps(s, b, op, fromSnapshot);
  }

  lemma SlotOpKeeps(w: Worker, op: Op, fromSnapshot: Kinds)
    requires !op.OpApply? && !op.OpVanish? && WorkerInv(w, fromSnapshot) && Legal(w, op, fromSnapshot)
    ensures WorkerInv(Step(w, op).0, fromSnapshot)
  {
    if RequestOk(op) && op.id in w.slots {
      var s := w.slots[op.id];
      OnSlotKeeps(s, w.backend, op, fromSnapshot);
      var (s', b', _) := OnSlot(s, w.backend, op);
      hide OnSlot, SlotOk, LocalChange;
      forall j | j in w.slots && j != op.id && w.slots[j].ref.Some? ensures RefOk(w.slots[j], b') {
        assert w.slots[j].ref.value !in Touched(s, op);
      }
      LocalChangeKeepsAccounting(w, op.id, s', b');
    }
  }

  // ---------------------------------------------------------------- ApplySlots and runs

  lemma ApplyKeeps(w: Worker, configs: seq<Config>, fromSnapshot: Kinds)
    requires WorkerInv(w, fromSnapshot) && Accepts(w.slots, configs)
    ensures WorkerInv(w.(slots := Applied(w.slots, configs)), fromSnapshot)
  {
    var slots' := Applied(w.slots, configs);
    var w' := w.(slots := slots');
    forall r | r in w.backend.live && r !in w.backend.orphans ensures exists id :: RefersTo(w', id, r) {
      var id :| RefersTo(w, id, r);
      assert id in Ids(configs);
      assert RefersTo(w', id, r);
    }
  }

  lemma VanishKeeps(w: Worker, r: RuntimeID, fromSnapshot: Kinds)
    requires WorkerInv(w, fromSnapshot)
    ensures WorkerInv(w.(backend := Without(w.backend, r)), fromSnapshot)
  {
    var w' := w.(backend := Without(w.backend, r));
    forall x | x in w'.backend.live && x !in w'.backend.orphans ensures exists id :: RefersTo(w', id, x) {
      var id :| RefersTo(w, id, x);
      assert RefersTo(w', id, x);
    }
  }

  lemma StepKeeps(w: Worker, op: Op, fromSnapshot: Kinds)
    requires WorkerInv(w, fromSnapshot) && Legal(w, op, fromSnapshot)
    ensures WorkerInv(Step(w, op).0, fromSnapshot)
  {
    match op
    case OpApply(configs) => if Accepts(w.slots, configs) { ApplyKeeps(w, configs, fromSnapshot); }
    case OpVanish(r) => VanishKeeps(w, r, fromSnapshot);
    case _ => SlotOpKeeps(w, op, fromSnapshot);
  }

  ghost function Run(w: Worker, ops: seq<Op>): Worker {
    if ops == [] then w else Step(Run(w, ops[..|ops| - 1]), ops[|ops| - 1]).0
  }

  ghost predicate LegalRun(w: Worker, ops: seq<Op>, fromSnapshot: Kinds) {
    ops == [] ||
      (LegalRun(w, ops[..|ops| - 1], fromSnapshot) && Legal(Run(w, ops[..|ops| - 1]), ops[|ops| - 1], fromSnapshot))
  }

  /** State table and runtime accounting hold after every run, whatever the backends answer. */
  lemma {:induction false} RunKeeps(w: Worker, ops: seq<Op>, fromSnapshot: Kinds)
    requires WorkerInv(w, fromSnapshot) && LegalRun(w, ops, fromSnapshot)
    ensures WorkerInv(Run(w, ops), fromSnapshot)
  {
    hide WorkerInv, Legal;
    if ops != [] {
      RunKeeps(w, ops[..|ops| - 1], fromSnapshot);
      StepKeeps(Run(w, ops[..|ops| - 1]), ops[|ops| - 1], fromSnapshot);
    }
  }

  // ---------------------------------------------------------------- orphans

  /** A new object is made in the Slot: it is reserved, or what it was running is gone. */
  predicate MakesNew(s: Slot, a: StartAnswers) {
    || s.state == Reserved
    || (s.state == Running && s.ref.None?)
    || (s.state == Running && s.ref.Some? && a.status != StatusRunning && a.status != StatusError && a.stale.Deleted?)
  }

  /** A start fails and so does the delete of its object, which still exists. */
  predicate StartForgets(s: Slot, b: Backend, who: Identity, containerOk: bool, a: StartAnswers) {
    && s.owner.uid == who.uid && !a.started && a.cleanup == Undeleted(false)
    && if s.state == Starting && s.ref.Some? then s.ref.value in b.live
         else MakesNew(s, a) && containerOk && a.created.Some?
  }

  /** A snapshot tears the VM down, and the delete whose error is ignored leaves the object alive. */
  predicate SnapshotForgets(s: Slot, b: Backend, who: Identity, a: SnapshotAnswers) {
    && s.state == Running && s.ref.Some? && s.owner.uid == who.uid && (IsRestoredID(s.ref.value) || a.containerResolved)
    && a.saved && a.tearsDown && !a.saveRemoves && a.deleted == Undeleted(false) && s.ref.value in b.live
  }

  /** The operation gives up a runtime object that still exists. */
  predicate Forgets(w: Worker, op: Op) {
    match op
    case OpStart(id, who, containerOk, a) =>
      RequestOk(op) && id in w.slots && StartForgets(w.slots[id], w.backend, who, containerOk, a)
    case OpSnapshot(id, who, a) =>
      RequestOk(op) && id in w.slots && SnapshotForgets(w.slots[id], w.backend, who, a)
    case _ => false
  }

  lemma StartOrphansIff(w: Worker, op: Op, fromSnapshot: Kinds)
    requires WorkerInv(w, fromSnapshot) && Legal(w, op, fromSnapshot) && op.OpStart?
    ensures Step(w, op).0.backend.orphans <= w.backend.orphans <==> !Forgets(w, op)
  {
    if RequestOk(op) && op.id in w.slots {
      var s := w.slots[op.id];
      hide IsRestoredID, Unreferenced, WorkerInv;
      assert SlotOk(s, fromSnapshot) && w.backend.orphans <= w.backend.live.Keys &&
        (s.ref.Some? ==> RefOk(s, w.backend));
    }
  }

  lemma SnapshotOrphansIff(w: Worker, op: Op, fromSnapshot: Kinds)
    requires WorkerInv(w, fromSnapshot) && op.OpSnapshot?
    ensures Step(w, op).0.backend.orphans <= w.backend.orphans <==> !Forgets(w, op)
  {
    hide IsRestoredID;
  }

  /** A step makes an orphan exactly when a failed clean-up forgets an object: the two branches of a
      start, and the ignored DeleteRestored after a snapshot. */
  lemma OrphansIffForgets(w: Worker, op: Op, fromSnapshot: Kinds)
    requires WorkerInv(w, fromSnapshot) && Legal(w, op, fromSnapshot)
    ensures Step(w, op).0.backend.orphans <= w.backend.orphans <==> !Forgets(w, op)
  {
    if op.OpStart? {
      StartOrphansIff(w, op, fromSnapshot);
    } else if op.OpSnapshot? {
      SnapshotOrphansIff(w, op, fromSnapshot);
    } else {
      hide Start, Snapshot, Accepts;
    }
  }

  ghost predicate NothingForgotten(w: Worker, ops: seq<Op>) {
    ops == [] || (NothingForgotten(w, ops[..|ops| - 1]) && !Forgets(Run(w, ops[..|ops| - 1]), ops[|ops| - 1]))
  }

  /** As long as nothing is forgotten every live object is referenced by exactly one Slot, its sandbox's
      own and not Free: no Slot becomes Free before its runtime is deleted. */
  lemma {:induction false} NoOrphansNoLeaks(w: Worker, ops: seq<Op>, fromSnapshot: Kinds)
    requires WorkerInv(w, fromSnapshot) && w.backend.orphans == {} && LegalRun(w, ops, fromSnapshot) &&
      NothingForgotten(w, ops)
    ensures var w' := Run(w, ops);
      && w'.backend.orphans == {}
      && forall r :: r in w'.backend.live ==>
           exists id :: RefersTo(w', id, r) && w'.slots[id].state != Free && Unreferenced(w', id, r)
  {
    var w' := Run(w, ops);
    RunKeeps(w, ops, fromSnapshot);
    if ops != [] {
      var front := ops[..|ops| - 1];
      NoOrphansNoLeaks(w, front, fromSnapshot);
      RunKeeps(w, front, fromSnapshot);
      OrphansIffForgets(Run(w, front), ops[|ops| - 1], fromSnapshot);
    }
    hide Step, Forgets;
    forall r | r in w'.backend.live
      ensures exists id :: RefersTo(w', id, r) && w'.slots[id].state != Free && Unreferenced(w', id, r)
    {
      var id :| RefersTo(w', id, r);
      assert Unreferenced(w', id, r);
    }
  }

  const SOMEBODY := Identity("n", "a", "u")

  /** A Worker with one Slot of SOMEBODY's, in the given state and over the given object. */
  function OneSlotWorker(state: State, ref: Option<RuntimeID>): Worker {
    Worker(map[0 := Slot("q", NO_RESOURCES, state, SOMEBODY, ref, false, "")],
           Backend(if ref.Some? then map[ref.value := "u"] else map[], {}))
  }

  lemma OneSlotWorkerOk(state: State, ref: Option<RuntimeID>)
    requires state in {Reserved, Starting, Running} && (ref.Some? <==> state != Reserved)
    ensures WorkerInv(OneSlotWorker(state, ref), _ => false)
  {
    var w := OneSlotWorker(state, ref);
    forall r | r in w.backend.live ensures exists id :: RefersTo(w, id, r) {
      assert RefersTo(w, 0, r);
    }
  }

  /** A start that fails after making an object named "new", and fails to delete its object. */
  const FAILED_START := StartAnswers(StatusNotFound, Deleted, Some("new"), false, Undeleted(false))

  /** A snapshot is saved and its VM torn down, but the record of the VM is not deleted. */
  const FAILED_TEARDOWN := SnapshotAnswers(true, true, true, false, true, Undeleted(false), true)

  lemma StartBranchForgets(state: State, ref: Option<RuntimeID>)
    requires state in {Reserved, Starting, Running} && ref == if state == Reserved then None else Some("old")
    ensures var w, op := OneSlotWorker(state, ref), OpStart(0, SOMEBODY, true, FAILED_START);
      && WorkerInv(w, _ => false) && Legal(w, op, _ => false)
      && Step(w, op).0.backend.orphans == {if state == Starting then "old" else "new"}
  {
    OneSlotWorkerOk(state, ref);
    hide WorkerInv;
  }

  lemma SnapshotLegal(w: Worker, id: SlotID, who: Identity, a: SnapshotAnswers, fromSnapshot: Kinds)
    ensures Legal(w, OpSnapshot(id, who, a), fromSnapshot)
  {
  }

  lemma SnapshotBranchForgets()
    ensures var w, op := OneSlotWorker(Running, Some("old")), OpSnapshot(0, SOMEBODY, FAILED_TEARDOWN);
      WorkerInv(w, _ => false) && Legal(w, op, _ => false) && Step(w, op).0.backend.orphans == {"old"}
  {
    OneSlotWorkerOk(Running, Some("old"));
    hide WorkerInv, Start, Stop, Release, Restore;
    SnapshotLegal(OneSlotWorker(Running, Some("old")), 0, SOMEBODY, FAILED_TEARDOWN, _ => false);
    hide Legal;
  }

  /** Every one of these branches does forget an object: a new start, a resumed one, one that replaces
      a stale object, and a snapshot. */
  lemma EveryBranchForgets()
    ensures forall state, ref :: (state, ref) in {(Reserved, None), (Starting, Some("old")), (Running, Some("old"))} ==>
      var w, op := OneSlotWorker(state, ref), OpStart(0, SOMEBODY, true, FAILED_START);
      WorkerInv(w, _ => false) && Legal(w, op, _ => false) && Step(w, op).0.backend.orphans != {}
    ensures var w, op := OneSlotWorker(Running, Some("old")), OpSnapshot(0, SOMEBODY, FAILED_TEARDOWN);
      WorkerInv(w, _ => false) && Legal(w, op, _ => false) && Step(w, op).0.backend.orphans == {"old"}
  {
    hide WorkerInv, Legal, Step;
    SnapshotBranchForgets();
    forall state, ref | (state, ref) in {(Reserved, None), (Starting, Some("old")), (Running, Some("old"))}
      ensures var w, op := OneSlotWorker(state, ref), OpStart(0, SOMEBODY, true, FAILED_START);
        WorkerInv(w, _ => false) && Legal(w, op, _ => false) && Step(w, op).0.backend.orphans != {}
    {
      StartBranchForgets(state, ref);
    }
  }

  // ---------------------------------------------------------------- ownership and progress

  /** How an operation on a Slot can change its owner. */
  ghost predicate OwnerChange(s: Slot, s': Slot, op: Op)
    requires !op.OpApply? && !op.OpVanish?
  {
    && (s'.owner != s.owner ==> s.state == Free || s'.state == Free)
    && (s.state == Free && s'.state != Free ==> op.OpReserve? && s'.owner == op.who && s'.state == Reserved)
    && (s.state != Free && s'.state == Free ==> op.OpRelease? && op.who.uid == s.owner.uid)
  }

  lemma StartKeepsOwner(s: Slot, b: Backend, op: Op)
    requires op.OpStart? && ValidIdentity(op.who) && (s.state == Free ==> s.owner == NOBODY)
    ensures OwnerChange(s, OnSlot(s, b, op).0, op)
  {
    hide AfterDelete, With, Abandon, IsRestoredID;
  }

  lemma OnSlotOwner(s: Slot, b: Backend, op: Op)
    requires !op.OpApply? && !op.OpVanish? && ValidIdentity(op.who) && (s.state == Free ==> s.owner == NOBODY)
    ensures OwnerChange(s, OnSlot(s, b, op).0, op)
  {
    if op.OpStart? {
      StartKeepsOwner(s, b, op);
    } else {
      hide Start, AfterDelete, With, Abandon, Without, IsRestoredID;
    }
  }

  /** Ownership changes only through Free. */
  lemma OwnerChangesThroughFree(w: Worker, op: Op, fromSnapshot: Kinds, id: SlotID)
    requires WorkerInv(w, fromSnapshot) && Legal(w, op, fromSnapshot)
    requires id in w.slots && id in Step(w, op).0.slots
    ensures var s, s' := w.slots[id], Step(w, op).0.slots[id];
      && (s'.owner != s.owner ==> s.state == Free || s'.state == Free)
      && (s.state == Free && s'.state != Free ==>
           op.OpReserve? && op.id == id && s'.owner == op.who && s'.state == Reserved)
      && (s.state != Free && s'.state == Free ==> op.OpRelease? && op.id == id && op.who.uid == s.owner.uid)
  {
    assert SlotOk(w.slots[id], fromSnapshot);
    hide WorkerInv, Legal, OnSlot, Accepts;
    if !op.OpApply? && !op.OpVanish? && RequestOk(op) && op.id == id {
      OnSlotOwner(w.slots[id], w.backend, op);
    }
  }

  const GOOD_STOP := StopAnswers(true, Deleted, true, false)
  const GOOD_RELEASE := ReleaseAnswers(true, Deleted)

  /** Progress: from every owned state that a run can reach, one fault-free Stop and Release by the
      owner frees the Slot and leaves none of its object behind. */
  lemma StopReleaseFrees(w: Worker, id: SlotID, who: Identity, fromSnapshot: Kinds)
    requires WorkerInv(w, fromSnapshot) && id in w.slots
    requires w.slots[id].state != Free && w.slots[id].owner.uid == who.uid && ValidIdentity(who)
    ensures var (w1, reply1) := Step(w, OpStop(id, who, GOOD_STOP));
      var (w2, reply2) := Step(w1, OpRelease(id, who, GOOD_RELEASE));
      && reply1 == Done && reply2 == Done
      && w2.slots[id] == w.slots[id].(state := Free, owner := NOBODY, ref := None, restored := false, restoreDir := "")
      && (w.slots[id].ref.Some? ==> w.slots[id].ref.value !in w2.backend.live)
  {
  }
}
