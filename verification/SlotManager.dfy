/** The Worker's SlotManager as the source writes it: Slot objects updated field by field. Backend
    answers are parameters; a ghost Backend records which runtime objects exist. */
module SlotManager {
  import opened Base
  import opened Topology
  import opened WorkerSlots
  import WorkerRecovery

  /** One Slot. Each method is what the source runs while it holds the Slot's lock. */
  class ManagedSlot {
    var profile: string
    var resources: Resources
    var state: State
    var sandbox: Identity
    var runtimeRef: Option<RuntimeID>
    var restored: bool
    var restoreDir: string

    constructor (c: Config)
      ensures View() == NewSlot(c)
    {
      profile, resources := c.profile, c.resources;
      state, sandbox, runtimeRef, restored, restoreDir := Free, NOBODY, None, false, "";
    }

    ghost function View(): Slot
      reads this
    {
      Slot(profile, resources, state, sandbox, runtimeRef, restored, restoreDir)
    }

    method ClearRestoreDir()
      modifies this`restoreDir
      ensures restoreDir == ""
    {
      if restoreDir == "" {
        return;
      }
      restoreDir := "";
    }

    method Reserve(who: Identity) returns (reply: Reply)
      modifies this
      ensures (View(), reply) == WorkerSlots.Reserve(old(View()), who)
    {
      if state == Free {
        state := Reserved;
        sandbox := who;
        return Done;
      }
      if sandbox.uid == who.uid {
        return Done;
      }
      return Conflict;
    }

    method Start(who: Identity, containerOk: bool, a: StartAnswers, ghost b: Backend)
      returns (reply: Reply, ghost b': Backend)
      modifies this
      ensures (View(), b', reply) == WorkerSlots.Start(old(View()), b, who, containerOk, a)
    {
      b' := b;
      if sandbox.uid != who.uid {
        return Conflict, b';
      }
      if state == Running && runtimeRef.Some? {
        if a.status == StatusRunning {
          return Done, b';
        }
        if a.status == StatusError {
          return Rejected, b';
        }
        b' := AfterDelete(b', runtimeRef.value, a.stale);
        if a.stale.Undeleted? {
          state := Failed;
          return Rejected, b';
        }
        runtimeRef := None;
        state := Reserved;
      } else if state == Running {
        state := Reserved;
      }
      if state == Starting && runtimeRef.Some? {
        if !a.started {
          b' := Abandon(AfterDelete(b', runtimeRef.value, a.cleanup), runtimeRef.value);
          runtimeRef := None;
          state := Reserved;
          if a.cleanup.Undeleted? {
            state := Failed;
          }
          return Rejected, b';
        }
        state := Running;
        return Done, b';
      }
      if state != Reserved {
        return Rejected, b';
      }
      if !containerOk {
        return Invalid, b';
      }
      state := Starting;
      if a.created.None? {
        state := Reserved;
        return Rejected, b';
      }
      var runtimeID := a.created.value;
      b' := With(b', runtimeID, who.uid);
      runtimeRef := Some(runtimeID);
      restored := IsRestoredID(runtimeID);
      if !a.started {
        b' := Abandon(AfterDelete(b', runtimeID, a.cleanup), runtimeID);
        runtimeRef := None;
        restored := false;
        state := Reserved;
        if a.cleanup.Undeleted? {
          state := Failed;
        }
        return Rejected, b';
      }
      state := Running;
      return Done, b';
    }

    method Stop(who: Identity, a: StopAnswers, ghost b: Backend) returns (reply: Reply, ghost b': Backend)
      modifies this
      ensures (View(), b', reply) == WorkerSlots.Stop(old(View()), b, who, a)
    {
      b' := b;
      if state == Free {
        return Done, b';
      }
      if sandbox.uid != who.uid {
        return Conflict, b';
      }
      if state == Stopping || state == Cleaning {
        return Done, b';
      }
      state := Stopping;
      if runtimeRef.None? {
        return Done, b';
      }
      if restored {
        if !a.snapshotterKnown {
          state := Failed;
          return Rejected, b';
        }
        b' := AfterDelete(b', runtimeRef.value, a.deleted);
        if a.deleted.Undeleted? {
          state := Failed;
          return Rejected, b';
        }
        runtimeRef := None;
        ClearRestoreDir();
        return Done, b';
      }
      if a.stopRemoves {
        b' := Without(b', runtimeRef.value);
      }
      if !a.stopped {
        state := Failed;
        return Rejected, b';
      }
      return Done, b';
    }

    method Release(who: Identity, a: ReleaseAnswers, ghost b: Backend) returns (reply: Reply, ghost b': Backend)
      modifies this
      ensures (View(), b', reply) == WorkerSlots.Release(old(View()), b, who, a)
    {
      b' := b;
      if state == Free {
        return Done, b';
      }
      if sandbox.uid != who.uid {
        return Conflict, b';
      }
      state := Cleaning;
      if runtimeRef.Some? {
        if restored && !a.snapshotterKnown {
          state := Failed;
          return Rejected, b';
        }
        b' := AfterDelete(b', runtimeRef.value, a.deleted);
        if a.deleted.Undeleted? {
          state := Failed;
          return Rejected, b';
        }
      }
      state := Free;
      sandbox := NOBODY;
      runtimeRef := None;
      restored := false;
      ClearRestoreDir();
      return Done, b';
    }

    method Snapshot(who: Identity, a: SnapshotAnswers, ghost b: Backend) returns (reply: Reply, ghost b': Backend)
      modifies this
      ensures (View(), b', reply) == WorkerSlots.Snapshot(old(View()), b, who, a)
    {
      b' := b;
      if state != Running || runtimeRef.None? || sandbox.uid != who.uid {
        return Invalid, b';
      }
      if !IsRestoredID(runtimeRef.value) && !a.containerResolved {
        return Rejected, b';
      }
      if a.saveRemoves {
        b' := Without(b', runtimeRef.value);
      }
      if !a.saved {
        return Rejected, b';
      }
      if a.tearsDown {
        b' := Abandon(AfterDelete(b', runtimeRef.value, a.deleted), runtimeRef.value);
        runtimeRef := None;
        restored := false;
        ClearRestoreDir();
        state := Failed;
      }
      return if a.uploaded then Done else Rejected, b';
    }

    method Restore(who: Identity, a: RestoreAnswers, ghost b: Backend) returns (reply: Reply, ghost b': Backend)
      modifies this
      ensures (View(), b', reply) == WorkerSlots.Restore(old(View()), b, who, a)
    {
      b' := b;
      if sandbox.uid != who.uid {
        return Conflict, b';
      }
      if state == Running && runtimeRef.Some? {
        return Done, b';
      }
      if state != Reserved && state != Starting {
        return Rejected, b';
      }
      if !a.downloaded {
        return Rejected, b';
      }
      state := Starting;
      if a.loaded.None? {
        state := Reserved;
        return Rejected, b';
      }
      b' := With(if runtimeRef.Some? then Abandon(b', runtimeRef.value) else b', a.loaded.value, who.uid);
      runtimeRef := a.loaded;
      restored := true;
      restoreDir := a.workDir;
      state := Running;
      return Done, b';
    }
  }

  ghost function LastWins(configs: seq<Config>): map<SlotID, Config> {
    if configs == [] then map[]
    else var last := configs[|configs| - 1]; LastWins(configs[..|configs| - 1])[last.id := last]
  }

  class Manager {
    var slots: map<SlotID, ManagedSlot>
    ghost var backend: Backend

    /** A repeated ID is not rejected here: the last configuration wins. */
    constructor (configs: seq<Config>)
      ensures Valid() && View().backend == Backend(map[], {})
      ensures View().slots == map id | id in LastWins(configs) :: NewSlot(LastWins(configs)[id])
    {
      slots := map[];
      backend := Backend(map[], {});
      new;
      for i := 0 to |configs|
        invariant Valid() && backend == Backend(map[], {})
        invariant slots.Keys == LastWins(configs[..i]).Keys
        invariant forall id :: id in slots ==> fresh(slots[id])
        invariant forall id :: id in slots ==> slots[id].View() == NewSlot(LastWins(configs[..i])[id])
      {
        var created := new ManagedSlot(configs[i]);
        assert configs[..i + 1][..i] == configs[..i];
        slots := slots[configs[i].id := created];
      }
      assert configs[..|configs|] == configs;
      assert View().slots.Keys == LastWins(configs).Keys;
      forall id | id in slots ensures View().slots[id] == NewSlot(LastWins(configs)[id]) {
        assert View().slots[id] == slots[id].View();
      }
    }

    /** Distinct IDs have distinct Slot objects. */
    ghost predicate Valid()
      reads this
    {
      forall i, j :: i in slots && j in slots && i != j ==> slots[i] != slots[j]
    }

    ghost function View(): Worker
      reads this, slots.Values
    {
      Worker(map id | id in slots :: slots[id].View(), backend)
    }

    /** A method that changed one Slot object changed one entry of the view. */
    twostate lemma OneSlotChanged(id: SlotID)
      requires Valid() && slots == old(slots) && id in slots
      requires forall j :: j in slots && j != id ==> unchanged(slots[j])
      ensures View().slots == old(View()).slots[id := slots[id].View()]
    {
      var before, after := old(View()).slots[id := slots[id].View()], View().slots;
      assert after.Keys == before.Keys;
      forall j | j in after ensures after[j] == before[j] {
        if j != id {
          assert unchanged(slots[j]);
        }
      }
    }

    /** Takes the runtime's objects one by one and stops at the first that cannot be placed. */
    method Recover(listed: Option<seq<WorkerRecovery.Listed>>) returns (ok: bool)
      requires Valid()
      modifies this, slots.Values
      ensures Valid() && slots == old(slots) && backend == old(backend)
      ensures (View().slots, ok) == WorkerRecovery.RecoverFrom(old(View()).slots, listed)
    {
      if listed.None? {
        return false;
      }
      var objects := listed.value;
      ghost var initial := View().slots;
      for i := 0 to |objects|
        invariant Valid() && slots == old(slots) && backend == old(backend)
        invariant (View().slots, true) == WorkerRecovery.Recover(initial, objects[..i])
      {
        var o := objects[i];
        ghost var before := View().slots;
        RecoverNext(initial, objects, i);
        if o.slotID !in slots {
          RecoverStops(initial, objects, i + 1);
          return false;
        }
        var current := slots[o.slotID];
        label placed:
        if current.state != Free {
          current.state := Failed;
          OneSlotChanged@placed(o.slotID);
          RecoverStops(initial, objects, i + 1);
          return false;
        }
        current.sandbox := o.identity;
        current.runtimeRef := Some(o.id);
        current.state := WorkerRecovery.SlotState(o.state);
        OneSlotChanged@placed(o.slotID);
      }
      assert objects[..|objects|] == objects;
      return true;
    }

    static lemma RecoverNext(initial: map<SlotID, Slot>, objects: seq<WorkerRecovery.Listed>, i: nat)
      requires i < |objects| && WorkerRecovery.Recover(initial, objects[..i]).1
      ensures WorkerRecovery.Recover(initial, objects[..i + 1]) ==
        var before := WorkerRecovery.Recover(initial, objects[..i]).0;
        var o := objects[i];
        if o.slotID !in before then (before, false)
        else if before[o.slotID].state != Free then (before[o.slotID := before[o.slotID].(state := Failed)], false)
        else (before[o.slotID := WorkerRecovery.Recovered(before[o.slotID], o)], true)
    {
      assert objects[..i + 1][..i] == objects[..i];
    }

    static lemma {:induction false} RecoverStops(initial: map<SlotID, Slot>, objects: seq<WorkerRecovery.Listed>,
                                                 n: nat)
      requires n <= |objects| && !WorkerRecovery.Recover(initial, objects[..n]).1
      ensures WorkerRecovery.Recover(initial, objects) == WorkerRecovery.Recover(initial, objects[..n])
    {
      if n == |objects| {
        assert objects[..n] == objects;
      } else {
        var front := objects[..|objects| - 1];
        assert front[..n] == objects[..n];
        RecoverStops(initial, front, n);
      }
    }

    method ReserveSlot(id: SlotID, who: Identity) returns (reply: Reply)
      requires Valid()
      modifies this, slots.Values
      ensures Valid() && slots == old(slots)
      ensures (View(), reply) == Step(old(View()), OpReserve(id, who))
    {
      if !ValidIdentity(who) { return Invalid; }
      if id !in slots { return NotFound; }
      reply := slots[id].Reserve(who);
      OneSlotChanged(id);
    }

    method StartSandbox(id: SlotID, who: Identity, containerOk: bool, a: StartAnswers) returns (reply: Reply)
      requires Valid()
      modifies this, slots.Values
      ensures Valid() && slots == old(slots)
      ensures (View(), reply) == Step(old(View()), OpStart(id, who, containerOk, a))
    {
      if !ValidIdentity(who) { return Invalid; }
      if id !in slots { return NotFound; }
      reply, backend := slots[id].Start(who, containerOk, a, backend);
      OneSlotChanged(id);
    }

    method StopSandbox(id: SlotID, who: Identity, a: StopAnswers) returns (reply: Reply)
      requires Valid()
      modifies this, slots.Values
      ensures Valid() && slots == old(slots)
      ensures (View(), reply) == Step(old(View()), OpStop(id, who, a))
    {
      if !ValidIdentity(who) { return Invalid; }
      if id !in slots { return NotFound; }
      reply, backend := slots[id].Stop(who, a, backend);
      OneSlotChanged(id);
    }

    method ReleaseSlot(id: SlotID, who: Identity, a: ReleaseAnswers) returns (reply: Reply)
      requires Valid()
      modifies this, slots.Values
      ensures Valid() && slots == old(slots)
      ensures (View(), reply) == Step(old(View()), OpRelease(id, who, a))
    {
      if !ValidIdentity(who) { return Invalid; }
      if id !in slots { return NotFound; }
      reply, backend := slots[id].Release(who, a, backend);
      OneSlotChanged(id);
    }

    method CreateSnapshot(id: SlotID, who: Identity, a: SnapshotAnswers) returns (reply: Reply)
      requires Valid()
      modifies this, slots.Values
      ensures Valid() && slots == old(slots)
      ensures (View(), reply) == Step(old(View()), OpSnapshot(id, who, a))
    {
      if !ValidIdentity(who) || !a.requestOk { return Invalid; }
      if id !in slots { return NotFound; }
      reply, backend := slots[id].Snapshot(who, a, backend);
      OneSlotChanged(id);
    }

    method RestoreFromSnapshot(id: SlotID, who: Identity, a: RestoreAnswers) returns (reply: Reply)
      requires Valid()
      modifies this, slots.Values
      ensures Valid() && slots == old(slots)
      ensures (View(), reply) == Step(old(View()), OpRestore(id, who, a))
    {
      if !ValidIdentity(who) || !a.requestOk { return Invalid; }
      if id !in slots { return NotFound; }
      reply, backend := slots[id].Restore(who, a, backend);
      OneSlotChanged(id);
    }

    /** The configurations by ID, or a repeated ID. */
    static method ByID(configs: seq<Config>) returns (unique: bool, desired: map<SlotID, Config>)
      ensures unique == DistinctIds(configs)
      ensures unique ==> desired.Keys == Ids(configs) && forall c :: c in configs ==> desired[c.id] == c
    {
      desired := map[];
      for i := 0 to |configs|
        invariant DistinctIds(configs[..i])
        invariant desired.Keys == Ids(configs[..i])
        invariant forall c :: c in configs[..i] ==> desired[c.id] == c
      {
        var cfg := configs[i];
        assert configs[..i + 1] == configs[..i] + [cfg];
        if cfg.id in desired {
          assert !DistinctIds(configs) by {
            var c :| c in configs[..i] && c.id == cfg.id;
            var k :| 0 <= k < i && configs[k] == c;
          }
          return false, desired;
        }
        desired := desired[cfg.id := cfg];
      }
      assert configs[..|configs|] == configs;
      return true, desired;
    }

    /** No busy Slot is removed and no kept Slot changes its profile or resources. */
    method Compatible(desired: map<SlotID, Config>) returns (ok: bool)
      requires Valid()
      ensures ok <==> forall id :: id in slots ==>
        (if id in desired then SameShape(slots[id].View(), desired[id]) else slots[id].View().state == Free)
    {
      var todo := slots.Keys;
      while todo != {}
        invariant todo <= slots.Keys
        invariant forall id :: id in slots && id !in todo ==>
          (if id in desired then SameShape(slots[id].View(), desired[id]) else slots[id].View().state == Free)
        decreases |todo|
      {
        var id := Pick(todo);
        var current := slots[id];
        if id !in desired {
          if current.state != Free {
            return false;
          }
        } else if !(current.profile == desired[id].profile && current.resources == desired[id].resources) {
          return false;
        }
        todo := todo - {id};
      }
      return true;
    }

    /** Kept Slots stay the same objects, so an operation that holds one still sees it. */
    method Rebuilt(desired: map<SlotID, Config>) returns (next: map<SlotID, ManagedSlot>)
      requires Valid()
      ensures next.Keys == desired.Keys
      ensures forall id :: id in next && id in slots ==> next[id] == slots[id]
      ensures forall id :: id in next && id !in slots ==> fresh(next[id]) && next[id].View() == NewSlot(desired[id])
      ensures forall i, j :: i in next && j in next && i != j ==> next[i] != next[j]
    {
      next := map[];
      var todo := desired.Keys;
      while todo != {}
        invariant todo <= desired.Keys && next.Keys == desired.Keys - todo
        invariant forall id :: id in next && id in slots ==> next[id] == slots[id]
        invariant forall id :: id in next && id !in slots ==> fresh(next[id]) && next[id].View() == NewSlot(desired[id])
        invariant forall i, j :: i in next && j in next && i != j ==> next[i] != next[j]
        decreases |todo|
      {
        var id := Pick(todo);
        if id in slots {
          next := next[id := slots[id]];
        } else {
          var created := new ManagedSlot(desired[id]);
          next := next[id := created];
        }
        todo := todo - {id};
      }
    }

    lemma AcceptsIffCompatible(configs: seq<Config>, desired: map<SlotID, Config>)
      requires DistinctIds(configs) && desired.Keys == Ids(configs) && forall c :: c in configs ==> desired[c.id] == c
      ensures Accepts(View().slots, configs) <==> forall id :: id in slots ==>
        (if id in desired then SameShape(slots[id].View(), desired[id]) else slots[id].View().state == Free)
    {
      var view := View().slots;
      assert view.Keys == slots.Keys;
      assert forall id :: id in slots ==> view[id] == slots[id].View();
      if Accepts(view, configs) {
        forall id | id in slots
          ensures if id in desired then SameShape(slots[id].View(), desired[id]) else slots[id].View().state == Free
        {
          if id in desired {
            var c :| c in configs && c.id == id;
          }
        }
      }
    }

    /** Checks every condition first; the Slot map is swapped only when all hold. */
    method ApplySlots(configs: seq<Config>) returns (reply: Reply)
      requires Valid()
      modifies this
      ensures Valid()
      ensures (View(), reply) == Step(old(View()), OpApply(configs))
      ensures forall id :: id in slots ==> if id in old(slots) then slots[id] == old(slots[id]) else fresh(slots[id])
    {
      hide Accepts, Applied, NewSlot, SameShape;
      var unique, desired := ByID(configs);
      if !unique {
        assert !Accepts(View().slots, configs) by { DuplicateRejected(View().slots, configs); }
        return Rejected;
      }
      var ok := Compatible(desired);
      AcceptsIffCompatible(configs, desired);
      if !ok {
        return Rejected;
      }
      ghost var before := View();
      var next := Rebuilt(desired);
      slots := next;
      forall id | id in next
        ensures next[id].View() == if id in before.slots then before.slots[id] else NewSlot(desired[id])
      {
        assert id in before.slots ==> before.slots[id] == old(slots[id].View());
      }
      AppliedByID(before.slots, configs, desired, View().slots);
      return Done;
    }

    static lemma AppliedByID(view: map<SlotID, Slot>, configs: seq<Config>, desired: map<SlotID, Config>,
                             after: map<SlotID, Slot>)
      requires DistinctIds(configs) && desired.Keys == Ids(configs) && forall c :: c in configs ==> desired[c.id] == c
      requires after.Keys == desired.Keys
      requires forall id :: id in after ==> after[id] == if id in view then view[id] else NewSlot(desired[id])
      ensures after == Applied(view, configs)
    {
    }

    static lemma DuplicateRejected(view: map<SlotID, Slot>, configs: seq<Config>)
      requires !DistinctIds(configs)
      ensures !Accepts(view, configs)
    {
    }
  }

  const ATTEMPTS: nat := 50

  /** A Worker process recovers before it serves, and tries fifty times. */
  method RecoverAtStart(manager: Manager, answers: seq<Option<seq<WorkerRecovery.Listed>>>) returns (ok: bool)
    requires manager.Valid() && |answers| == ATTEMPTS
    modifies manager, manager.slots.Values
    ensures manager.Valid() && manager.slots == old(manager.slots) && manager.backend == old(manager.backend)
    ensures (manager.View().slots, ok) == WorkerRecovery.Attempts(old(manager.View()).slots, answers)
  {
    ok := false;
    var attempt := 0;
    assert answers[0..] == answers;
    while attempt < ATTEMPTS && !ok
      invariant attempt <= ATTEMPTS && manager.Valid() && manager.slots == old(manager.slots) &&
        manager.backend == old(manager.backend)
      invariant WorkerRecovery.Attempts(old(manager.View()).slots, answers) ==
        if ok then (manager.View().slots, true) else WorkerRecovery.Attempts(manager.View().slots, answers[attempt..])
      decreases ATTEMPTS - attempt
    {
      assert answers[attempt..][1..] == answers[attempt + 1..];
      ok := manager.Recover(answers[attempt]);
      attempt := attempt + 1;
    }
  }
}
