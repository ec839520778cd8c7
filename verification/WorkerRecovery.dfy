/** Rebuilding the Slots of a restarted Worker from the objects its runtime lists
    (internal/worker/manager.go). */
module WorkerRecovery {
  import opened Base
  import opened WorkerOutcomes
  import opened WorkerSlots

  datatype ObjectState = ObjectCreated | ObjectRunning | ObjectStopped | ObjectUnknown

  datatype Listed = Listed(id: RuntimeID, slotID: SlotID, identity: Identity, state: ObjectState)

  function SlotState(s: ObjectState): State {
    match s
    case ObjectCreated => Starting
    case ObjectRunning => Running
    case ObjectStopped => Stopping
    case ObjectUnknown => Failed
  }

  function Recovered(s: Slot, o: Listed): Slot {
    s.(owner := o.identity, ref := Some(o.id), state := SlotState(o.state))
  }

  /** The Slots after the listed objects were taken in order, and whether none was refused. */
  function Recover(slots: map<SlotID, Slot>, objects: seq<Listed>): (map<SlotID, Slot>, bool) {
    if objects == [] then (slots, true)
    else
      var o := objects[|objects| - 1];
      var (before, ok) := Recover(slots, objects[..|objects| - 1]);
      if !ok then (before, false)
      else if o.slotID !in before then (before, false)
      else if before[o.slotID].state != Free then (before[o.slotID := before[o.slotID].(state := Failed)], false)
      else (before[o.slotID := Recovered(before[o.slotID], o)], true)
  }

  predicate AllFree(slots: map<SlotID, Slot>) {
    forall id :: id in slots ==>
      slots[id] == Slot(slots[id].profile, slots[id].resources, Free, NOBODY, None, false, "")
  }

  predicate OnePerSlot(slots: map<SlotID, Slot>, objects: seq<Listed>) {
    && (forall k :: 0 <= k < |objects| ==> objects[k].slotID in slots)
    && (forall j, k :: 0 <= j < k < |objects| ==> objects[j].slotID != objects[k].slotID)
  }

  lemma OnePerSlotFront(slots: map<SlotID, Slot>, objects: seq<Listed>)
    requires objects != []
    ensures var n := |objects| - 1;
      OnePerSlot(slots, objects) <==>
      (OnePerSlot(slots, objects[..n]) && objects[n].slotID in slots
       && forall k :: 0 <= k < n ==> objects[k].slotID != objects[n].slotID)
  {
    var n := |objects| - 1;
    var front := objects[..n];
    assert forall k :: 0 <= k < n ==> front[k] == objects[k];
    if OnePerSlot(slots, front) && objects[n].slotID in slots &&
      (forall k :: 0 <= k < n ==> objects[k].slotID != objects[n].slotID) {
      assert forall j, k :: 0 <= j < k < n ==> objects[j].slotID != objects[k].slotID by {
        assert forall j, k :: 0 <= j < k < n ==> front[j].slotID != front[k].slotID;
      }
    }
  }

  /** Every object is in its Slot and the other Slots are as they were. */
  ghost predicate AllPlaced(slots: map<SlotID, Slot>, objects: seq<Listed>, after: map<SlotID, Slot>)
    requires OnePerSlot(slots, objects)
  {
    && after.Keys == slots.Keys
    && (forall k :: 0 <= k < |objects| ==>
          after[objects[k].slotID] == Recovered(slots[objects[k].slotID], objects[k]))
    && (forall id :: id in slots && (forall k :: 0 <= k < |objects| ==> objects[k].slotID != id) ==>
          after[id] == slots[id])
  }

  lemma OneMorePlaced(slots: map<SlotID, Slot>, objects: seq<Listed>, before: map<SlotID, Slot>)
    requires objects != [] && OnePerSlot(slots, objects) && OnePerSlot(slots, objects[..|objects| - 1])
    requires AllPlaced(slots, objects[..|objects| - 1], before)
    ensures var o := objects[|objects| - 1];
      o.slotID in slots && o.slotID in before && before[o.slotID] == slots[o.slotID] &&
      AllPlaced(slots, objects, before[o.slotID := Recovered(before[o.slotID], o)])
  {
    hide Recovered;
    var n := |objects| - 1;
    var front, o := objects[..n], objects[n];
    assert forall k :: 0 <= k < n ==> front[k] == objects[k];
    assert o.slotID in slots && forall k :: 0 <= k < n ==> objects[k].slotID in slots && objects[k].slotID != o.slotID;
    hide OnePerSlot;
    assert before[o.slotID] == slots[o.slotID];
    var after := before[o.slotID := Recovered(before[o.slotID], o)];
    forall k | 0 <= k < n ensures after[objects[k].slotID] == Recovered(slots[objects[k].slotID], objects[k]) {
      assert before[front[k].slotID] == Recovered(slots[front[k].slotID], front[k]);
    }
    forall id | id in slots && forall k :: 0 <= k < |objects| ==> objects[k].slotID != id
      ensures after[id] == slots[id]
    {
      assert objects[n].slotID != id;
      assert forall k :: 0 <= k < n ==> front[k].slotID != id;
    }
  }

  lemma {:induction false} RecoverPlaces(slots: map<SlotID, Slot>, objects: seq<Listed>)
    requires AllFree(slots) && OnePerSlot(slots, objects)
    ensures var (after, ok) := Recover(slots, objects); ok && AllPlaced(slots, objects, after)
  {
    if objects != [] {
      var n := |objects| - 1;
      OnePerSlotFront(slots, objects);
      RecoverPlaces(slots, objects[..n]);
      OneMorePlaced(slots, objects, Recover(slots, objects[..n]).0);
      assert slots[objects[n].slotID].state == Free;
      hide OnePerSlot, AllFree, Recovered, AllPlaced;
    }
  }

  lemma {:induction false} RecoverRefuses(slots: map<SlotID, Slot>, objects: seq<Listed>)
    requires AllFree(slots) && !OnePerSlot(slots, objects)
    ensures !Recover(slots, objects).1 && Recover(slots, objects).0.Keys == slots.Keys
  {
    var n := |objects| - 1;
    var front := objects[..n];
    OnePerSlotFront(slots, objects);
    if OnePerSlot(slots, front) {
      RecoverPlaces(slots, front);
      hide OnePerSlot;
      if k :| 0 <= k < n && objects[k].slotID == objects[n].slotID {
        assert front[k] == objects[k];
      }
    } else {
      RecoverRefuses(slots, front);
    }
  }

  /** Recovery succeeds exactly when every object names a known Slot and no two name the same one;
      then each of them is in its Slot and the other Slots are untouched. */
  lemma RecoverIff(slots: map<SlotID, Slot>, objects: seq<Listed>)
    requires AllFree(slots)
    ensures var (after, ok) := Recover(slots, objects);
      && (ok <==> OnePerSlot(slots, objects))
      && after.Keys == slots.Keys
      && (ok ==> forall k :: 0 <= k < |objects| ==>
           after[objects[k].slotID] == Recovered(slots[objects[k].slotID], objects[k]))
      && (ok ==> forall id :: id in slots && (forall k :: 0 <= k < |objects| ==> objects[k].slotID != id) ==>
           after[id] == slots[id])
  {
    if OnePerSlot(slots, objects) {
      RecoverPlaces(slots, objects);
    } else {
      RecoverRefuses(slots, objects);
    }
    hide OnePerSlot, Recover;
  }

  /** A recovered Slot has the owner and the object that were listed, Starting if the object was created,
      Running if it runs, Stopping if it stopped, and else Failed. */
  lemma RecoveredStates(slots: map<SlotID, Slot>, objects: seq<Listed>, k: nat)
    requires AllFree(slots) && Recover(slots, objects).1 && k < |objects|
    ensures var after, o := Recover(slots, objects).0, objects[k];
      && o.slotID in slots && o.slotID in after
      && after[o.slotID] == slots[o.slotID].(owner := o.identity, ref := Some(o.id), state := after[o.slotID].state)
      && (after[o.slotID].state == Starting <==> o.state == ObjectCreated)
      && (after[o.slotID].state == Running <==> o.state == ObjectRunning)
      && (after[o.slotID].state == Stopping <==> o.state == ObjectStopped)
      && (after[o.slotID].state == Failed <==> o.state == ObjectUnknown)
  {
    hide Recover, OnePerSlot;
    RecoverIff(slots, objects);
    SlotOfObject(slots, objects, k);
  }

  lemma RefusedLast(slots: map<SlotID, Slot>, objects: seq<Listed>)
    requires AllFree(slots) && objects != [] && OnePerSlot(slots, objects[..|objects| - 1]) &&
      !OnePerSlot(slots, objects)
    ensures var (before, ok) := Recover(slots, objects[..|objects| - 1]); var id := objects[|objects| - 1].slotID;
      && ok && !Recover(slots, objects).1
      && (id !in before ==> Recover(slots, objects).0 == before)
      && (id in before ==>
            && before[id].state != Free
            && Recover(slots, objects).0 == before[id := before[id].(state := Failed)])
  {
    var n := |objects| - 1;
    RecoverPlaces(slots, objects[..n]);
    OnePerSlotFront(slots, objects);
    hide OnePerSlot;
    if i :| 0 <= i < n && objects[i].slotID == objects[n].slotID {
      assert objects[..n][i] == objects[i];
    }
  }

  /** The first object that is refused ends a recovery. What was recovered before it stays, and the Slot it
      names, if there is one, is Failed and keeps its owner and object. */
  lemma {:induction false} RecoverStops(slots: map<SlotID, Slot>, objects: seq<Listed>, k: nat)
    requires AllFree(slots) && k < |objects| && OnePerSlot(slots, objects[..k]) && !OnePerSlot(slots, objects[..k + 1])
    ensures var (before, ok) := Recover(slots, objects[..k]); var id := objects[k].slotID;
      && ok && !Recover(slots, objects).1
      && (id !in before ==> Recover(slots, objects).0 == before)
      && (id in before ==>
            && before[id].state != Free
            && Recover(slots, objects).0 == before[id := before[id].(state := Failed)])
    decreases |objects|
  {
    var n := |objects| - 1;
    if k == n {
      assert objects[..k + 1] == objects;
      RefusedLast(slots, objects);
    } else {
      hide OnePerSlot, AllFree, Recovered;
      var front := objects[..n];
      assert front[..k] == objects[..k] && front[..k + 1] == objects[..k + 1];
      RecoverStops(slots, front, k);
    }
  }

  /** One recovery, with what the runtime answers when asked for its objects. */
  function RecoverFrom(slots: map<SlotID, Slot>, listed: Option<seq<Listed>>): (map<SlotID, Slot>, bool) {
    if listed.None? then (slots, false) else Recover(slots, listed.value)
  }

  /** Recovery tried again on what is there until it succeeds or the answers run out. */
  function Attempts(slots: map<SlotID, Slot>, answers: seq<Option<seq<Listed>>>): (map<SlotID, Slot>, bool)
    decreases |answers|
  {
    if answers == [] then (slots, false)
    else
      var (after, ok) := RecoverFrom(slots, answers[0]);
      if ok then (after, true) else Attempts(after, answers[1..])
  }

  lemma RecoverNothing(objects: seq<Listed>)
    ensures Recover(map[], objects) == (map[], objects == [])
  {
    var none: map<SlotID, Slot> := map[];
    RecoverIff(none, objects);
    assert objects != [] ==> objects[0].slotID !in none;
  }

  /** A Worker process starts without Slots, so it comes up exactly when its runtime once answers that
      it has no object: a restart over live objects never serves, and otherwise nobody owns a Slot. */
  lemma {:induction false} RestartServesIff(answers: seq<Option<seq<Listed>>>)
    ensures Attempts(map[], answers) == (map[], Some([]) in answers)
    decreases |answers|
  {
    if answers != [] {
      assert answers == [answers[0]] + answers[1..];
      if answers[0].Some? {
        RecoverNothing(answers[0].value);
      }
      RestartServesIff(answers[1..]);
    }
  }

  /** What the runtime listed is exactly what is alive. */
  ghost predicate Complete(objects: seq<Listed>, b: Backend) {
    && b.orphans == {}
    && (forall k :: 0 <= k < |objects| ==> objects[k].id in b.live && b.live[objects[k].id] == objects[k].identity.uid)
    && (forall r :: r in b.live ==> exists k :: 0 <= k < |objects| && objects[k].id == r)
    && (forall j, k :: 0 <= j < k < |objects| ==> objects[j].id != objects[k].id)
  }

  /** Where a recovered Slot comes from. */
  ghost predicate Placed(slots: map<SlotID, Slot>, objects: seq<Listed>, after: map<SlotID, Slot>, id: SlotID)
    requires id in slots && id in after
  {
    || after[id] == slots[id]
    || exists k :: 0 <= k < |objects| && objects[k].slotID == id && after[id] == Recovered(slots[id], objects[k])
  }

  lemma EveryRecoveredSlot(slots: map<SlotID, Slot>, objects: seq<Listed>, id: SlotID)
    requires AllFree(slots) && Recover(slots, objects).1 && id in slots
    ensures Recover(slots, objects).0.Keys == slots.Keys && Placed(slots, objects, Recover(slots, objects).0, id)
  {
    hide Recover;
    RecoverIff(slots, objects);
    if k :| 0 <= k < |objects| && objects[k].slotID == id {
      assert Recover(slots, objects).0[id] == Recovered(slots[id], objects[k]);
    }
  }

  lemma RecoveredOk(s: Slot, o: Listed, b: Backend, fromSnapshot: Kinds)
    requires s == Slot(s.profile, s.resources, Free, NOBODY, None, false, "") && b.orphans == {}
    requires o.id in b.live && b.live[o.id] == o.identity.uid && o.identity.uid != ""
    requires o.state == ObjectCreated ==> !fromSnapshot(o.identity.uid)
    ensures SlotOk(Recovered(s, o), fromSnapshot) && Recovered(s, o).ref.Some? && RefOk(Recovered(s, o), b)
  {
  }

  lemma EveryRecoveredSlotOk(slots: map<SlotID, Slot>, objects: seq<Listed>, b: Backend, fromSnapshot: Kinds,
                             id: SlotID)
    requires AllFree(slots) && Complete(objects, b) && Recover(slots, objects).1 && id in Recover(slots, objects).0
    requires forall k :: 0 <= k < |objects| ==> objects[k].identity.uid != ""
    requires forall k :: 0 <= k < |objects| && objects[k].state == ObjectCreated ==>
      !fromSnapshot(objects[k].identity.uid)
    ensures var s := Recover(slots, objects).0[id]; SlotOk(s, fromSnapshot) && (s.ref.Some? ==> RefOk(s, b))
  {
    hide Recover, OnePerSlot, Recovered;
    RecoverIff(slots, objects);
    EveryRecoveredSlot(slots, objects, id);
    var after := Recover(slots, objects).0;
    if after[id] != slots[id] {
      var k :| 0 <= k < |objects| && objects[k].slotID == id && after[id] == Recovered(slots[id], objects[k]);
      RecoveredOk(slots[id], objects[k], b, fromSnapshot);
      hide Complete, SlotOk, RefOk;
    } else {
      hide Complete, RefOk;
    }
  }

  lemma ReferencesDiffer(slots: map<SlotID, Slot>, objects: seq<Listed>, b: Backend, i: SlotID, j: SlotID)
    requires AllFree(slots) && Complete(objects, b) && Recover(slots, objects).1
    requires i in slots && j in slots && i != j
    ensures var after := Recover(slots, objects).0;
      after.Keys == slots.Keys && (after[i].ref.Some? ==> after[i].ref != after[j].ref)
  {
    hide Recover, OnePerSlot;
    EveryRecoveredSlot(slots, objects, i);
    EveryRecoveredSlot(slots, objects, j);
  }

  /** After a successful recovery the state table and the accounting hold again: every live object
      is referenced by the one Slot it was listed for. */
  lemma RecoverRestoresInvariant(slots: map<SlotID, Slot>, objects: seq<Listed>, b: Backend, fromSnapshot: Kinds)
    requires AllFree(slots) && Complete(objects, b) && Recover(slots, objects).1
    requires forall k :: 0 <= k < |objects| ==> objects[k].identity.uid != ""
    requires forall k :: 0 <= k < |objects| && objects[k].state == ObjectCreated ==>
      !fromSnapshot(objects[k].identity.uid)
    ensures WorkerInv(Worker(Recover(slots, objects).0, b), fromSnapshot)
    ensures forall r :: r in b.live ==> exists id :: RefersTo(Worker(Recover(slots, objects).0, b), id, r)
  {
    hide Recover, OnePerSlot, SlotOk, RefOk;
    RecoverIff(slots, objects);
    var after := Recover(slots, objects).0;
    var w := Worker(after, b);
    forall id | id in after ensures SlotOk(after[id], fromSnapshot) && (after[id].ref.Some? ==> RefOk(after[id], b)) {
      EveryRecoveredSlotOk(slots, objects, b, fromSnapshot, id);
    }
    forall r | r in b.live ensures exists id :: RefersTo(w, id, r) {
      var k :| 0 <= k < |objects| && objects[k].id == r;
      assert OnePerSlot(slots, objects) ==>
        objects[k].slotID in slots by { if OnePerSlot(slots, objects) { SlotOfObject(slots, objects, k); } }
      assert RefersTo(w, objects[k].slotID, r);
    }
    forall i, j | i in after && j in after && i != j ensures after[i].ref.Some? ==> after[i].ref != after[j].ref {
      ReferencesDiffer(slots, objects, b, i, j);
    }
  }

  lemma SlotOfObject(slots: map<SlotID, Slot>, objects: seq<Listed>, k: nat)
    requires k < |objects| && OnePerSlot(slots, objects)
    ensures objects[k].slotID in slots
  {
  }

  /** The mark that says which backend deletes an object is not recovered: it is right after a recovery
      exactly when nothing that was listed is self-managed or from a snapshot. */
  lemma RecoverMarksIff(slots: map<SlotID, Slot>, objects: seq<Listed>, fromSnapshot: Kinds)
    requires AllFree(slots) && Recover(slots, objects).1
    ensures AllMarked(Worker(Recover(slots, objects).0, Backend(map[], {})), fromSnapshot) <==>
      forall k :: 0 <= k < |objects| ==> !IsRestoredID(objects[k].id) && !fromSnapshot(objects[k].identity.uid)
  {
    hide Recover, OnePerSlot, IsRestoredID;
    RecoverIff(slots, objects);
    var after := Recover(slots, objects).0;
    forall k | 0 <= k < |objects|
      ensures objects[k].slotID in after
      ensures Marked(after[objects[k].slotID], fromSnapshot) <==>
        !IsRestoredID(objects[k].id) && !fromSnapshot(objects[k].identity.uid)
    {
      SlotOfObject(slots, objects, k);
      assert after[objects[k].slotID] == Recovered(slots[objects[k].slotID], objects[k]);
      assert !slots[objects[k].slotID].restored;
    }
    forall id | id in after
      ensures Marked(after[id], fromSnapshot) || exists k :: 0 <= k < |objects| && objects[k].slotID == id
    {
      EveryRecoveredSlot(slots, objects, id);
    }
  }
}
