/** When a deletion ends. It asks the Worker the sandbox is placed on to stop and release the Slot, and
    waits as long as that Worker is gone, does not know the Slot, or has given it to another sandbox. */
module DeletionBlocked {
  import opened Base
  import opened BinPack
  import opened Scheduler
  import opened Ownership
  import opened OwnershipRuns
  import opened OwnershipStretches
  import O = WorkerOutcomes
  import W = WorkerSlots

  predicate OwnedByOther(s: System, u: UID, o: Sandbox)
    requires o.place.Some?
  {
    && PodOf(o) in s.workers && o.place.value.slotID in s.workers[PodOf(o)].slots
    && var slot := s.workers[PodOf(o)].slots[o.place.value.slotID]; slot.state != W.Free && slot.owner.uid != u
  }

  /** The Worker has the Slot, and nobody else is in it. The Worker refuses an incomplete identity, which
      API objects never have. */
  predicate Served(s: System, u: UID, o: Sandbox)
    requires o.place.Some?
  {
    && W.ValidIdentity(IdentityOf(u, o))
    && PodOf(o) in s.workers && o.place.value.slotID in s.workers[PodOf(o)].slots
    && !OwnedByOther(s, u, o)
  }

  /** `u` is being deleted, and its Worker is gone, does not know its Slot or has it for another sandbox. */
  ghost predicate Blocked(s: System, u: UID) {
    && u in s.api && s.api[u].deleting && s.api[u].finalizer && s.api[u].place.Some?
    && !Served(s, u, s.api[u])
    && (s.phase.Idle? || s.phase.u != u || s.phase.AddingFinalizer? || s.phase.Restoring? || s.phase.Reserving?
        || s.phase.Launching? || s.phase.Marking? || s.phase.Stopping?)
  }

  lemma StopEnds(s: System, e: Event, s': System)
    requires e.StopSandbox? && DeleteStep(s, e, s') && !Served(s, s.phase.u, s.api[s.phase.u])
    ensures s'.phase.Idle?
  {
    var u := s.phase.u;
    var o := s.api[u];
    if PodOf(o) in s.workers {
      StopRefused(s.workers[PodOf(o)], o.place.value.slotID, IdentityOf(u, o), e.stop);
    }
    hide W.Step;
  }

  lemma BlockedInWorld(s: System, e: Event, s': System, u: UID)
    requires Blocked(s, u) && WorldStep(s, e, s')
    requires u in s'.api && s'.api[u].place.Some? ==> !Served(s', u, s'.api[u])
    ensures Blocked(s', u)
  {
    hide Served, W.Step, Updated;
  }

  lemma BlockedInStart(s: System, e: Event, s': System, u: UID)
    requires Blocked(s, u) && StartStep(s, e, s')
    requires u in s'.api && s'.api[u].place.Some? ==> !Served(s', u, s'.api[u])
    ensures Blocked(s', u)
  {
    hide Served, W.Step, Assign, Restore;
  }

  lemma BlockedInDelete(s: System, e: Event, s': System, u: UID)
    requires Blocked(s, u) && DeleteStep(s, e, s')
    requires u in s'.api && s'.api[u].place.Some? ==> !Served(s', u, s'.api[u])
    ensures Blocked(s', u)
  {
    hide Served, W.Step, Release;
    if e.StopSandbox? && s.phase.u == u {
      StopEnds(s, e, s');
    }
  }

  lemma BlockedStays(s: System, e: Event, s': System, u: UID)
    requires Blocked(s, u) && Next(s, e, s')
    requires u in s'.api && s'.api[u].place.Some? ==> !Served(s', u, s'.api[u])
    ensures Blocked(s', u)
  {
    hide Served, Blocked, WorldStep, StartStep, DeleteStep;
    if WorldStep(s, e, s') {
      BlockedInWorld(s, e, s', u);
    } else if StartStep(s, e, s') {
      BlockedInStart(s, e, s', u);
    } else {
      BlockedInDelete(s, e, s', u);
    }
  }

  /** As long as the Slot is not served, no run gets the deletion past its Stop call: the object stays,
      with its finalizer. */
  lemma {:induction false} DeletionWaits(states: seq<System>, events: seq<Event>, n: nat, u: UID)
    requires Steps(states, events) && Blocked(states[0], u) && n < |states|
    requires forall i :: 0 <= i < |states| && u in states[i].api && states[i].api[u].place.Some? ==>
      !Served(states[i], u, states[i].api[u])
    ensures Blocked(states[n], u)
    decreases n
  {
    hide Blocked, Next, Served;
    if n > 0 {
      DeletionWaits(states, events, n - 1, u);
      BlockedStays(states[n - 1], events[n - 1], states[n], u);
    }
  }

  // ---------------------------------------------------------------- when it goes through

  /** After a fault-free stop that was answered, a fault-free release is answered too. */
  lemma StopThenRelease(w: W.Worker, id: SlotID, who: W.Identity)
    requires O.Addressed(w, id, who)
    ensures var (w1, reply) := W.Step(w, W.OpStop(id, who, W.GOOD_STOP));
      && (reply == W.Done <==> w.slots[id].state == W.Free || w.slots[id].owner.uid == who.uid)
      && (reply == W.Done ==> W.Step(w1, W.OpRelease(id, who, W.GOOD_RELEASE)).1 == W.Done)
  {
    O.StopDoneIff(w, id, who, W.GOOD_STOP);
    O.StopOutcome(w, id, who, W.GOOD_STOP);
    O.ReleaseDoneIff(W.Step(w, W.OpStop(id, who, W.GOOD_STOP)).0, id, who, W.GOOD_RELEASE);
    hide W.Step;
  }

  /** A Worker that does not have the Slot, or has it for another, refuses the stop whatever it is asked. */
  lemma StopRefused(w: W.Worker, id: SlotID, who: W.Identity, a: W.StopAnswers)
    requires O.Addressed(w, id, who) ==> w.slots[id].state != W.Free && w.slots[id].owner.uid != who.uid
    ensures W.Step(w, W.OpStop(id, who, a)).1 != W.Done
  {
    if O.Addressed(w, id, who) {
      O.StopDoneIff(w, id, who, a);
    } else {
      O.Refused(w, W.OpStop(id, who, a));
    }
    hide W.Step;
  }

  /** One reconcile of a deleting sandbox, every call delivered and every answer without fault. */
  function GoodDeletion(u: UID, placed: bool): seq<Event> {
    if placed then
      [Fetch(u, true), MarkStopping(Succeeds), StopSandbox(Succeeds, W.GOOD_STOP),
       ReleaseSlot(Succeeds, W.GOOD_RELEASE), Forget, RemoveFinalizer(Succeeds)]
    else
      [Fetch(u, true), Forget, RemoveFinalizer(Succeeds)]
  }

  ghost function AfterStop(s: System, u: UID): System
    requires u in s.api && s.api[u].place.Some?
  {
    var o := s.api[u];
    Call(s, o, W.OpStop(o.place.value.slotID, IdentityOf(u, o), W.GOOD_STOP), Succeeds, Releasing(u))
  }

  ghost function AfterRelease(s: System, u: UID): System
    requires u in s.api && s.api[u].place.Some?
  {
    var o := s.api[u];
    Call(s, o, W.OpRelease(o.place.value.slotID, IdentityOf(u, o), W.GOOD_RELEASE), Succeeds, Forgetting(u))
  }

  lemma StopGoesOnIff(s: System, u: UID)
    requires u in s.api && s.api[u].place.Some?
    ensures AfterStop(s, u).phase == if Served(s, u, s.api[u]) then Releasing(u) else Idle
    ensures Served(s, u, s.api[u]) ==> AfterRelease(AfterStop(s, u), u).phase == Forgetting(u)
    ensures AfterStop(s, u).api == s.api && AfterRelease(AfterStop(s, u), u).api == s.api
  {
    var o := s.api[u];
    var id, who := o.place.value.slotID, IdentityOf(u, o);
    if Served(s, u, o) {
      var w := s.workers[PodOf(o)];
      StopThenRelease(w, id, who);
    } else if PodOf(o) in s.workers {
      StopRefused(s.workers[PodOf(o)], id, who, W.GOOD_STOP);
    }
    hide W.Step;
  }

  /** The first steps of such a reconcile, whatever run they are part of. */
  lemma OnlyStep(s: System, e: Event, s': System)
    requires Next(s, e, s')
    ensures e.Fetch? ==> s' == s.(phase := Begin(s, e.u, e.poolReady))
    ensures e.MarkStopping? && e.outcome.Succeeds? ==> s.phase.Marking? && s' == s.(phase := Stopping(s.phase.u))
    ensures e.StopSandbox? && e.outcome.Succeeds? && e.stop == W.GOOD_STOP ==>
      s.phase.Stopping? && s.phase.u in s.api && s.api[s.phase.u].place.Some? && s' == AfterStop(s, s.phase.u)
    ensures e.ReleaseSlot? ==> s.phase.Releasing?
  {
    hide W.Step;
  }

  lemma NotGoneThrough(s: System, u: UID, states: seq<System>)
    requires u in s.api && s.api[u].deleting && s.api[u].finalizer && s.api[u].place.Some? && !Served(s, u, s.api[u])
    requires states != [] && states[0] == s
    ensures !Steps(states, GoodDeletion(u, true))
  {
    hide Next, AfterStop, Served;
    var events := GoodDeletion(u, true);
    var stopping := s.(phase := Stopping(u));
    SameServed(s, stopping, u);
    StopGoesOnIff(stopping, u);
    if Steps(states, events) {
      OnlyStep(states[0], events[0], states[1]);
      OnlyStep(states[1], events[1], states[2]);
      OnlyStep(states[2], events[2], states[3]);
      OnlyStep(states[3], events[3], states[4]);
    }
  }

  lemma SameServed(s: System, s': System, u: UID)
    requires s'.workers == s.workers && u in s.api && s.api[u].place.Some?
    ensures Served(s', u, s.api[u]) == Served(s, u, s.api[u])
  {
  }

  /** One reconcile of a deleting sandbox in which every call is delivered and no answer is a fault ends
      with the sandbox gone exactly when it is placed nowhere, or its Worker is there, knows its Slot and
      has no other sandbox in it. */
  lemma DeletionGoesThroughIff(s: System, u: UID)
    requires s.phase.Idle? && u in s.api && s.api[u].deleting && s.api[u].finalizer
    ensures var events := GoodDeletion(u, s.api[u].place.Some?);
      (exists states: seq<System> :: Steps(states, events) && states[0] == s && u !in states[|events|].api)
      <==> (s.api[u].place.Some? ==> Served(s, u, s.api[u]))
  {
    hide Next, Served;
    var events := GoodDeletion(u, s.api[u].place.Some?);
    if s.api[u].place.None? {
      var states := GoneUnplaced(s, u);
    } else if Served(s, u, s.api[u]) {
      var states := GoneThrough(s, u);
    } else {
      forall states: seq<System> | states != [] && states[0] == s ensures !Steps(states, events) {
        NotGoneThrough(s, u, states);
      }
    }
  }

  /** The end of a deletion: the Scheduler forgets the sandbox and the finalizer goes. */
  lemma FinishStretch(s: System, u: UID) returns (states: seq<System>)
    requires s.phase == Forgetting(u)
    ensures Steps(states, [Forget, RemoveFinalizer(Succeeds)]) && states[0] == s && u !in states[2].api
  {
    hide Release, WorldStep, StartStep;
    var s1 := s.(sched := Release(s.sched, u), phase := RemovingFinalizer(u));
    var s2 := s1.(api := s1.api - {u}, phase := Idle);
    states := [s, s1, s2];
    assert DeleteStep(s, Forget, s1);
    assert DeleteStep(s1, RemoveFinalizer(Succeeds), s2);
    hide DeleteStep;
    assert Next(states[0], Forget, states[1]) && Next(states[1], RemoveFinalizer(Succeeds), states[2]);
  }

  lemma GoneUnplaced(s: System, u: UID) returns (states: seq<System>)
    requires s.phase.Idle? && u in s.api && s.api[u].deleting && s.api[u].finalizer && s.api[u].place.None?
    ensures Steps(states, GoodDeletion(u, false)) && states[0] == s && u !in states[3].api
  {
    hide Next;
    var forgetting := s.(phase := Forgetting(u));
    FetchNext(s, u);
    assert Steps([s, forgetting], [Fetch(u, true)]);
    var rest := FinishStretch(forgetting, u);
    var events;
    states, events := Joined([s, forgetting], [Fetch(u, true)], rest, [Forget, RemoveFinalizer(Succeeds)]);
    assert events == GoodDeletion(u, false);
  }

  lemma FetchNext(s: System, u: UID)
    requires s.phase.Idle?
    ensures Next(s, Fetch(u, true), s.(phase := Begin(s, u, true)))
  {
    hide WorldStep, DeleteStep;
  }

  lemma GoneThrough(s: System, u: UID) returns (states: seq<System>)
    requires s.phase.Idle? && u in s.api && s.api[u].deleting && s.api[u].finalizer && s.api[u].place.Some?
    requires Served(s, u, s.api[u])
    ensures Steps(states, GoodDeletion(u, true)) && states[0] == s && u !in states[6].api
  {
    var s2 := s.(phase := Stopping(u));
    SameServed(s, s2, u);
    hide Served, Next;
    var events;
    states, events := ToStopCall(s, u);
    var calls := CallsStretch(s2, u);
    states, events := Joined(states, events, calls, GoodDeletion(u, true)[2..4]);
    var rest := FinishStretch(calls[2], u);
    states, events := Joined(states, events, rest, [Forget, RemoveFinalizer(Succeeds)]);
    assert events == GoodDeletion(u, true);
  }

  lemma CallsStretch(s: System, u: UID) returns (states: seq<System>)
    requires s.phase == Stopping(u) && u in s.api && s.api[u].place.Some? && Served(s, u, s.api[u])
    ensures Steps(states, GoodDeletion(u, true)[2..4]) && states[0] == s && states[2].phase == Forgetting(u)
  {
    StopGoesOnIff(s, u);
    hide W.Step, Call, Served, WorldStep, StartStep;
    var s1 := AfterStop(s, u);
    var s2 := AfterRelease(s1, u);
    states := [s, s1, s2];
    assert DeleteStep(s, StopSandbox(Succeeds, W.GOOD_STOP), s1);
    assert DeleteStep(s1, ReleaseSlot(Succeeds, W.GOOD_RELEASE), s2);
    hide DeleteStep, AfterStop, AfterRelease;
    assert Next(s, GoodDeletion(u, true)[2], s1) && Next(s1, GoodDeletion(u, true)[3], s2);
  }

  // ---------------------------------------------------------------- how it gets stuck

  /** `u` is about to lose its finalizer, and its Slot is the only one free for the waiting `v`. */
  ghost predicate Contended(s: System, u: UID, v: UID) {
    && s.phase == RemovingFinalizer(u) && u != v && u in s.api && Placeable(s, v)
    && s.api[u].deleting && s.api[u].finalizer && s.api[u].place.Some?
    && W.ValidIdentity(IdentityOf(v, s.api[v])) && s.api[u].namespace == s.api[v].namespace
    && var o := s.api[u]; var id := o.place.value.slotID;
       && OnlyFree(s, v, KeyOf(s.api[v], o.place.value.worker), id)
       && PodOf(o) in s.workers && id in s.workers[PodOf(o)].slots && s.workers[PodOf(o)].slots[id].state == W.Free
  }

  lemma ReservedBlocks(s: System, u: UID, v: UID)
    requires u != v && u in s.api && v in s.api && s.api[v].place.Some? && s.api[u].place == s.api[v].place
    requires s.api[u].deleting && s.api[u].finalizer && s.api[u].namespace == s.api[v].namespace
    requires W.ValidIdentity(IdentityOf(v, s.api[v]))
    requires var o := s.api[v]; var id := o.place.value.slotID;
      PodOf(o) in s.workers && id in s.workers[PodOf(o)].slots && s.workers[PodOf(o)].slots[id].state == W.Free
    ensures Blocked(Reserved(s, v), u) && Reserved(s, v).api == s.api && OwnedByOther(Reserved(s, v), u, s.api[u])
  {
    var o := s.api[v];
    ReserveFree(s.workers[PodOf(o)], o.place.value.slotID, IdentityOf(v, o));
    hide W.Step;
  }

  lemma FinalWriteFails(s: System, u: UID) returns (states: seq<System>, events: seq<Event>)
    requires s.phase == RemovingFinalizer(u)
    ensures Steps(states, events) && states == [s, s.(phase := Idle)] && events == [RemoveFinalizer(Fails)]
  {
    states, events := [s, s.(phase := Idle)], [RemoveFinalizer(Fails)];
    assert DeleteStep(s, events[0], states[1]);
    hide DeleteStep;
  }

  /** One failed write and one ordinary placement of `v` get the deletion of `u` stuck. */
  lemma FailedWriteLeadsToBlocked(s: System, u: UID, v: UID) returns (states: seq<System>, events: seq<Event>)
    requires Contended(s, u, v)
    ensures Steps(states, events) && states[0] == s && Blocked(states[|events|], u)
    ensures OwnedByOther(states[|events|], u, states[|events|].api[u])
    ensures events == [RemoveFinalizer(Fails)] + [Fetch(v, true), Schedule(true), Persist(Succeeds)]
                        + [Fetch(v, true), RestoreAssignment, ReserveSlot(Succeeds)]
  {
    hide Next, Call, Assign, W.Step, Blocked, OnlyFree, FreeFor;
    var place := s.api[u].place.value;
    var k := KeyOf(s.api[v], place.worker);
    states, events := FinalWriteFails(s, u);
    var idle := s.(phase := Idle);
    assert OnlyFree(idle, v, k, place.slotID) by { OnlyFreeAlike(s, idle, v, k, place.slotID); }
    var b, eb := PlaceStretch(idle, v, k, place.slotID);
    var placed := b[3];
    states, events := Joined(states, events, b, eb);
    var c, ec := ReserveStretch(placed, v);
    states, events := Joined(states, events, c, ec);
    ReservedBlocks(placed, u, v);
  }

  lemma OnlyFreeAlike(s: System, s': System, u: UID, k: WorkerKey, id: SlotID)
    requires u in s.api && u in s'.api && s'.api[u] == s.api[u] && s'.sched == s.sched && OnlyFree(s, u, k, id)
    ensures OnlyFree(s', u, k, id)
  {
  }
}
