/** Pushing a plan to a Worker that may hold another layout than the recorded one, as after a push that
    only some Workers accepted or a status write that failed (internal/controller/pool_controller.go,
    internal/worker/manager.go): whether it is accepted, now and on every later retry. */
module TopologyPushes {
  import opened Base
  import opened GoStrings
  import opened Topology
  import opened TopologyIds
  import opened TopologyOrder
  import opened TopologyApply
  import opened WorkerSlots

  /** The Worker has the Slots of this layout. */
  ghost predicate Has(slots: map<SlotID, Slot>, held: seq<Config>) {
    DistinctIds(held) && slots.Keys == Ids(held) && forall c :: c in held ==> SameShape(slots[c.id], c)
  }

  /** An ID has another profile or other resources on the Worker than in the layout. */
  ghost predicate Clash(slots: map<SlotID, Slot>, configs: seq<Config>) {
    exists c :: c in configs && c.id in slots && !SameShape(slots[c.id], c)
  }

  /** Every Slot that the layout leaves out is Free. */
  ghost predicate LeftOutFree(slots: map<SlotID, Slot>, configs: seq<Config>) {
    forall id :: id in slots && id !in Ids(configs) ==> slots[id].state == Free
  }

  lemma ClashIffCrosses(slots: map<SlotID, Slot>, held: seq<Config>, configs: seq<Config>)
    requires Has(slots, held)
    ensures Clash(slots, configs) <==> Crosses(held, configs)
  {
    if Clash(slots, configs) {
      var c :| c in configs && c.id in slots && !SameShape(slots[c.id], c);
      var a :| a in held && a.id == c.id;
      assert a != c;
    }
    if Crosses(held, configs) {
      var a, b :| a in held && b in configs && a.id == b.id && a != b;
      assert b.id in slots && SameShape(slots[a.id], a);
    }
  }

  /** Whatever layout a Worker holds, it accepts a plan for the recorded one exactly when no ID differs
      between the two and every Slot in use there is part of the plan. */
  lemma AnyWorkerAcceptsIff(r: Request, order: seq<string>, names: seq<string>, held: seq<Config>,
                            slots: map<SlotID, Slot>)
    requires DistinctIds(r.current) && r.CountsLegal() && Has(slots, held)
    requires IsProfileOrder(names, order, r.counts, Present(r.current)) && OrderCovers(order, r.counts)
    ensures var plan := PlanOf(r, names).slots;
      Accepts(slots, plan) <==> !Crosses(held, plan) && forall c :: c in held && slots[c.id].state != Free ==> c in plan
  {
    hide PlanOf, IsProfileOrder;
    PlanMeetsSpec(r, order, names);
    var plan := PlanOf(r, names).slots;
    assert DistinctIds(plan);
    hide MeetsSpec;
    ClashIffCrosses(slots, held, plan);
    if !Crosses(held, plan) {
      forall c | c in held ensures c in plan <==> c.id in Ids(plan) {
        if b :| b in plan && b.id == c.id { assert b == c; }
      }
    }
  }

  // ---------------------------------------------------------------- the same push again

  lemma ShapeKept(s: Slot, b: Backend, op: Op)
    requires !op.OpApply? && !op.OpVanish?
    ensures OnSlot(s, b, op).0.profile == s.profile && OnSlot(s, b, op).0.resources == s.resources
  {
  }

  lemma AppliedShapes(slots: map<SlotID, Slot>, configs: seq<Config>)
    requires Accepts(slots, configs)
    ensures Has(Applied(slots, configs), configs)
  {
    forall c | c in configs ensures SameShape(Applied(slots, configs)[c.id], c) {
      assert c.id in Ids(configs) && forall d :: d in configs && d.id == c.id ==> d == c;
    }
  }

  /** No operation of a Worker changes whether it clashes with a layout, if no other is pushed to it. */
  lemma StepKeepsClash(w: Worker, op: Op, configs: seq<Config>)
    requires op.OpApply? ==> op.configs == configs
    ensures Clash(Step(w, op).0.slots, configs) <==> Clash(w.slots, configs)
  {
    var after := Step(w, op).0.slots;
    if op.OpApply? {
      if Accepts(w.slots, configs) {
        AppliedShapes(w.slots, configs);
      }
    } else if !op.OpVanish? && RequestOk(op) && op.id in w.slots {
      ShapeKept(w.slots[op.id], w.backend, op);
      hide OnSlot, RequestOk;
      assert after.Keys == w.slots.Keys;
      forall id | id in after
        ensures after[id].profile == w.slots[id].profile && after[id].resources == w.slots[id].resources
      {
      }
      if Clash(w.slots, configs) {
        var c :| c in configs && c.id in w.slots && !SameShape(w.slots[c.id], c);
        assert !SameShape(after[c.id], c);
      }
      if Clash(after, configs) {
        var c :| c in configs && c.id in after && !SameShape(after[c.id], c);
        assert !SameShape(w.slots[c.id], c);
      }
    }
  }

  lemma {:induction false} RunKeepsClash(w: Worker, ops: seq<Op>, configs: seq<Config>)
    requires forall op :: op in ops && op.OpApply? ==> op.configs == configs
    ensures Clash(Run(w, ops).slots, configs) <==> Clash(w.slots, configs)
  {
    hide Step, Clash;
    if ops != [] {
      var front, last := ops[..|ops| - 1], ops[|ops| - 1];
      assert last in ops && forall op :: op in front ==> op in ops;
      RunKeepsClash(w, front, configs);
      StepKeepsClash(Run(w, front), last, configs);
    }
  }

  /** A plan pushed again and again to a Worker, whatever its sandboxes do in between: it is accepted
      after a run exactly when the two layouts had no ID that differs at the start and, at the end, every
      Slot left out is Free. So a difference is never resolved by retrying, and a busy Slot is once it is
      freed. */
  lemma RetryAcceptedIff(w: Worker, held: seq<Config>, ops: seq<Op>, configs: seq<Config>)
    requires Has(w.slots, held) && DistinctIds(configs)
    requires forall op :: op in ops && op.OpApply? ==> op.configs == configs
    ensures Accepts(Run(w, ops).slots, configs) <==> !Crosses(held, configs) && LeftOutFree(Run(w, ops).slots, configs)
  {
    ClashIffCrosses(w.slots, held, configs);
    RunKeepsClash(w, ops, configs);
    hide Run;
  }

  /** After a push that only some Workers accepted, the same plan pushed to all of them is accepted by the
      ones that have it already, and by the others exactly when it reaches no freed ID; and a Worker that
      accepts it holds the plan from then on. */
  lemma PartialPushConvergesIff(r: Request, order: seq<string>, names: seq<string>, slots: map<SlotID, Slot>)
    requires DistinctIds(r.current) && r.CountsLegal() && (Holds(slots, r) || Has(slots, PlanOf(r, names).slots))
    requires IsProfileOrder(names, order, r.counts, Present(r.current)) && OrderCovers(order, r.counts)
    ensures var plan := PlanOf(r, names).slots;
      && (Accepts(slots, plan) <==> Has(slots, plan) || !FreedIdReached(r, names))
      && (Accepts(slots, plan) ==> Has(Applied(slots, plan), plan))
  {
    var plan := PlanOf(r, names).slots;
    hide PlanOf, IsProfileOrder, FreedIdReached;
    PlanMeetsSpec(r, order, names);
    assert DistinctIds(plan);
    hide MeetsSpec;
    if Has(slots, plan) {
      OwnLayoutAccepted(slots, plan);
    } else {
      AcceptsIffNoFreedIdReached(r, order, names, slots);
    }
    if Accepts(slots, plan) {
      AppliedShapes(slots, plan);
    }
  }

  lemma OwnLayoutAccepted(slots: map<SlotID, Slot>, configs: seq<Config>)
    requires Has(slots, configs)
    ensures Accepts(slots, configs)
  {
  }

  // ---------------------------------------------------------------- a Worker that is left behind

  const RES := NO_RESOURCES
  const A0 := Config(0, "a", RES)
  const A1 := Config(1, "a", RES)
  const B1 := Config(1, "b", RES)

  /** Recorded is one Slot of a, and now one of b is wanted too. */
  function LeftBehind(): Request {
    Request([A0], map["a" := 1, "b" := 1], map["a" := RES, "b" := RES], {})
  }

  lemma LeftBehindOrder()
    ensures IsProfileOrder(["a", "b"], ["a", "b"], LeftBehind().counts, Present(LeftBehind().current))
    ensures OrderCovers(["a", "b"], LeftBehind().counts) && DistinctIds(LeftBehind().current) &&
      LeftBehind().CountsLegal()
  {
    assert Present(LeftBehind().current) == {"a"} by { assert A0 in LeftBehind().current; }
    CompleteOrder(["a", "b"], LeftBehind().counts, {"a"});
  }

  lemma LeftBehindMembers(plan: Plan) returns (b: Config)
    requires MeetsSpec(LeftBehind(), plan)
    ensures b !in LeftBehind().current && b == Config(b.id, "b", RES) && b.id >= 0
    ensures forall c :: c in plan.slots <==> c == A0 || c == b
  {
    hide BlockedAt, StrictlySorted;
    var r, slots := LeftBehind(), plan.slots;
    assert A0 in r.current && Lower(r.current, A0) == {} && Keeps(r, A0);
    assert ProfileSet(r.current, "a") == {A0} && ProfileSet(r.current, "b") == {};
    assert ProfileDone(r, slots, "a") && ProfileDone(r, slots, "b");
    assert |ProfileSet(slots, "a")| == 1 && |ProfileSet(slots, "b")| == 1 && A0 in slots;
    b :| b in ProfileSet(slots, "b");
    hide Keeps;
    forall c | c in slots ensures c == A0 || c == b {
      assert ProfileDone(r, slots, c.profile);
      assert c in ProfileSet(slots, c.profile);
      if c.profile == "a" { OnlyOne(ProfileSet(slots, "a"), c, A0); }
      if c.profile == "b" { OnlyOne(ProfileSet(slots, "b"), c, b); }
    }
  }

  lemma IdsOfTwo(cs: seq<Config>, a: Config, b: Config)
    requires forall c :: c in cs <==> c == a || c == b
    ensures Ids(cs) + {a.id} == {a.id, b.id} && |Ids(cs) + {a.id}| <= 2
  {
    assert a in cs && b in cs;
    assert Ids(cs) + {a.id} == {a.id} + {b.id};
  }

  lemma SortedApart(cs: seq<Config>, a: Config, b: Config)
    requires StrictlySorted(cs) && a in cs && b in cs && a != b
    ensures a.id != b.id
  {
  }

  lemma LeftBehindPlan(plan: Plan)
    requires MeetsSpec(LeftBehind(), plan)
    requires forall c :: c in plan.slots && c !in LeftBehind().current ==>
      c.id < |Ids(plan.slots) + Ids(LeftBehind().current)|
    ensures plan.slots == [A0, B1]
  {
    var b := LeftBehindMembers(plan);
    assert StrictlySorted(plan.slots) && StrictlySorted([A0, B1]);
    hide MeetsSpec, StrictlySorted;
    assert Ids([A0]) == {0};
    IdsOfTwo(plan.slots, A0, b);
    SortedApart(plan.slots, A0, b);
    assert b == B1;
    SortedUnique(plan.slots, [A0, B1]);
  }

  /** A push of two Slots of a reached this Worker but was never recorded. The plan for the recorded Slot
      gives ID 1 to b, and the Worker refuses it, after every run of its sandboxes and of such pushes. */
  lemma LeftBehindForever(w: Worker, ops: seq<Op>)
    requires Has(w.slots, [A0, A1])
    requires forall op :: op in ops && op.OpApply? ==> op.configs == PlanOf(LeftBehind(), ["a", "b"]).slots
    ensures PlanOf(LeftBehind(), ["a", "b"]).slots == [A0, B1] && !Accepts(Run(w, ops).slots, [A0, B1])
  {
    var r, names := LeftBehind(), ["a", "b"];
    hide PlanOf, IsProfileOrder, OrderCovers;
    LeftBehindOrder();
    PlanMeetsSpec(r, names, names);
    NewIdsAreSmall(r, names, names);
    LeftBehindPlan(PlanOf(r, names));
    hide MeetsSpec, Has;
    assert Crosses([A0, A1], [A0, B1]) by { assert A1 in [A0, A1] && B1 in [A0, B1]; }
    RetryAcceptedIff(w, [A0, A1], ops, [A0, B1]);
  }
}
