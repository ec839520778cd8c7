/** PlanTopology composed with the all-or-nothing ApplySlots of the Workers it is pushed to. */
module TopologyApply {
  import opened Base
  import opened Topology
  import opened TopologyIds
  import opened WorkerSlots

  /** The Worker holds exactly the current layout, and whatever is not Free there is known to be busy. */
  ghost predicate Holds(slots: map<SlotID, Slot>, r: Request) {
    && slots.Keys == Ids(r.current)
    && (forall c :: c in r.current ==> SameShape(slots[c.id], c))
    && (forall id :: id in slots && slots[id].state != Free ==> id in r.busy)
  }

  /** A new Slot never has the profile of the current Slot whose ID it takes over. */
  lemma TakeoverChangesProfile(r: Request, plan: Plan, a: Config, b: Config)
    requires DistinctIds(r.current) && r.CountsLegal() && MeetsSpec(r, plan)
    requires a in r.current && b in plan.slots && a.id == b.id && a != b
    ensures a.profile != b.profile
  {
    assert b !in r.current;
    assert ProfileDone(r, plan.slots, b.profile);
    if a.profile == b.profile {
      RankInSmallGroup(r.current, a.profile, r.Desired(a.profile));
    }
  }

  lemma BusySurvive(r: Request, plan: Plan, c: Config)
    requires MeetsSpec(r, plan) && c in r.current && c.id in r.busy
    ensures c in plan.slots
  {
    assert ProfileDone(r, plan.slots, c.profile);
  }

  lemma AcceptsIffNotCrossing(r: Request, plan: Plan, slots: map<SlotID, Slot>)
    requires DistinctIds(r.current) && r.CountsLegal() && MeetsSpec(r, plan) && Holds(slots, r)
    ensures Accepts(slots, plan.slots) <==> !Crosses(r.current, plan.slots)
  {
    assert DistinctIds(plan.slots);
    forall id | id in slots && id !in Ids(plan.slots) ensures slots[id].state == Free {
      var c :| c in r.current && c.id == id;
      if id in r.busy { BusySurvive(r, plan, c); }
    }
    if Crosses(r.current, plan.slots) {
      var a, b :| a in r.current && b in plan.slots && a.id == b.id && a != b;
      TakeoverChangesProfile(r, plan, a, b);
      assert SameShape(slots[a.id], a) && !SameShape(slots[b.id], b);
    } else {
      forall c | c in plan.slots && c.id in slots ensures SameShape(slots[c.id], c) {
        var a :| a in r.current && a.id == c.id;
        assert a == c;
      }
    }
  }

  /** A Worker accepts a plan iff no growing profile reaches an ID freed before its turn. */
  lemma AcceptsIffNoFreedIdReached(r: Request, order: seq<string>, names: seq<string>, slots: map<SlotID, Slot>)
    requires DistinctIds(r.current) && r.CountsLegal() && Holds(slots, r)
    requires IsProfileOrder(names, order, r.counts, Present(r.current)) && OrderCovers(order, r.counts)
    ensures Accepts(slots, PlanOf(r, names).slots) <==> !FreedIdReached(r, names)
  {
    PlanMeetsSpec(r, order, names);
    AcceptsIffNotCrossing(r, PlanOf(r, names), slots);
    CrossesIffFreedIdReached(r, order, names);
  }

  /** A plan that only shrinks or only grows is always accepted. */
  lemma OneDirectionAccepted(r: Request, order: seq<string>, names: seq<string>, slots: map<SlotID, Slot>)
    requires DistinctIds(r.current) && r.CountsLegal() && Holds(slots, r)
    requires IsProfileOrder(names, order, r.counts, Present(r.current)) && OrderCovers(order, r.counts)
    requires (forall c :: c in r.current ==> Keeps(r, c)) || (forall p :: p in names ==> Missing(r, p) == 0)
    ensures Accepts(slots, PlanOf(r, names).slots)
  {
    OneDirectionNeverCrosses(r, names);
    AcceptsIffNoFreedIdReached(r, order, names, slots);
  }
}
