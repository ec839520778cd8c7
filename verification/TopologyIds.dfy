/** Which IDs a plan hands out: their size, and when an ID freed by one profile goes to another. */
module TopologyIds {
  import opened Base
  import opened Topology

  /** How many Slots a profile is short of. */
  function Missing(r: Request, p: string): nat
    requires r.CountsLegal()
  {
    if !r.UnknownWanted(p) && |ProfileSet(r.current, p)| < r.Desired(p) then r.Desired(p) - |ProfileSet(r.current, p)|
      else 0
  }

  function DemandOf(r: Request, names: seq<string>): nat
    requires r.CountsLegal()
  {
    if names == [] then 0 else DemandOf(r, names[..|names| - 1]) + Missing(r, names[|names| - 1])
  }

  /** IDs of the current Slots that the profiles in `names` give up. */
  function FreedBy(r: Request, names: seq<string>): set<SlotID> {
    set c | c in r.current && c.profile in names && !Keeps(r, c) :: c.id
  }

  /** IDs below `f` that the current layout leaves unused. */
  function HolesBelow(current: seq<Config>, f: SlotID): set<SlotID> {
    set h | 0 <= h < f && h !in Ids(current)
  }

  /** A caller can evaluate this before planning: some growing profile has its turn after a profile
      that gives up ID `f`, and the demand up to and including it exceeds the holes below `f`. */
  ghost predicate FreedIdReached(r: Request, names: seq<string>)
    requires r.CountsLegal()
  {
    Reached(r, names, |names|)
  }

  /** The same for the first `k` turns. */
  ghost predicate Reached(r: Request, names: seq<string>, k: nat)
    requires r.CountsLegal() && k <= |names|
  {
    exists j, f {:trigger Missing(r, names[j]), HolesBelow(r.current, f)} ::
      && 0 <= j < k && Missing(r, names[j]) > 0
      && f in FreedBy(r, names[..j]) && f >= 0
      && |HolesBelow(r.current, f)| < DemandOf(r, names[..j + 1])
  }

  /** An ID of the current layout appears in the plan with another configuration. */
  ghost predicate Crosses(current: seq<Config>, slots: seq<Config>) {
    exists a, b :: a in current && b in slots && a.id == b.id && a != b
  }

  // ---------------------------------------------------------------- one growing turn

  /** A set of unused IDs that is filled from the bottom. */
  ghost predicate FillsHoles(current: seq<Config>, taken: set<SlotID>) {
    && (forall a :: a in taken ==> a >= 0 && a !in Ids(current))
    && (forall a, h :: a in taken && 0 <= h < a && h !in Ids(current) ==> h in taken)
  }

  ghost predicate AllFreedAbove(current: seq<Config>, freed: set<SlotID>, demand: nat) {
    forall f :: f in freed && f >= 0 ==> |HolesBelow(current, f)| >= demand
  }

  /** The next ID when the demand so far has not reached any freed ID. */
  lemma NextIsHole(current: seq<Config>, freed: set<SlotID>, taken: set<SlotID>)
    requires FillsHoles(current, taken) && freed <= Ids(current)
    requires AllFreedAbove(current, freed, |taken| + 1)
    ensures var id := LeastFree((Ids(current) - freed) + taken);
      id !in Ids(current) && FillsHoles(current, taken + {id})
  {
    var id := LeastFree((Ids(current) - freed) + taken);
    if id in Ids(current) {
      assert id in freed;
      assert HolesBelow(current, id) <= taken;
      SubsetCardinality(HolesBelow(current, id), taken);
    }
  }

  /** The next ID when the holes below some freed ID are used up. */
  lemma NextIsFreed(current: seq<Config>, freed: set<SlotID>, taken: set<SlotID>, f: SlotID)
    requires FillsHoles(current, taken) && freed <= Ids(current)
    requires f in freed && f >= 0 && |HolesBelow(current, f)| <= |taken|
    ensures LeastFree((Ids(current) - freed) + taken) in Ids(current)
  {
    var id := LeastFree((Ids(current) - freed) + taken);
    assert f !in taken;
    assert id <= f;
    if id !in Ids(current) {
      assert id !in taken;
      assert taken <= HolesBelow(current, f) - {id};
      SubsetCardinality(taken, HolesBelow(current, f) - {id});
    }
  }

  /** The outcome of a growing turn of `n` Slots: it stays in the holes iff its demand reaches no freed ID. */
  ghost predicate TurnOutcome(current: seq<Config>, freed: set<SlotID>, taken: set<SlotID>, added: set<SlotID>,
                              n: nat) {
    if n == 0 || AllFreedAbove(current, freed, |taken| + n)
    then added !! Ids(current) && FillsHoles(current, taken + added) && |taken + added| == |taken| + n
    else !(added !! Ids(current))
  }

  lemma GrowingStep(current: seq<Config>, freed: set<SlotID>, taken: set<SlotID>, earlier: set<SlotID>, n: nat)
    requires freed <= Ids(current) && n > 0
    requires TurnOutcome(current, freed, taken, earlier, n - 1)
    ensures TurnOutcome(current, freed, taken, earlier + {LeastFree((Ids(current) - freed) + (taken + earlier))}, n)
  {
    hide Ids, HolesBelow, LeastFree;
    var taken' := taken + earlier;
    var id := LeastFree((Ids(current) - freed) + taken');
    if n == 1 || AllFreedAbove(current, freed, |taken| + n - 1) {
      if AllFreedAbove(current, freed, |taken| + n) {
        NextIsHole(current, freed, taken');
        assert id !in taken' by { LeastFreeUnused((Ids(current) - freed) + taken'); }
        assert taken + (earlier + {id}) == taken' + {id};
      } else {
        var f :| f in freed && f >= 0 && |HolesBelow(current, f)| < |taken| + n;
        NextIsFreed(current, freed, taken', f);
      }
    }
  }

  lemma LeastFreeUnused(used: set<SlotID>)
    ensures LeastFree(used) !in used
  {
  }

  lemma {:induction false} GrowingTurn(current: seq<Config>, freed: set<SlotID>, taken: set<SlotID>, p: string,
                                       res: Resources, n: nat)
    requires FillsHoles(current, taken) && freed <= Ids(current)
    ensures TurnOutcome(current, freed, taken, Ids(Fresh((Ids(current) - freed) + taken, p, res, n)), n)
    decreases n
  {
    hide FillsHoles, HolesBelow, LeastFree;
    var used := (Ids(current) - freed) + taken;
    if n == 0 {
      assert Ids(Fresh(used, p, res, 0)) == {};
      assert taken + {} == taken;
    } else {
      GrowingTurn(current, freed, taken, p, res, n - 1);
      var earlier := Fresh(used, p, res, n - 1);
      var c := Config(LeastFree(used + Ids(earlier)), p, res);
      assert Fresh(used, p, res, n) == earlier + [c];
      IdsConcat(earlier, [c]);
      assert Ids([c]) == {c.id};
      GrowingStep(current, freed, taken, Ids(earlier), n);
      assert used + Ids(earlier) == (Ids(current) - freed) + (taken + Ids(earlier));
    }
  }

  // ---------------------------------------------------------------- the whole plan

  /** IDs of the Slots of `next` that are not current Slots. */
  function Taken(r: Request, next: seq<Config>): set<SlotID> {
    set c | c in next && c !in r.current :: c.id
  }

  ghost predicate IdInv(r: Request, st: PlanState, names: seq<string>, k: nat)
    requires r.CountsLegal() && k <= |names|
  {
    var taken := Taken(r, st.next);
    if Reached(r, names, k) then !(taken !! Ids(r.current))
    else
      && taken !! Ids(r.current)
      && FillsHoles(r.current, taken) && |taken| == DemandOf(r, names[..k])
      && st.used == (Ids(r.current) - FreedBy(r, names[..k])) + taken
  }

  lemma ReachedStep(r: Request, names: seq<string>, k: nat)
    requires r.CountsLegal() && k < |names|
    ensures Reached(r, names, k + 1) <==> (
      || Reached(r, names, k)
      || (Missing(r, names[k]) > 0 && !AllFreedAbove(r.current, FreedBy(r, names[..k]), DemandOf(r, names[..k + 1]))))
  {
  }

  lemma PrefixStep(r: Request, names: seq<string>, k: nat)
    requires r.CountsLegal() && k < |names|
    ensures DemandOf(r, names[..k + 1]) == DemandOf(r, names[..k]) + Missing(r, names[k])
    ensures FreedBy(r, names[..k + 1]) == FreedBy(r, names[..k]) + FreedBy(r, [names[k]])
  {
    assert names[..k + 1][..k] == names[..k];
    assert forall p :: p in names[..k + 1] <==> p in names[..k] || p in [names[k]];
  }

  lemma TakenConcat(r: Request, a: seq<Config>, b: seq<Config>)
    ensures Taken(r, a + b) == Taken(r, a) + Taken(r, b)
  {
    assert forall c :: c in a + b <==> c in a || c in b;
  }

  /** What a turn does to the IDs, whatever its kind. */
  ghost predicate TurnIds(r: Request, st: PlanState, st': PlanState, p: string, part: seq<Config>, res: Resources)
    requires r.CountsLegal()
  {
    var n := Missing(r, p);
    && st'.next == st.next + part
    && Taken(r, part) == Ids(Fresh(st.used, p, res, n))
    && st'.used == (st.used - FreedBy(r, [p])) + Taken(r, part)
    && (n > 0 ==> FreedBy(r, [p]) == {})
  }

  lemma IdleStep(r: Request, st: PlanState, st': PlanState, names: seq<string>, k: nat, part: seq<Config>,
                 res: Resources)
    requires r.CountsLegal() && k < |names| && IdInv(r, st, names, k)
    requires TurnIds(r, st, st', names[k], part, res) && Missing(r, names[k]) == 0
    ensures IdInv(r, st', names, k + 1)
  {
    hide FillsHoles, AllFreedAbove, Missing, Fresh, Ids, FreedBy, Taken, DemandOf, Reached;
    var p := names[k];
    var c, f, g, taken := Ids(r.current), FreedBy(r, names[..k]), FreedBy(r, [p]), Taken(r, st.next);
    TakenConcat(r, st.next, part);
    ReachedStep(r, names, k);
    PrefixStep(r, names, k);
    FreedAreCurrent(r, [p]);
    NoFresh(st.used, p, res);
    assert Taken(r, st'.next) == taken;
    assert taken !! c ==> (c - f) + taken - g == (c - (f + g)) + taken;
  }

  lemma DemandStep(r: Request, st: PlanState, st': PlanState, names: seq<string>, k: nat, part: seq<Config>,
                   res: Resources)
    requires r.CountsLegal() && k < |names| && IdInv(r, st, names, k)
    requires TurnIds(r, st, st', names[k], part, res) && Missing(r, names[k]) > 0
    ensures IdInv(r, st', names, k + 1)
  {
    hide FillsHoles, AllFreedAbove, Missing, Fresh, Ids, FreedBy, Taken, DemandOf;
    var p := names[k];
    var taken, freed := Taken(r, st.next), FreedBy(r, names[..k]);
    TakenConcat(r, st.next, part);
    ReachedStep(r, names, k);
    PrefixStep(r, names, k);
    FreedAreCurrent(r, names[..k]);
    hide Reached;
    assert FreedBy(r, names[..k + 1]) == freed;
    if !Reached(r, names, k) {
      GrowingTurn(r.current, freed, taken, p, res, Missing(r, p));
      assert st'.used == (Ids(r.current) - freed) + (taken + Taken(r, part));
    }
  }

  lemma IdInvStep(r: Request, st: PlanState, st': PlanState, names: seq<string>, k: nat, part: seq<Config>,
                  res: Resources)
    requires r.CountsLegal() && k < |names| && IdInv(r, st, names, k)
    requires TurnIds(r, st, st', names[k], part, res)
    ensures IdInv(r, st', names, k + 1)
  {
    hide IdInv;
    if Missing(r, names[k]) == 0 {
      IdleStep(r, st, st', names, k, part, res);
    } else {
      DemandStep(r, st, st', names, k, part, res);
    }
  }

  lemma NoFresh(used: set<SlotID>, p: string, res: Resources)
    ensures Ids(Fresh(used, p, res, 0)) == {}
  {
  }

  lemma FreedAreCurrent(r: Request, names: seq<string>)
    ensures FreedBy(r, names) <= Ids(r.current)
  {
  }

  lemma UnknownTurnIds(r: Request, st: PlanState, p: string)
    requires DistinctIds(r.current) && r.CountsLegal() && r.UnknownWanted(p)
    requires GroupOf(st.groups, p) == Grouped(r.current, p)
    ensures TurnIds(r, st, PlanProfile(r, st, p), p, Grouped(r.current, p), NO_RESOURCES)
  {
    GroupedProperties(r.current, p);
    NoFresh(st.used, p, NO_RESOURCES);
    assert Taken(r, Grouped(r.current, p)) == {};
    assert FreedBy(r, [p]) == {};
  }

  lemma ShrinkTurnIds(r: Request, st: PlanState, p: string)
    requires DistinctIds(r.current) && r.CountsLegal() && !r.UnknownWanted(p)
    requires GroupOf(st.groups, p) == Grouped(r.current, p) && |Grouped(r.current, p)| > r.Desired(p)
    ensures TurnIds(r, st, PlanProfile(r, st, p), p, Kept(r, p), NO_RESOURCES)
  {
    hide SortById, BusyOf, OfProfile;
    var e, d := Grouped(r.current, p), r.Desired(p);
    GroupedProperties(r.current, p);
    KeptElements(r, p);
    CutIsRank(r.current, p, d);
    NoFresh(st.used, p, NO_RESOURCES);
    assert Taken(r, Kept(r, p)) == {};
    assert FreedBy(r, [p]) == FreeOf(e[d..], r.busy);
    assert Missing(r, p) == 0;
  }

  lemma NothingFreed(r: Request, p: string)
    requires DistinctIds(r.current) && r.CountsLegal() && !r.UnknownWanted(p)
    requires |Grouped(r.current, p)| <= r.Desired(p)
    ensures FreedBy(r, [p]) == {} && Missing(r, p) == r.Desired(p) - |Grouped(r.current, p)|
  {
    hide Grouped;
    GroupedProperties(r.current, p);
    RankInSmallGroup(r.current, p, r.Desired(p));
    if |Grouped(r.current, p)| == r.Desired(p) {
      CutIsRank(r.current, p, r.Desired(p));
      assert Grouped(r.current, p)[..r.Desired(p)] == Grouped(r.current, p);
    }
  }

  lemma TakenByGrowth(r: Request, p: string, used: set<SlotID>, added: seq<Config>)
    requires DistinctIds(r.current) && Ids(Grouped(r.current, p)) <= used
    requires forall c :: c in added ==> c.profile == p && c.id !in used
    ensures Taken(r, Grouped(r.current, p) + added) == Ids(added)
  {
    hide Grouped;
    var e := Grouped(r.current, p);
    GroupedProperties(r.current, p);
    TakenConcat(r, e, added);
    assert Taken(r, e) == {};
    forall c | c in r.current && c.profile == p ensures c.id in used { assert c in e; assert c.id in Ids(e); }
    forall c | c in added ensures c !in r.current {}
    assert Taken(r, added) == Ids(added);
  }

  lemma GrowTurnIds(r: Request, st: PlanState, p: string, e: seq<Config>, added: seq<Config>, res: Resources)
    requires DistinctIds(r.current) && r.CountsLegal() && !r.UnknownWanted(p)
    requires e == GroupOf(st.groups, p) == Grouped(r.current, p) && |e| <= r.Desired(p)
    requires Ids(Grouped(r.current, p)) <= st.used
    requires res == if p in r.profiles then r.profiles[p] else NO_RESOURCES
    requires added == Fresh(st.used, p, res, r.Desired(p) - |e|)
    ensures TurnIds(r, st, PlanProfile(r, st, p), p, e + added, res)
  {
    hide Grouped, Fresh, Ids, Missing, PlanProfile, Taken, FreedBy, DistinctIds;
    FreshProperties(st.used, p, res, r.Desired(p) - |e|);
    NothingFreed(r, p);
    TakenByGrowth(r, p, st.used, added);
    GrowResult(r, st, p, e, added);
  }

  lemma PlanTurnIds(r: Request, st: PlanState, done: set<string>, names: seq<string>, k: nat)
    requires DistinctIds(r.current) && r.CountsLegal() && k < |names|
    requires PlanInv(r, st, done, names[k..]) && IdInv(r, st, names, k)
    ensures IdInv(r, PlanProfile(r, st, names[k]), names, k + 1)
  {
    hide IdInv, TurnIds, PlanProfile, ProfileDone, BlockedAt;
    var p := names[k];
    assert p == names[k..][0] && p in names[k..];
    PendingSplit(r, names[k..]);
    hide PlanInv;
    if r.UnknownWanted(p) {
      UnknownTurnIds(r, st, p);
      IdInvStep(r, st, PlanProfile(r, st, p), names, k, Grouped(r.current, p), NO_RESOURCES);
    } else if |Grouped(r.current, p)| > r.Desired(p) {
      ShrinkTurnIds(r, st, p);
      IdInvStep(r, st, PlanProfile(r, st, p), names, k, Kept(r, p), NO_RESOURCES);
    } else {
      var e := Grouped(r.current, p);
      var res := if p in r.profiles then r.profiles[p] else NO_RESOURCES;
      var added := Fresh(st.used, p, res, r.Desired(p) - |e|);
      GrowTurnIds(r, st, p, e, added, res);
      IdInvStep(r, st, PlanProfile(r, st, p), names, k, e + added, res);
    }
  }

  lemma {:induction false} FoldIds(r: Request, st: PlanState, done: set<string>, names: seq<string>, k: nat)
    requires DistinctIds(r.current) && r.CountsLegal() && k <= |names|
    requires PlanInv(r, st, done, names[k..]) && IdInv(r, st, names, k)
    ensures IdInv(r, PlanFold(r, st, names[k..]), names, |names|)
    decreases |names| - k
  {
    hide PlanInv, IdInv;
    if k < |names| {
      PlanTurnIds(r, st, done, names, k);
      TurnStep(r, st, done, names[k..]);
      assert names[k..][1..] == names[k + 1..] && names[k..][0] == names[k];
      FoldIds(r, PlanProfile(r, st, names[k]), done + {names[k]}, names, k + 1);
    }
  }

  /** A plan reuses an ID of the current layout for another profile iff the demand of some growing
      profile reaches an ID freed before its turn. */
  lemma CrossesIffFreedIdReached(r: Request, order: seq<string>, names: seq<string>)
    requires DistinctIds(r.current) && r.CountsLegal()
    requires IsProfileOrder(names, order, r.counts, Present(r.current)) && OrderCovers(order, r.counts)
    ensures Crosses(r.current, PlanOf(r, names).slots) <==> FreedIdReached(r, names)
  {
    hide PlanInv, IsProfileOrder, Reached, SortById, FillsHoles;
    FoldResult(r, order, names);
    var init := InitialState(r.current);
    assert names[0..] == names;
    assert IdInv(r, init, names, 0) by {
      assert Taken(r, init.next) == {} && FillsHoles(r.current, {}) && FreedBy(r, names[..0]) == {} &&
        !Reached(r, names, 0) by {
        NothingReached(r, names);
      }
      assert (Ids(r.current) - {}) + {} == Ids(r.current);
    }
    FoldIds(r, init, {}, names, 0);
    var next := PlanFold(r, init, names).next;
    SortByIdElements(next);
    TakenIsCrossing(r, next, SortById(next));
  }

  lemma NothingReached(r: Request, names: seq<string>)
    requires r.CountsLegal()
    ensures !Reached(r, names, 0) && FillsHoles(r.current, {}) && FreedBy(r, names[..0]) == {}
  {
  }

  lemma TakenIsCrossing(r: Request, next: seq<Config>, slots: seq<Config>)
    requires DistinctIds(r.current) && forall c :: c in slots <==> c in next
    ensures Crosses(r.current, slots) <==> !(Taken(r, next) !! Ids(r.current))
  {
    if !(Taken(r, next) !! Ids(r.current)) {
      var id :| id in Taken(r, next) && id in Ids(r.current);
      var b :| b in next && b !in r.current && b.id == id;
      var a :| a in r.current && a.id == id;
      assert a in r.current && b in slots && a.id == b.id && a != b;
    }
    if Crosses(r.current, slots) {
      var a, b :| a in r.current && b in slots && a.id == b.id && a != b;
      assert b !in r.current;
      assert b.id in Taken(r, next) && b.id in Ids(r.current);
    }
  }

  /** In particular a plan in which no profile shrinks, or none grows, reuses nothing. */
  lemma OneDirectionNeverCrosses(r: Request, names: seq<string>)
    requires r.CountsLegal()
    requires (forall c :: c in r.current ==> Keeps(r, c)) || (forall p :: p in names ==> Missing(r, p) == 0)
    ensures !FreedIdReached(r, names)
  {
    forall j | 0 <= j < |names| ensures FreedBy(r, names[..j]) == {} || Missing(r, names[j]) == 0 {}
  }

  /** Profile a gives up ID 1 and profile b, growing after it, gets it. */
  function FreedIdExample(small: Resources, large: Resources): Request {
    Request([Config(0, "a", small), Config(1, "a", small)], map["a" := 1, "b" := 1], map["a" := small, "b" := large],
      {})
  }

  lemma FreedIdReachedInExample(small: Resources, large: Resources)
    ensures FreedIdReached(FreedIdExample(small, large), ["a", "b"])
  {
    var r := FreedIdExample(small, large);
    var c0, c1 := r.current[0], r.current[1];
    var names := ["a", "b"];
    assert c0 in r.current && c1 in r.current;
    assert Lower(r.current, c1) == {c0} && Lower(r.current, c0) == {};
    assert ProfileSet(r.current, "b") == {};
    assert c1.id in FreedBy(r, names[..1]) by { assert names[..1] == ["a"]; }
    assert 0 in Ids(r.current);
    assert HolesBelow(r.current, 1) == {};
    assert Missing(r, names[1]) == 1;
    PrefixStep(r, names, 1);
    assert |HolesBelow(r.current, 1)| < DemandOf(r, names[..2]);
  }

  // ---------------------------------------------------------------- the size of new IDs

  ghost predicate IdsSmall(r: Request, st: PlanState) {
    forall x :: x in Taken(r, st.next) ==> 0 <= x < |Ids(st.next) + Ids(r.current)|
  }

  lemma SmallStep(r: Request, st: PlanState, st': PlanState, p: string, part: seq<Config>, res: Resources)
    requires r.CountsLegal() && TurnIds(r, st, st', p, part, res) && IdsSmall(r, st)
    requires st.used <= Ids(st.next) + Ids(r.current)
    ensures IdsSmall(r, st')
  {
    hide Missing, FreedBy, Fresh, Ids, Taken;
    var n := Missing(r, p);
    var added := Ids(Fresh(st.used, p, res, n));
    var before, all := Ids(st.next) + Ids(r.current), Ids(st'.next) + Ids(r.current);
    FreshCount(st.used, p, res, n);
    TakenConcat(r, st.next, part);
    IdsConcat(st.next, part);
    TakenAreIds(r, part);
    SubsetCardinality(st.used + added, all);
    SubsetCardinality(before, all);
    assert Taken(r, st'.next) == Taken(r, st.next) + added;
    hide TurnIds;
    forall x | x in Taken(r, st'.next) ensures 0 <= x < |all| {}
  }

  lemma TakenAreIds(r: Request, next: seq<Config>)
    ensures Taken(r, next) <= Ids(next)
  {
  }

  lemma FreshCount(used: set<SlotID>, p: string, res: Resources, n: nat)
    ensures var added := Ids(Fresh(used, p, res, n));
      |used + added| == |used| + n && forall x :: x in added ==> 0 <= x < |used| + n
  {
    var added := Fresh(used, p, res, n);
    FreshProperties(used, p, res, n);
    DistinctIdsCount(added);
    hide Fresh;
    assert used !! Ids(added);
  }

  lemma {:induction false} DistinctIdsCount(cs: seq<Config>)
    requires DistinctIds(cs)
    ensures |Ids(cs)| == |cs|
  {
    hide DistinctIds;
    if cs != [] {
      var front, last := cs[..|cs| - 1], cs[|cs| - 1];
      DistinctFront(cs);
      DistinctIdsCount(front);
      IdsSnoc(front, last);
      assert cs == front + [last];
      hide Ids;
    }
  }

  lemma IdsSnoc(cs: seq<Config>, c: Config)
    ensures Ids(cs + [c]) == Ids(cs) + {c.id}
  {
    assert forall x :: x in cs + [c] <==> x in cs || x == c;
  }

  lemma SmallTurn(r: Request, st: PlanState, done: set<string>, todo: seq<string>)
    requires DistinctIds(r.current) && r.CountsLegal() && todo != []
    requires PlanInv(r, st, done, todo) && IdsSmall(r, st)
    ensures IdsSmall(r, PlanProfile(r, st, todo[0]))
  {
    hide IdsSmall, TurnIds, PlanProfile, ProfileDone, BlockedAt;
    var p := todo[0];
    assert p in todo;
    PendingSplit(r, todo);
    assert st.used <= Ids(st.next) + Ids(r.current);
    hide PlanInv;
    var e := Grouped(r.current, p);
    if r.UnknownWanted(p) {
      UnknownTurnIds(r, st, p);
      SmallStep(r, st, PlanProfile(r, st, p), p, e, NO_RESOURCES);
    } else if |e| > r.Desired(p) {
      ShrinkTurnIds(r, st, p);
      SmallStep(r, st, PlanProfile(r, st, p), p, Kept(r, p), NO_RESOURCES);
    } else {
      var res := if p in r.profiles then r.profiles[p] else NO_RESOURCES;
      var added := Fresh(st.used, p, res, r.Desired(p) - |e|);
      GrowTurnIds(r, st, p, e, added, res);
      SmallStep(r, st, PlanProfile(r, st, p), p, e + added, res);
    }
  }

  lemma {:induction false} SmallFold(r: Request, st: PlanState, done: set<string>, todo: seq<string>)
    requires DistinctIds(r.current) && r.CountsLegal() && PlanInv(r, st, done, todo) && IdsSmall(r, st)
    ensures IdsSmall(r, PlanFold(r, st, todo))
    decreases |todo|
  {
    hide PlanInv, IdsSmall;
    if todo != [] {
      SmallTurn(r, st, done, todo);
      TurnStep(r, st, done, todo);
      SmallFold(r, PlanProfile(r, st, todo[0]), done + {todo[0]}, todo[1..]);
    }
  }

  /** A new ID is smaller than the number of IDs in the two layouts together, so the int32 counter
      of the source cannot overflow while that number fits. */
  lemma NewIdsAreSmall(r: Request, order: seq<string>, names: seq<string>)
    requires DistinctIds(r.current) && r.CountsLegal()
    requires IsProfileOrder(names, order, r.counts, Present(r.current)) && OrderCovers(order, r.counts)
    ensures var slots := PlanOf(r, names).slots;
      && (forall c :: c in slots && c !in r.current ==> 0 <= c.id < |Ids(slots) + Ids(r.current)|)
      && ((forall c :: c in r.current ==> FitsInt32(c.id)) && |slots| + |r.current| <= 0x8000_0000
          ==> forall c :: c in slots ==> FitsInt32(c.id))
  {
    hide PlanInv, IsProfileOrder, SortById;
    FoldResult(r, order, names);
    SmallFold(r, InitialState(r.current), {}, names);
    var next := PlanFold(r, InitialState(r.current), names).next;
    var slots := SortById(next);
    SortByIdElements(next);
    assert Ids(slots) == Ids(next);
    forall c | c in slots && c !in r.current ensures 0 <= c.id < |Ids(slots) + Ids(r.current)| {
      assert c.id in Taken(r, next);
    }
    IdsCardinality(slots);
    IdsCardinality(r.current);
    UnionCardinality(Ids(slots), Ids(r.current));
  }
}
