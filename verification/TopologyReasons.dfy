/** Why a plan is blocked (internal/topology/config.go): exactly which profiles and Slots it reports, and in
    which order. */
module TopologyReasons {
  import opened Base
  import opened GoStrings
  import opened Topology

  /** A profile that is wanted but not defined, or a busy Slot above the number of Slots its profile keeps. */
  ghost predicate Holds(r: Request, x: Reason) {
    match x
    case UnknownProfile(p) => r.UnknownWanted(p)
    case BusySlot(id, p) =>
      && !r.UnknownWanted(p)
      && exists c ::
           c in r.current && c.id == id && c.profile == p && id in r.busy && Rank(r.current, c) >= r.Desired(p)
  }

  /** Reasons come profile by profile, and Slots of one profile by ID. */
  ghost predicate InOrder(names: seq<string>, a: Reason, b: Reason) {
    if a.profile == b.profile then a.BusySlot? && b.BusySlot? && a.id < b.id
    else exists i, j :: 0 <= i < j < |names| && names[i] == a.profile && names[j] == b.profile
  }

  ghost predicate ReasonsFor(r: Request, names: seq<string>, reasons: seq<Reason>) {
    && (forall x :: x in reasons <==> x.profile in names && Holds(r, x))
    && (forall i, j :: 0 <= i < j < |reasons| ==> InOrder(names, reasons[i], reasons[j]))
  }

  /** What the turn of one profile adds. */
  function Own(r: Request, p: string): seq<Reason>
    requires r.CountsLegal()
  {
    if r.UnknownWanted(p) then [UnknownProfile(p)]
    else if |Grouped(r.current, p)| > r.Desired(p) then
      BusyReasons(BusyOf(Grouped(r.current, p)[r.Desired(p)..], r.busy))
    else []
  }

  lemma TurnAdds(r: Request, st: PlanState, p: string)
    requires r.CountsLegal() && GroupOf(st.groups, p) == Grouped(r.current, p)
    ensures PlanProfile(r, st, p).reasons == st.reasons + Own(r, p)
    ensures forall q :: q != p ==> GroupOf(PlanProfile(r, st, p).groups, q) == GroupOf(st.groups, q)
  {
    hide Grouped, BusyOf, BusyReasons, SortById, Fresh, Ids, FreeOf;
  }

  lemma BusyReasonsElements(above: seq<Config>, p: string)
    requires StrictlySorted(above) && forall c :: c in above ==> c.profile == p
    ensures forall x :: x in BusyReasons(above) <==>
      x.BusySlot? && x.profile == p && exists c :: c in above && c.id == x.id
    ensures forall i, j :: 0 <= i < j < |BusyReasons(above)| ==>
      InOrder([], BusyReasons(above)[i], BusyReasons(above)[j])
  {
    var reasons := BusyReasons(above);
    forall c | c in above ensures BusySlot(c.id, p) in reasons {
      var i :| 0 <= i < |above| && above[i] == c;
      assert reasons[i] == BusySlot(c.id, p);
    }
    forall x | x in reasons ensures x.BusySlot? && x.profile == p && exists c :: c in above && c.id == x.id {
      var i :| 0 <= i < |reasons| && reasons[i] == x;
      assert above[i] in above;
    }
    forall i, j | 0 <= i < j < |reasons| ensures InOrder([], reasons[i], reasons[j]) {
      assert above[i] in above && above[j] in above;
    }
  }

  lemma OwnReasons(r: Request, p: string)
    requires DistinctIds(r.current) && r.CountsLegal()
    ensures forall x :: x in Own(r, p) <==> x.profile == p && Holds(r, x)
    ensures forall i, j :: 0 <= i < j < |Own(r, p)| ==> InOrder([], Own(r, p)[i], Own(r, p)[j])
  {
    hide Grouped, BusyOf, BusyReasons, Rank, StrictlySorted, DistinctIds, InOrder;
    if !r.UnknownWanted(p) {
      if |Grouped(r.current, p)| > r.Desired(p) {
        ReasonsAbove(r, p);
      } else {
        NothingAbove(r, p);
      }
    }
  }

  lemma ReasonsAbove(r: Request, p: string)
    requires DistinctIds(r.current) && r.CountsLegal() && |Grouped(r.current, p)| > r.Desired(p)
    ensures var reasons := BusyReasons(BusyOf(Grouped(r.current, p)[r.Desired(p)..], r.busy));
      && (forall x :: x in reasons <==> x.BusySlot? && x.profile == p && exists c ::
            c in r.current && c.id == x.id && c.profile == p && x.id in r.busy && Rank(r.current, c) >= r.Desired(p))
      && (forall i, j :: 0 <= i < j < |reasons| ==> InOrder([], reasons[i], reasons[j]))
  {
    GroupedProperties(r.current, p);
    KeptElements(r, p);
    hide Grouped, BusyOf, BusyReasons, Rank, DistinctIds, InOrder;
    var high := Grouped(r.current, p)[r.Desired(p)..];
    assert StrictlySorted(high);
    BusyOfElements(high, r.busy);
    BusyReasonsElements(BusyOf(high, r.busy), p);
  }

  /** No Slot of a profile that has no more than wanted is above the cut. */
  lemma NothingAbove(r: Request, p: string)
    requires DistinctIds(r.current) && r.CountsLegal() && |Grouped(r.current, p)| <= r.Desired(p)
    ensures forall c :: c in r.current && c.profile == p ==> Rank(r.current, c) < r.Desired(p)
  {
    GroupedProperties(r.current, p);
    forall c | c in r.current && c.profile == p ensures Rank(r.current, c) < r.Desired(p) {
      var e := Grouped(r.current, p);
      var i :| 0 <= i < |e| && e[i] == c;
      RankIsPosition(r.current, p, i);
    }
  }

  lemma ReasonsGrow(r: Request, names: seq<string>, p: string, reasons: seq<Reason>)
    requires DistinctIds(r.current) && r.CountsLegal() && ReasonsFor(r, names, reasons) && p !in names
    ensures ReasonsFor(r, names + [p], reasons + Own(r, p))
  {
    OwnReasons(r, p);
    hide Own, Holds;
    var names', reasons' := names + [p], reasons + Own(r, p);
    forall i, j | 0 <= i < j < |reasons'| ensures InOrder(names', reasons'[i], reasons'[j]) {
      var a, b := reasons'[i], reasons'[j];
      if j < |reasons| {
        assert InOrder(names, a, b);
        if a.profile != b.profile {
          var x, y :| 0 <= x < y < |names| && names[x] == a.profile && names[y] == b.profile;
          assert names'[x] == a.profile && names'[y] == b.profile;
        }
      } else if i >= |reasons| {
        assert a == Own(r, p)[i - |reasons|] && b == Own(r, p)[j - |reasons|];
        assert InOrder([], a, b) && a in Own(r, p) && b in Own(r, p);
      } else {
        assert a in reasons && b in Own(r, p);
        var x :| 0 <= x < |names| && names[x] == a.profile;
        assert names'[x] == a.profile && names'[|names|] == b.profile;
      }
    }
  }

  lemma {:induction false} FoldReasons(r: Request, st: PlanState, done: seq<string>, todo: seq<string>)
    requires DistinctIds(r.current) && r.CountsLegal() && NoRepeats(done + todo) && ReasonsFor(r, done, st.reasons)
    requires forall p :: p in todo ==> GroupOf(st.groups, p) == Grouped(r.current, p)
    ensures ReasonsFor(r, done + todo, PlanFold(r, st, todo).reasons)
    decreases |todo|
  {
    hide ReasonsFor, Grouped, Own, PlanProfile;
    if todo == [] {
      assert done + todo == done;
    } else {
      var p := todo[0];
      assert (done + todo)[|done|] == p;
      forall i | 0 <= i < |done| ensures done[i] != p {
        assert (done + todo)[i] == done[i];
      }
      TurnAdds(r, st, p);
      ReasonsGrow(r, done, p, st.reasons);
      assert done + [p] + todo[1..] == done + todo;
      forall q | q in todo[1..] ensures q in todo && q != p {
        var i :| 0 <= i < |todo[1..]| && todo[1..][i] == q;
        assert (done + todo)[|done| + 1 + i] == q;
      }
      FoldReasons(r, PlanProfile(r, st, p), done + [p], todo[1..]);
    }
  }

  /** The reasons of a plan are exactly those that hold of the request, each once, profile by profile in the
      order of the turns and Slot by Slot within a profile. */
  lemma PlanReasons(r: Request, order: seq<string>, names: seq<string>)
    requires DistinctIds(r.current) && r.CountsLegal()
    requires IsProfileOrder(names, order, r.counts, Present(r.current)) && OrderCovers(order, r.counts)
    ensures var reasons := PlanOf(r, names).reasons;
      && (forall x :: x in reasons <==> Holds(r, x))
      && (forall i, j :: 0 <= i < j < |reasons| ==> InOrder(names, reasons[i], reasons[j]))
  {
    hide PlanInv, IsProfileOrder, InitialState, InOrder, Holds, Grouped;
    CoveringOrder(names, order, r.counts, Present(r.current));
    StartWithout(r, names);
    assert [] + names == names;
    FoldReasons(r, InitialState(r.current), [], names);
    forall x | Holds(r, x) ensures x.profile in names {
      HoldsOfNamed(r, x);
    }
  }

  lemma StartWithout(r: Request, names: seq<string>)
    requires DistinctIds(r.current) && r.CountsLegal()
    requires NoRepeats(names) && Present(r.current) <= set p | p in names
    ensures ReasonsFor(r, [], InitialState(r.current).reasons)
    ensures forall p :: p in names ==> GroupOf(InitialState(r.current).groups, p) == Grouped(r.current, p)
  {
    InitialInvariant(r, names);
    hide Grouped, DistinctIds;
  }

  lemma HoldsOfNamed(r: Request, x: Reason)
    requires r.CountsLegal() && Holds(r, x)
    ensures x.profile in Present(r.current) + r.counts.Keys
  {
  }
}
