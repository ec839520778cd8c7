/** internal/slot/config.go as written: loops over maps, a counter behind a pointer, a filter in place. */
module Planner {
  import opened Base
  import opened GoStrings
  import opened Topology

  /** First hole from 0 up to maxID, else a new maximum. maxID never shrinks, even when `used` does. */
  method NextFreeID(used: set<SlotID>, maxID: int) returns (id: SlotID, maxID': int)
    requires -1 <= maxID && forall x :: x in used ==> x <= maxID
    ensures id == LeastFree(used)
    ensures maxID' == if id <= maxID then maxID else id
    ensures id <= |used|
  {
    LeastFreeBound(used);
    id := 0;
    while id <= maxID
      invariant 0 <= id <= maxID + 1
      invariant forall i :: 0 <= i < id ==> i in used
    {
      if id !in used {
        return id, maxID;
      }
      id := id + 1;
    }
    assert maxID + 1 !in used;
    return maxID + 1, maxID + 1;
  }

  method GroupByProfile(current: seq<Config>) returns (groups: map<string, seq<Config>>)
    ensures groups == GroupsOf(current)
  {
    var unsorted := CollectGroups(current);
    groups := SortGroups(unsorted);
  }

  method CollectGroups(current: seq<Config>) returns (groups: map<string, seq<Config>>)
    ensures groups.Keys == Present(current)
    ensures forall p :: GroupOf(groups, p) == OfProfile(current, p)
  {
    groups := map[];
    for i := 0 to |current|
      invariant groups.Keys == Present(current[..i])
      invariant forall p :: GroupOf(groups, p) == OfProfile(current[..i], p)
    {
      var cfg := current[i];
      OfProfileSnoc(current, i);
      ghost var before := groups;
      groups := groups[cfg.profile := GroupOf(groups, cfg.profile) + [cfg]];
      forall p ensures GroupOf(groups, p) == OfProfile(current[..i + 1], p) {
        assert p != cfg.profile ==> GroupOf(groups, p) == GroupOf(before, p);
      }
    }
    assert current[..|current|] == current;
  }

  lemma OfProfileSnoc(current: seq<Config>, i: nat)
    requires i < |current|
    ensures Present(current[..i + 1]) == Present(current[..i]) + {current[i].profile}
    ensures forall p :: (OfProfile(current[..i + 1], p) ==
      if current[i].profile == p then OfProfile(current[..i], p) + [current[i]] else OfProfile(current[..i], p))
  {
    assert current[..i + 1] == current[..i] + [current[i]] && current[..i + 1][..i] == current[..i];
  }

  method SortGroups(groups: map<string, seq<Config>>) returns (sorted: map<string, seq<Config>>)
    ensures sorted == map p | p in groups :: SortById(groups[p])
  {
    sorted := groups;
    var todo := groups.Keys;
    while todo != {}
      invariant todo <= groups.Keys == sorted.Keys
      invariant forall p :: p in groups ==> sorted[p] == if p in todo then groups[p] else SortById(groups[p])
      decreases |todo|
    {
      var p := Pick(todo);
      sorted := sorted[p := SortById(sorted[p])];
      todo := todo - {p};
    }
  }

  lemma OrderOfParts(names: seq<string>, order: seq<string>, counts: Counts, present: set<string>, seen: set<string>,
                     extras: seq<string>)
    requires names == Dedup(order) + extras && SortedStrings(extras) && seen == set p | p in order
    requires multiset(extras) == multiset(counts.Keys - seen) + multiset(present - seen)
    ensures IsProfileOrder(names, order, counts, present)
  {
    hide SortedStrings, Dedup;
    assert counts.Keys - seen == set p | p in counts && p !in order;
    assert present - seen == set p | p in present && p !in order;
  }

  method OrderedProfiles(order: seq<string>, counts: Counts, present: set<string>) returns (names: seq<string>)
    ensures IsProfileOrder(names, order, counts, present)
  {
    var seen: set<string> := {};
    names := [];
    for i := 0 to |order|
      invariant seen == set p | p in order[..i]
      invariant names == Dedup(order[..i])
    {
      assert order[..i + 1][..i] == order[..i] && order[..i + 1] == order[..i] + [order[i]];
      if order[i] !in seen {
        seen := seen + {order[i]};
        names := names + [order[i]];
      }
    }
    assert order[..|order|] == order;
    var extras: seq<string> := [];
    extras := AppendUnseen(extras, counts.Keys, seen);
    extras := AppendUnseen(extras, present, seen);
    ghost var unsorted := extras;
    extras := SortStrings(extras);
    SortStringsSorted(unsorted);
    names := names + extras;
    OrderOfParts(names, order, counts, present, seen, extras);
  }

  /** Ranging over a map's keys: every key once, in no particular order. */
  method AppendUnseen(extras: seq<string>, keys: set<string>, seen: set<string>) returns (out: seq<string>)
    ensures multiset(out) == multiset(extras) + multiset(keys - seen)
  {
    out := extras;
    var todo := keys;
    while todo != {}
      invariant todo <= keys
      invariant multiset(out) == multiset(extras) + multiset((keys - todo) - seen)
      decreases |todo|
    {
      var p := Pick(todo);
      if p !in seen {
        assert (keys - (todo - {p})) - seen == ((keys - todo) - seen) + {p};
        out := out + [p];
      } else {
        assert (keys - (todo - {p})) - seen == (keys - todo) - seen;
      }
      todo := todo - {p};
    }
    assert (keys - todo) - seen == keys - seen;
  }

  /** What the filter has done once it has read existing[desired..j] and written up to `kept`. */
  ghost predicate Filtered(was: seq<Config>, now: seq<Config>, desired: nat, j: nat, kept: nat, busy: set<SlotID>,
                           used: set<SlotID>, used': set<SlotID>, reasons: seq<Reason>, reasons': seq<Reason>)
    requires desired <= j <= |was|
  {
    && desired <= kept <= j
    && |now| == |was|
    && now[..kept] == was[..desired] + BusyOf(was[desired..j], busy)
    && now[kept..] == was[kept..]
    && used' == used - FreeOf(was[desired..j], busy)
    && reasons' == reasons + BusyReasons(BusyOf(was[desired..j], busy))
  }

  /** keep := existing[:desired], then append the busy ones of existing[desired:] to it. The append
      writes into the array that is being read, always behind the reader. */
  method FilterAboveCut(existing: array<Config>, desired: nat, busy: set<SlotID>, used: set<SlotID>,
                        reasons: seq<Reason>)
    returns (kept: nat, used': set<SlotID>, reasons': seq<Reason>)
    requires desired <= existing.Length
    modifies existing
    ensures Filtered(old(existing[..]), existing[..], desired, existing.Length, kept, busy, used, used', reasons,
      reasons')
  {
    ghost var was := existing[..];
    kept, used', reasons' := desired, used, reasons;
    FilterStart(was, desired, busy, used, reasons);
    hide Filtered;
    for j := desired to existing.Length
      invariant desired <= kept <= j
      invariant Filtered(was, existing[..], desired, j, kept, busy, used, used', reasons, reasons')
    {
      ghost var now := existing[..];
      var cfg := existing[j];
      FilterStep(was, now, desired, j, kept, busy, used, used', reasons, reasons');
      if cfg.id in busy {
        reasons' := reasons' + [BusySlot(cfg.id, cfg.profile)];
        existing[kept] := cfg;
        assert existing[..] == now[kept := cfg];
        kept := kept + 1;
      } else {
        used' := used' - {cfg.id};
      }
    }
  }

  lemma FilterStart(was: seq<Config>, desired: nat, busy: set<SlotID>, used: set<SlotID>, reasons: seq<Reason>)
    requires desired <= |was|
    ensures Filtered(was, was, desired, desired, desired, busy, used, used, reasons, reasons)
  {
    assert was[desired..desired] == [];
  }

  lemma FilterSnoc(was: seq<Config>, desired: nat, j: nat, busy: set<SlotID>)
    requires desired <= j < |was|
    ensures var c := was[j]; var cs := was[desired..j]; var cs' := was[desired..j + 1];
      && BusyOf(cs', busy) == (if c.id in busy then BusyOf(cs, busy) + [c] else BusyOf(cs, busy))
      && FreeOf(cs', busy) == (if c.id in busy then FreeOf(cs, busy) else FreeOf(cs, busy) + {c.id})
  {
    var c, cs := was[j], was[desired..j];
    assert was[desired..j + 1] == cs + [c] && (cs + [c])[..|cs|] == cs;
    assert forall x :: x in cs + [c] <==> x in cs || x == c;
  }

  lemma ReasonsSnoc(above: seq<Config>, c: Config)
    ensures BusyReasons(above + [c]) == BusyReasons(above) + [BusySlot(c.id, c.profile)]
  {
  }

  lemma FilterStep(was: seq<Config>, now: seq<Config>, desired: nat, j: nat, kept: nat, busy: set<SlotID>,
                   used: set<SlotID>, used': set<SlotID>, reasons: seq<Reason>, reasons': seq<Reason>)
    requires desired <= j < |was| && Filtered(was, now, desired, j, kept, busy, used, used', reasons, reasons')
    ensures kept <= j && |now| == |was| && now[j] == was[j]
    ensures var c := was[j];
      if c.id in busy then
        Filtered(was, now[kept := c], desired, j + 1, kept + 1, busy, used, used', reasons,
          reasons' + [BusySlot(c.id, c.profile)])
      else
        Filtered(was, now, desired, j + 1, kept, busy, used, used' - {c.id}, reasons, reasons')
  {
    hide FreeOf, BusyOf, BusyReasons;
    var c := was[j];
    FilterSnoc(was, desired, j, busy);
    assert now[j] == now[kept..][j - kept] == was[kept..][j - kept];
    if c.id in busy {
      FilterBusy(was, now, desired, j, kept, busy, used, used', reasons, reasons');
    }
  }

  lemma FilterBusy(was: seq<Config>, now: seq<Config>, desired: nat, j: nat, kept: nat, busy: set<SlotID>,
                   used: set<SlotID>, used': set<SlotID>, reasons: seq<Reason>, reasons': seq<Reason>)
    requires desired <= j < |was| && Filtered(was, now, desired, j, kept, busy, used, used', reasons, reasons')
    requires BusyOf(was[desired..j + 1], busy) == BusyOf(was[desired..j], busy) + [was[j]]
    requires FreeOf(was[desired..j + 1], busy) == FreeOf(was[desired..j], busy)
    ensures Filtered(was, now[kept := was[j]], desired, j + 1, kept + 1, busy, used, used', reasons,
                     reasons' + [BusySlot(was[j].id, was[j].profile)])
  {
    hide FreeOf, BusyOf;
    var c := was[j];
    ReasonsSnoc(BusyOf(was[desired..j], busy), c);
    hide BusyReasons;
    TailUntouched(was, now, kept, c);
    assert now[kept := c][..kept + 1] == now[..kept] + [c];
    assert reasons' + [BusySlot(c.id, c.profile)] == reasons + BusyReasons(BusyOf(was[desired..j + 1], busy));
  }

  /** The write lands behind the reader, so the unread tail is untouched. */
  lemma TailUntouched(was: seq<Config>, now: seq<Config>, kept: nat, c: Config)
    requires kept < |was| == |now| && now[kept..] == was[kept..]
    ensures now[kept := c][kept + 1..] == was[kept + 1..]
  {
    assert now[kept := c][kept + 1..] == now[kept..][1..] == was[kept..][1..] == was[kept + 1..];
  }

  /** The planner of the source. `names` is the order in which the profiles had their turn. */
  method PlanTopology(current: seq<Config>, counts: Counts, profiles: Profiles, busy: set<SlotID>, order: seq<string>)
    returns (plan: Plan, ghost names: seq<string>)
    requires Request(current, counts, profiles, busy).CountsLegal()
    ensures IsProfileOrder(names, order, counts, Present(current))
    ensures plan == PlanOf(Request(current, counts, profiles, busy), names)
  {
    var r := Request(current, counts, profiles, busy);
    var groups := GroupByProfile(current);
    var used, maxID := CollectIds(current);
    var todo := OrderedProfiles(order, counts, groups.Keys);
    names := todo;
    assert groups.Keys == Present(current);
    var next: seq<Config> := [];
    var reasons: seq<Reason> := [];
    assert PlanState(groups, used, next, reasons) == InitialState(current);
    for i := 0 to |todo|
      invariant -1 <= maxID && forall x :: x in used ==> x <= maxID
      invariant PlanFold(r, PlanState(groups, used, next, reasons), todo[i..]) ==
        PlanFold(r, InitialState(current), todo)
    {
      ghost var st := PlanState(groups, used, next, reasons);
      assert todo[i..][0] == todo[i] && todo[i..][1..] == todo[i + 1..];
      groups, used, maxID, next, reasons := PlanOne(r, todo[i], groups, used, maxID, next, reasons);
      assert PlanFold(r, st, todo[i..]) == PlanFold(r, PlanState(groups, used, next, reasons), todo[i + 1..]);
    }
    assert todo[|todo|..] == [];
    plan := Plan(SortById(next), reasons != [], reasons);
  }

  method CollectIds(current: seq<Config>) returns (used: set<SlotID>, maxID: int)
    ensures used == Ids(current) && -1 <= maxID && forall x :: x in used ==> x <= maxID
  {
    used, maxID := {}, -1;
    for i := 0 to |current|
      invariant used == Ids(current[..i]) && -1 <= maxID && forall x :: x in used ==> x <= maxID
    {
      assert current[..i + 1] == current[..i] + [current[i]];
      IdsConcat(current[..i], [current[i]]);
      assert Ids([current[i]]) == {current[i].id};
      used := used + {current[i].id};
      if current[i].id > maxID {
        maxID := current[i].id;
      }
    }
    assert current[..|current|] == current;
  }

  /** The body of the profile loop. */
  method PlanOne(r: Request, profile: string, groups: map<string, seq<Config>>, used: set<SlotID>, maxID: int,
                 next: seq<Config>, reasons: seq<Reason>)
    returns (groups': map<string, seq<Config>>, used': set<SlotID>, maxID': int, next': seq<Config>,
      reasons': seq<Reason>)
    requires r.CountsLegal() && -1 <= maxID && forall x :: x in used ==> x <= maxID
    ensures PlanState(groups', used', next', reasons') ==
      PlanProfile(r, PlanState(groups, used, next, reasons), profile)
    ensures -1 <= maxID' && forall x :: x in used' ==> x <= maxID'
  {
    groups', used', maxID', next', reasons' := groups, used, maxID, next, reasons;
    var desired := r.Desired(profile);
    var existing := GroupOf(groups, profile);
    if profile !in r.profiles && desired > 0 {
      reasons' := reasons + [UnknownProfile(profile)];
      next' := next + existing;
    } else if |existing| > desired {
      var kept, written;
      kept, written, used', reasons' := Shrink(existing, desired, r.busy, used, reasons);
      groups' := groups[profile := written];
      next' := next + kept;
    } else {
      var resources := if profile in r.profiles then r.profiles[profile] else NO_RESOURCES;
      next' := next + existing;
      used', maxID', next' := Grow(profile, resources, desired - |existing|, used, maxID, next');
    }
  }

  /** Runs the filter on the group's array; `written` is what that array holds afterwards. */
  method Shrink(existing: seq<Config>, desired: nat, busy: set<SlotID>, used: set<SlotID>, reasons: seq<Reason>)
    returns (kept: seq<Config>, written: seq<Config>, used': set<SlotID>, reasons': seq<Reason>)
    requires desired < |existing|
    ensures var above := BusyOf(existing[desired..], busy);
      && kept == SortById(existing[..desired] + above)
      && |above| <= |existing| - desired && written == kept + existing[desired + |above|..]
      && used' == used - FreeOf(existing[desired..], busy)
      && reasons' == reasons + BusyReasons(above)
  {
    var slots := new Config[|existing|](i requires 0 <= i < |existing| => existing[i]);
    assert slots[..] == existing;
    var n;
    n, used', reasons' := FilterAboveCut(slots, desired, busy, used, reasons);
    assert existing[desired..|existing|] == existing[desired..];
    BusyOfElements(existing[desired..], busy);
    SortByIdElements(slots[..n]);
    assert slots[..n] == slots[..][..n] && slots[n..] == slots[..][n..];
    hide BusyOf, FreeOf, BusyReasons, SortById;
    kept := SortById(slots[..n]);
    written := kept + slots[n..];
  }

  method Grow(profile: string, resources: Resources, missing: nat, used: set<SlotID>, maxID: int, next: seq<Config>)
    returns (used': set<SlotID>, maxID': int, next': seq<Config>)
    requires -1 <= maxID && forall x :: x in used ==> x <= maxID
    ensures var added := Fresh(used, profile, resources, missing);
      used' == used + Ids(added) && next' == next + added
    ensures -1 <= maxID' && forall x :: x in used' ==> x <= maxID'
  {
    used', maxID', next' := used, maxID, next;
    FreshNone(used, profile, resources);
    hide Fresh, Ids, LeastFree;
    for i := 0 to missing
      invariant used' == used + Ids(Fresh(used, profile, resources, i))
      invariant next' == next + Fresh(used, profile, resources, i)
      invariant -1 <= maxID' && forall x :: x in used' ==> x <= maxID'
    {
      var id;
      FreshSnoc(used, profile, resources, i);
      id, maxID' := NextFreeID(used', maxID');
      used' := used' + {id};
      next' := next' + [Config(id, profile, resources)];
    }
  }

  lemma FreshNone(used: set<SlotID>, p: string, res: Resources)
    ensures Fresh(used, p, res, 0) == [] && Ids([]) == {}
  {
  }

  lemma FreshSnoc(used: set<SlotID>, p: string, res: Resources, i: nat)
    ensures var earlier := Fresh(used, p, res, i); var id := LeastFree(used + Ids(earlier));
      && Fresh(used, p, res, i + 1) == earlier + [Config(id, p, res)]
      && Ids(Fresh(used, p, res, i + 1)) == Ids(earlier) + {id}
  {
    var earlier := Fresh(used, p, res, i);
    var c := Config(LeastFree(used + Ids(earlier)), p, res);
    IdsConcat(earlier, [c]);
    assert Ids([c]) == {c.id};
  }
}
