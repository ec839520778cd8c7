/** The pool reconciler's work on one template as the source writes it: resource sums and checks as
    loops over maps and layouts, and the reconcile that updates status, StatefulSet and Workers. */
module PoolReconciler {
  import opened Base
  import opened GoStrings
  import opened Topology
  import opened PoolCapacity
  import Planner

  // ---------------------------------------------------------------- internal/slot/config.go

  method AddResourceList(base: ResourceList, add: ResourceList) returns (result: ResourceList)
    ensures result == AddList(base, add)
  {
    if |add| == 0 {
      assert AddList(base, add).Keys == base.Keys;
      return base;
    }
    result := base;
    var todo := add.Keys;
    assert add - todo == map[] && AddList(base, map[]) == base;
    while todo != {}
      invariant todo <= add.Keys && result == AddList(base, add - todo)
      decreases |todo|
    {
      var name := Pick(todo);
      AddOne(base, add, todo, name);
      if name !in result {
        result := result[name := add[name]];
      } else {
        result := result[name := result[name] + add[name]];
      }
      todo := todo - {name};
    }
    assert add - {} == add;
  }

  lemma AddOne(base: ResourceList, add: ResourceList, todo: set<string>, name: string)
    requires todo <= add.Keys && name in todo
    ensures var before := AddList(base, add - todo);
      AddList(base, add - (todo - {name})) == before[name := Amount(before, name) + add[name]]
  {
    var before, after := AddList(base, add - todo), AddList(base, add - (todo - {name}));
    assert after.Keys == before.Keys + {name};
    forall n | n in after && n != name ensures n in before && after[n] == before[n] {
      assert n in add - (todo - {name}) <==> n in add - todo;
    }
  }

  method SumResources(configs: seq<Config>) returns (sum: Resources)
    ensures sum == Sum(configs)
  {
    sum := NO_RESOURCES;
    for i := 0 to |configs|
      invariant sum == Sum(configs[..i])
    {
      assert configs[..i + 1][..i] == configs[..i];
      var requests := AddResourceList(sum.requests, configs[i].resources.requests);
      var limits := AddResourceList(sum.limits, configs[i].resources.limits);
      sum := Resources(requests, limits);
    }
    assert configs[..|configs|] == configs;
  }

  method ResourceListCovers(have: ResourceList, need: ResourceList) returns (covers: bool)
    ensures covers == ListCovers(have, need)
  {
    var todo := need.Keys;
    while todo != {}
      invariant todo <= need.Keys
      invariant forall name :: name in need && name !in todo ==>
        if name in have then have[name] >= need[name] else need[name] == 0
      decreases |todo|
    {
      var name := Pick(todo);
      todo := todo - {name};
      if name !in have {
        if need[name] == 0 {
          continue;
        }
        return false;
      }
      if have[name] < need[name] {
        return false;
      }
    }
    return true;
  }

  method ResourcesEnough(have: Resources, need: Resources) returns (enough: bool)
    ensures enough == Enough(have, need)
  {
    enough := ResourceListCovers(have.requests, need.requests);
    if enough {
      enough := ResourceListCovers(have.limits, need.limits);
    }
  }

  method ExistingIDs(current: seq<Config>) returns (existing: set<SlotID>)
    ensures existing == Ids(current)
  {
    existing := {};
    for i := 0 to |current|
      invariant existing == Ids(current[..i])
    {
      assert current[..i + 1] == current[..i] + [current[i]];
      existing := existing + {current[i].id};
    }
    assert current[..|current|] == current;
  }

  method KeepExistingSlots(current: seq<Config>, proposed: seq<Config>) returns (out: seq<Config>)
    ensures out == ExistingOnly(current, proposed)
  {
    var existing := ExistingIDs(current);
    out := [];
    for i := 0 to |proposed|
      invariant out == ExistingOnly(current, proposed[..i])
    {
      assert proposed[..i + 1][..i] == proposed[..i];
      if proposed[i].id in existing {
        out := out + [proposed[i]];
      }
    }
    assert proposed[..|proposed|] == proposed;
  }

  method CountNewSlots(current: seq<Config>, proposed: seq<Config>) returns (n: nat)
    ensures n > 0 <==> NewIds(current, proposed) != {}
    ensures DistinctIds(proposed) ==> n == |NewIds(current, proposed)|
  {
    var existing := ExistingIDs(current);
    n := 0;
    assert NewIds(current, proposed[..0]) == {};
    hide NewIds, DistinctIds, Ids;
    for i := 0 to |proposed|
      invariant n > 0 <==> NewIds(current, proposed[..i]) != {}
      invariant DistinctIds(proposed) ==> n == |NewIds(current, proposed[..i])|
    {
      NewIdsStep(current, proposed, i);
      if proposed[i].id !in existing {
        n := n + 1;
      }
    }
    assert proposed[..|proposed|] == proposed;
  }

  lemma NewIdsStep(current: seq<Config>, proposed: seq<Config>, i: nat)
    requires i < |proposed|
    ensures var before, after := NewIds(current, proposed[..i]), NewIds(current, proposed[..i + 1]);
      && (after != {} <==> before != {} || proposed[i].id !in Ids(current))
      && (DistinctIds(proposed) ==> |after| == |before| + if proposed[i].id in Ids(current) then 0 else 1)
  {
    var c := proposed[i];
    var before, after := NewIds(current, proposed[..i]), NewIds(current, proposed[..i + 1]);
    assert proposed[..i + 1] == proposed[..i] + [c];
    assert Ids(proposed[..i + 1]) == Ids(proposed[..i]) + {c.id};
    if c.id in Ids(current) {
      assert after == before;
    } else {
      assert after == before + {c.id};
      assert DistinctIds(proposed) ==> c.id !in before;
    }
  }

  // ---------------------------------------------------------------- internal/controller/worker_dependencies.go

  method MaxSlotMemoryLimit(configs: seq<Config>) returns (max: int)
    ensures max == MaxMemory(configs)
  {
    max := 0;
    for i := 0 to |configs|
      invariant max == MaxMemory(configs[..i])
    {
      assert configs[..i + 1][..i] == configs[..i];
      if MEMORY in configs[i].resources.limits && configs[i].resources.limits[MEMORY] > max {
        max := configs[i].resources.limits[MEMORY];
      }
    }
    assert configs[..|configs|] == configs;
  }

  method AddMemory(list: ResourceList, extra: int) returns (result: ResourceList)
    ensures result == AddList(list, map[MEMORY := extra])
  {
    if MEMORY !in list {
      return list[MEMORY := extra];
    }
    return list[MEMORY := list[MEMORY] + extra];
  }

  method WithMemoryOverhead(resources: Resources, extra: int) returns (out: Resources)
    ensures out == WithMemory(resources, extra)
  {
    if extra == 0 {
      return resources;
    }
    var limits := AddMemory(resources.limits, extra);
    var requests := AddMemory(resources.requests, extra);
    return Resources(requests, limits);
  }

  method WorkerPodResources(cri: bool, configs: seq<Config>) returns (out: Resources)
    ensures out == WorkerResources(cri, configs)
  {
    out := SumResources(configs);
    if !cri {
      return;
    }
    var max := MaxSlotMemoryLimit(configs);
    out := WithMemoryOverhead(out, max);
    out := WithMemoryOverhead(out, CRI_OVERHEAD);
  }

  // ---------------------------------------------------------------- internal/controller/pool_controller.go

  datatype Group = Group(profile: string, count: nat)

  datatype CountsResult = CountsOk(counts: Counts, order: seq<string>) | UnknownAt(index: nat) | RepeatedAt(index: nat)

  predicate Wellformed(groups: seq<Group>, profiles: Profiles) {
    && (forall i :: 0 <= i < |groups| ==> groups[i].profile in profiles)
    && (forall i, j :: 0 <= i < j < |groups| ==> groups[i].profile != groups[j].profile)
  }

  /** The counts of the groups, by profile. */
  ghost predicate CountsFor(groups: seq<Group>, counts: Counts) {
    && counts.Keys == (set g | g in groups :: g.profile)
    && forall g :: g in groups ==> g.profile in counts && counts[g.profile] == g.count
  }

  function Profiled(groups: seq<Group>): seq<string> {
    seq(|groups|, i requires 0 <= i < |groups| => groups[i].profile)
  }

  /** Fails at the first group with an unknown or repeated profile. Otherwise the order covers the
      counts, as the planner needs. */
  method SlotCountsFromTemplate(groups: seq<Group>, profiles: Profiles) returns (r: CountsResult)
    ensures r.CountsOk? <==> Wellformed(groups, profiles)
    ensures r.CountsOk? ==>
      && CountsFor(groups, r.counts) && r.order == Profiled(groups)
      && OrderCovers(r.order, r.counts) && NoRepeats(r.order) && forall p :: p in r.counts ==> r.counts[p] >= 0
    ensures !r.CountsOk? ==> r.index < |groups| && Wellformed(groups[..r.index], profiles)
    ensures r.UnknownAt? ==> groups[r.index].profile !in profiles
    ensures r.RepeatedAt? ==> exists j :: 0 <= j < r.index && groups[j].profile == groups[r.index].profile
  {
    var counts: Counts := map[];
    var order: seq<string> := [];
    for i := 0 to |groups|
      invariant Wellformed(groups[..i], profiles) && CountsFor(groups[..i], counts) && order == Profiled(groups[..i])
    {
      var group := groups[i];
      OneGroupMore(groups, i, counts, profiles);
      hide Wellformed, CountsFor;
      if group.profile !in profiles {
        return UnknownAt(i);
      }
      if group.profile in counts {
        return RepeatedAt(i);
      }
      counts := counts[group.profile := group.count];
      order := order + [group.profile];
    }
    assert groups[..|groups|] == groups;
    OrderOfGroups(groups, counts, profiles);
    return CountsOk(counts, order);
  }

  /** A further group is a failure or is counted. */
  lemma OneGroupMore(groups: seq<Group>, i: nat, counts: Counts, profiles: Profiles)
    requires i < |groups| && Wellformed(groups[..i], profiles) && CountsFor(groups[..i], counts)
    ensures groups[i].profile !in profiles || groups[i].profile in counts ==> !Wellformed(groups, profiles)
    ensures groups[i].profile in counts ==> exists j :: 0 <= j < i && groups[j].profile == groups[i].profile
    ensures groups[i].profile in profiles && groups[i].profile !in counts ==>
      Wellformed(groups[..i + 1], profiles) && CountsFor(groups[..i + 1], counts[groups[i].profile := groups[i].count])
    ensures Profiled(groups[..i + 1]) == Profiled(groups[..i]) + [groups[i].profile]
  {
    var front := groups[..i];
    assert groups[..i + 1] == front + [groups[i]];
    assert forall j :: 0 <= j < i ==> front[j] == groups[j] && front[j] in front;
    if groups[i].profile in counts {
      var g :| g in front && g.profile == groups[i].profile;
      var j :| 0 <= j < i && front[j] == g;
      assert groups[j].profile == groups[i].profile;
    } else if groups[i].profile in profiles {
      OneGroupCounted(front, groups[i], counts, profiles);
    }
    hide CountsFor;
  }

  lemma OneGroupCounted(front: seq<Group>, g: Group, counts: Counts, profiles: Profiles)
    requires Wellformed(front, profiles) && CountsFor(front, counts) && g.profile in profiles && g.profile !in counts
    ensures Wellformed(front + [g], profiles) && CountsFor(front + [g], counts[g.profile := g.count])
  {
    assert forall j :: 0 <= j < |front| ==> front[j] in front;
    assert forall x :: x in front + [g] <==> x in front || x == g;
  }

  lemma OrderOfGroups(groups: seq<Group>, counts: Counts, profiles: Profiles)
    requires Wellformed(groups, profiles) && CountsFor(groups, counts)
    ensures OrderCovers(Profiled(groups), counts) && NoRepeats(Profiled(groups))
    ensures forall p :: p in counts ==> counts[p] >= 0
  {
    forall p | p in counts ensures p in Profiled(groups) && counts[p] >= 0 {
      var g :| g in groups && g.profile == p;
      var j :| 0 <= j < |groups| && groups[j] == g;
      assert Profiled(groups)[j] == p;
    }
  }

  method WorkersCanFit(pods: seq<WorkerPod>, need: Resources) returns (fits: bool)
    ensures fits == CanFit(pods, need)
  {
    for i := 0 to |pods|
      invariant forall j :: 0 <= j < i ==> PodFits(pods[j], need)
    {
      if |pods[i].containers| == 0 {
        assert pods[i] in pods;
        return false;
      }
      var enough := ResourcesEnough(pods[i].containers[0], need);
      if !enough {
        assert pods[i] in pods;
        return false;
      }
    }
    return true;
  }

  /** What pushing a layout to one Pod comes to. */
  datatype Push = NotReady | NoEndpoint | Refused | Taken

  datatype AppliedSlot = AppliedSlot(id: SlotID, profile: string)

  /** Status keeps IDs and profiles; resources come from the pool's profiles. */
  function Resolve(slot: AppliedSlot, profiles: Profiles): Config {
    Config(slot.id, slot.profile, if slot.profile in profiles then profiles[slot.profile] else NO_RESOURCES)
  }

  function Resolved(slots: seq<AppliedSlot>, profiles: Profiles): seq<Config> {
    seq(|slots|, i requires 0 <= i < |slots| => Resolve(slots[i], profiles))
  }

  ghost predicate FromProfiles(cs: seq<Config>, profiles: Profiles) {
    forall c :: c in cs ==> c == Resolve(AppliedSlot(c.id, c.profile), profiles)
  }

  /** What reading the busy Slots gives, and whether reading the Pods for the headroom, reading them
      for the push and writing the StatefulSet worked. */
  datatype ApiAnswers = ApiAnswers(occupied: Option<set<SlotID>>, fitRead: bool, pushListed: bool, setWritten: bool)

  class TemplateReconciler {
    const cri: bool
    var applied: seq<AppliedSlot>
    var template: Option<Resources>
    var pods: seq<WorkerPod>

    constructor (cri: bool)
      ensures this.cri == cri && applied == [] && template == None && pods == []
    {
      this.cri := cri;
      applied, template, pods := [], None, [];
    }

    ghost function View(profiles: Profiles): Pool
      reads this
    {
      Pool(Resolved(applied, profiles), template, pods)
    }

    /** Plans, checks headroom, pushes, takes the layout into the status, rewrites the StatefulSet. An
        error ends it where it happens. */
    method SyncTemplate(groups: seq<Group>, profiles: Profiles, pushes: seq<Push>, ans: ApiAnswers)
      returns (counts: CountsResult, failed: bool, blocked: bool, reduced: bool, pushed: bool, ghost names: seq<string>)
      requires DistinctIds(Resolved(applied, profiles))
      modifies this
      ensures pods == old(pods) && (counts.CountsOk? <==> Wellformed(groups, profiles))
      ensures !counts.CountsOk? || ans.occupied.None? ==> failed && unchanged(this)
      ensures counts.CountsOk? && ans.occupied.Some? ==>
        var r := Request(old(View(profiles)).applied, counts.counts, profiles, ans.occupied.value);
        && r.CountsLegal() && OrderCovers(counts.order, counts.counts)
        && CountsFor(groups, counts.counts) && counts.order == Profiled(groups)
        && IsProfileOrder(names, counts.order, counts.counts, Present(r.current))
        && (failed <==>
             !ans.pushListed || !ans.setWritten || (!ans.fitRead && NewIds(r.current, PlanOf(r, names).slots) != {}))
        && (!failed ==>
              && View(profiles) == Synced(old(View(profiles)), cri, PlanOf(r, names).slots, pushed)
              && blocked == PlanOf(r, names).blocked
              && (reduced <==>
                   NewIds(r.current, PlanOf(r, names).slots) != {} && !CanFit(pods, Sum(PlanOf(r, names).slots)))
              && (pushed <==> NoEndpoint !in pushes && Refused !in pushes))
      ensures failed ==> template == old(template)
    {
      failed, blocked, reduced, pushed, names := true, false, false, false, [];
      var current := AppliedConfigs(profiles);
      counts := SlotCountsFromTemplate(groups, profiles);
      if !counts.CountsOk? || ans.occupied.None? {
        return;
      }
      ghost var r := Request(current, counts.counts, profiles, ans.occupied.value);
      var plan;
      plan, names := Planner.PlanTopology(current, counts.counts, profiles, ans.occupied.value, counts.order);
      PlanFromProfiles(r, names, counts.order, applied);
      hide PlanOf, IsProfileOrder, OrderCovers, Wellformed, CountsFor, Profiled, NewIds, CanFit, Synced, FromProfiles;
      blocked := plan.blocked;
      failed, reduced, pushed := Carry(current, plan.slots, profiles, pushes, ans);
    }

    /** Checks headroom, pushes and records the layout, rewrites the Pod template. */
    method Carry(current: seq<Config>, proposed: seq<Config>, profiles: Profiles, pushes: seq<Push>, ans: ApiAnswers)
      returns (failed: bool, reduced: bool, pushed: bool)
      requires current == Resolved(applied, profiles) && FromProfiles(proposed, profiles)
      modifies this
      ensures pods == old(pods)
      ensures failed <==> !ans.pushListed || !ans.setWritten || (!ans.fitRead && NewIds(current, proposed) != {})
      ensures failed ==> template == old(template)
      ensures !failed ==> View(profiles) == Synced(old(View(profiles)), cri, proposed, pushed)
      ensures !failed ==> (reduced <==> NewIds(current, proposed) != {} && !CanFit(pods, Sum(proposed)))
      ensures !failed ==> (pushed <==> NoEndpoint !in pushes && Refused !in pushes)
    {
      hide NewIds, CanFit, Sum, FromProfiles, ExistingOnly;
      var next;
      pushed := false;
      failed, next, reduced := WithHeadroom(current, proposed, ans.fitRead);
      if failed || !ans.pushListed {
        return true, reduced, pushed;
      }
      ExistingFromProfiles(current, proposed, profiles);
      pushed := SyncTopology(next, profiles, pushes);
      if !ans.setWritten {
        return true, reduced, pushed;
      }
      var built := WorkerPodResources(cri, next);
      template := Some(built);
    }

    /** New Slots need headroom on every Pod; without it only existing Slots are kept. */
    method WithHeadroom(current: seq<Config>, proposed: seq<Config>, fitRead: bool)
      returns (failed: bool, next: seq<Config>, reduced: bool)
      ensures failed <==> NewIds(current, proposed) != {} && !fitRead
      ensures !failed ==> (reduced <==> NewIds(current, proposed) != {} && !CanFit(pods, Sum(proposed)))
      ensures !failed ==> next == if reduced then ExistingOnly(current, proposed) else proposed
    {
      failed, next, reduced := false, proposed, false;
      var n := CountNewSlots(current, next);
      if n > 0 {
        if !fitRead {
          return true, next, reduced;
        }
        var need := SumResources(next);
        var canFit := WorkersCanFit(pods, need);
        if !canFit {
          next := KeepExistingSlots(current, next);
          reduced := true;
        }
      }
    }

    method AppliedConfigs(profiles: Profiles) returns (configs: seq<Config>)
      ensures configs == Resolved(applied, profiles)
    {
      configs := [];
      for i := 0 to |applied|
        invariant configs == Resolved(applied[..i], profiles)
      {
        var cfg := Config(applied[i].id, applied[i].profile, NO_RESOURCES);
        if applied[i].profile in profiles {
          cfg := cfg.(resources := profiles[applied[i].profile]);
        }
        configs := configs + [cfg];
      }
      assert applied[..|applied|] == applied;
    }

    /** Pushes to every ready Pod; records the layout only if none of them failed. */
    method SyncTopology(configs: seq<Config>, profiles: Profiles, pushes: seq<Push>) returns (ok: bool)
      requires FromProfiles(configs, profiles)
      modifies this`applied
      ensures ok <==> NoEndpoint !in pushes && Refused !in pushes
      ensures Resolved(applied, profiles) == if ok then configs else Resolved(old(applied), profiles)
    {
      var failed := 0;
      for i := 0 to |pushes|
        invariant 0 <= failed
        invariant failed == 0 <==> NoEndpoint !in pushes[..i] && Refused !in pushes[..i]
      {
        if pushes[i].NotReady? {
          continue;
        }
        if pushes[i].NoEndpoint? {
          failed := failed + 1;
          continue;
        }
        if pushes[i].Refused? {
          failed := failed + 1;
        }
      }
      assert pushes[..|pushes|] == pushes;
      if failed > 0 {
        return false;
      }
      applied := [];
      for i := 0 to |configs|
        invariant Resolved(applied, profiles) == configs[..i]
      {
        assert configs[i] in configs;
        applied := applied + [AppliedSlot(configs[i].id, configs[i].profile)];
      }
      assert configs[..|configs|] == configs;
      return true;
    }
  }

  // ---------------------------------------------------------------- all templates of a pool

  /** What one template brings to a reconcile. */
  datatype Input = Input(groups: seq<Group>, pushes: seq<Push>, ans: ApiAnswers)

  /** The request that the planner gets for a template. */
  ghost predicate Asked(p: Pool, profiles: Profiles, input: Input, r: Request, names: seq<string>) {
    && Wellformed(input.groups, profiles) && input.ans.occupied == Some(r.busy)
    && r.current == p.applied && r.profiles == profiles && r.CountsLegal()
    && CountsFor(input.groups, r.counts) && IsProfileOrder(names, Profiled(input.groups), r.counts, Present(r.current))
  }

  /** What becomes of a template that was gone through: the Pod template is that of its plan, and the
      layout is recorded if its pushes succeeded and the status is written. */
  ghost predicate GoneThrough(was: Pool, now: Pool, cri: bool, profiles: Profiles, input: Input, written: bool) {
    exists r, names ::
      Asked(was, profiles, input, r, names) && SyncedTo(was, now, cri, r, names, written && Delivered(input.pushes))
  }

  ghost predicate SyncedTo(was: Pool, now: Pool, cri: bool, r: Request, names: seq<string>, recorded: bool)
  {
    r.CountsLegal() && now == Synced(was, cri, PlanOf(r, names).slots, recorded)
  }

  predicate Delivered(pushes: seq<Push>) {
    NoEndpoint !in pushes && Refused !in pushes
  }

  predicate AllAnswered(profiles: Profiles, input: Input) {
    Wellformed(input.groups, profiles) && input.ans.occupied.Some? && input.ans.fitRead && input.ans.pushListed &&
      input.ans.setWritten
  }

  /** Dropping the status leaves the Pod template as it was rewritten. */
  lemma StatusDropped(was: Pool, now: Pool, cri: bool, profiles: Profiles, input: Input)
    requires GoneThrough(was, now, cri, profiles, input, true)
    ensures GoneThrough(was, now.(applied := was.applied), cri, profiles, input, false)
  {
    hide Asked, PlanOf, Chosen, WorkerResources;
    var r, names :| Asked(was, profiles, input, r, names) &&
      SyncedTo(was, now, cri, r, names, true && Delivered(input.pushes));
    assert SyncedTo(was, now.(applied := was.applied), cri, r, names, false && Delivered(input.pushes));
  }

  ghost predicate Apart(templates: seq<TemplateReconciler>) {
    forall i, j :: 0 <= i < j < |templates| ==> templates[i] != templates[j]
  }

  /** One template, with what Asked and GoneThrough say of it. */
  method GoThrough(t: TemplateReconciler, profiles: Profiles, input: Input) returns (failed: bool)
    requires DistinctIds(Resolved(t.applied, profiles))
    modifies t
    ensures t.pods == old(t.pods) && (failed ==> t.template == old(t.template))
    ensures AllAnswered(profiles, input) ==> !failed
    ensures !failed ==> GoneThrough(old(t.View(profiles)), t.View(profiles), t.cri, profiles, input, true)
  {
    var counts, blocked, reduced, pushed;
    ghost var names;
    ghost var was := t.View(profiles);
    counts, failed, blocked, reduced, pushed, names := t.SyncTemplate(input.groups, profiles, input.pushes, input.ans);
    hide PlanOf, IsProfileOrder, OrderCovers, CountsFor, Profiled, NewIds, CanFit, Synced, DistinctIds, Wellformed;
    if !failed {
      ghost var r := Request(was.applied, counts.counts, profiles, input.ans.occupied.value);
      assert Asked(was, profiles, input, r, names);
      assert SyncedTo(was, t.View(profiles), t.cri, r, names, true && Delivered(input.pushes));
    }
  }

  /** Drops the copy of the status. */
  method DropStatus(templates: seq<TemplateReconciler>, recorded: seq<seq<AppliedSlot>>)
    requires |recorded| <= |templates| && Apart(templates)
    modifies templates
    ensures forall j :: 0 <= j < |templates| ==>
      templates[j].template == old(templates[j].template) && templates[j].pods == old(templates[j].pods)
    ensures forall j :: 0 <= j < |templates| ==>
      templates[j].applied == if j < |recorded| then recorded[j] else old(templates[j].applied)
  {
    for i := 0 to |recorded|
      invariant forall j :: 0 <= j < |templates| ==>
        templates[j].template == old(templates[j].template) && templates[j].pods == old(templates[j].pods)
      invariant forall j :: 0 <= j < |templates| ==>
        templates[j].applied == if j < i then recorded[j] else old(templates[j].applied)
    {
      templates[i].applied := recorded[i];
    }
  }

  /** The templates in turn, up to the first error, and what was recorded before for each of them. */
  method GoThroughAll(templates: seq<TemplateReconciler>, profiles: Profiles, inputs: seq<Input>)
    returns (done: nat, failed: bool, recorded: seq<seq<AppliedSlot>>)
    requires |inputs| == |templates| && Apart(templates)
    requires forall t :: t in templates ==> DistinctIds(Resolved(t.applied, profiles))
    modifies templates
    ensures done <= |templates| && (failed <==> done < |templates|) && (failed ==> !AllAnswered(profiles, inputs[done]))
    ensures |recorded| == if failed then done + 1 else done
    ensures forall i :: 0 <= i < |recorded| ==> recorded[i] == old(templates[i].applied)
    ensures forall i :: 0 <= i < done ==>
      GoneThrough(old(templates[i].View(profiles)), templates[i].View(profiles), templates[i].cri, profiles, inputs[i],
        true)
    ensures forall i :: done <= i < |templates| ==>
      templates[i].template == old(templates[i].template) && templates[i].pods == old(templates[i].pods)
    ensures forall i :: |recorded| <= i < |templates| ==> templates[i].applied == old(templates[i].applied)
  {
    hide GoneThrough, AllAnswered, DistinctIds, Resolved;
    recorded, done, failed := [], 0, false;
    while done < |templates| && !failed
      invariant done <= |templates| && |recorded| == (if failed then done + 1 else done) <= |templates|
      invariant failed ==> !AllAnswered(profiles, inputs[done])
      invariant forall i :: 0 <= i < |recorded| ==> recorded[i] == old(templates[i].applied)
      invariant forall i :: 0 <= i < done ==>
        GoneThrough(old(templates[i].View(profiles)), templates[i].View(profiles), templates[i].cri, profiles,
          inputs[i], true)
      invariant forall i :: done <= i < |templates| ==>
        templates[i].template == old(templates[i].template) && templates[i].pods == old(templates[i].pods)
      invariant forall i :: |recorded| <= i < |templates| ==> templates[i].applied == old(templates[i].applied)
      decreases |templates| - |recorded|
    {
      assert templates[done] in templates;
      recorded := recorded + [templates[done].applied];
      failed := GoThrough(templates[done], profiles, inputs[done]);
      if !failed {
        done := done + 1;
      }
    }
  }

  /** One reconcile of a pool: its templates in turn, up to the first error, then one write of the
      status. Without that write nothing is recorded, but the Pod templates gone through so far are the
      ones of their plans. */
  method Reconcile(templates: seq<TemplateReconciler>, profiles: Profiles, inputs: seq<Input>, statusWritten: bool)
    returns (ok: bool, done: nat)
    requires |inputs| == |templates| && Apart(templates)
    requires forall t :: t in templates ==> DistinctIds(Resolved(t.applied, profiles))
    modifies templates
    ensures done <= |templates| && (ok <==> done == |templates| && statusWritten)
    ensures done < |templates| ==> !AllAnswered(profiles, inputs[done])
    ensures forall i :: 0 <= i < done ==>
      GoneThrough(old(templates[i].View(profiles)), templates[i].View(profiles), templates[i].cri, profiles, inputs[i],
        ok)
    ensures forall i :: done <= i < |templates| ==> templates[i].View(profiles) == old(templates[i].View(profiles))
  {
    hide GoneThrough, AllAnswered, DistinctIds, Resolved, Apart;
    var failed, recorded;
    done, failed, recorded := GoThroughAll(templates, profiles, inputs);
    ok := !failed && statusWritten;
    if !ok {
      label gone:
      DropStatus(templates, recorded);
      forall i | 0 <= i < done
        ensures GoneThrough(old(templates[i].View(profiles)), templates[i].View(profiles), templates[i].cri, profiles,
          inputs[i], false)
      {
        var was, before := old(templates[i].View(profiles)), old@gone(templates[i].View(profiles));
        assert templates[i].View(profiles) == before.(applied := was.applied);
        StatusDropped(was, before, templates[i].cri, profiles, inputs[i]);
      }
    }
  }

  lemma ResolvedFromProfiles(applied: seq<AppliedSlot>, profiles: Profiles)
    ensures FromProfiles(Resolved(applied, profiles), profiles)
  {
  }

  lemma PlanFromProfiles(r: Request, names: seq<string>, order: seq<string>, applied: seq<AppliedSlot>)
    requires r.current == Resolved(applied, r.profiles) && DistinctIds(r.current) && r.CountsLegal()
    requires IsProfileOrder(names, order, r.counts, Present(r.current)) && OrderCovers(order, r.counts)
    ensures FromProfiles(PlanOf(r, names).slots, r.profiles)
  {
    PlanMeetsSpec(r, order, names);
    ResolvedFromProfiles(applied, r.profiles);
    hide PlanOf, IsProfileOrder;
    forall c | c in PlanOf(r, names).slots ensures c == Resolve(AppliedSlot(c.id, c.profile), r.profiles) {
      assert ProfileDone(r, PlanOf(r, names).slots, c.profile);
    }
  }

  lemma ExistingFromProfiles(current: seq<Config>, proposed: seq<Config>, profiles: Profiles)
    requires FromProfiles(proposed, profiles)
    ensures FromProfiles(ExistingOnly(current, proposed), profiles)
  {
    ExistingOnlyElements(current, proposed);
  }
}
