/** Resource accounting of the Worker Pods of one template: what a layout needs, what a Pod is built
    with, and the check that keeps the two together (internal/slot/config.go,
    internal/controller/pool_controller.go, internal/controller/worker_dependencies.go). */
module PoolCapacity {
  import opened Base
  import opened Topology
  import opened TopologyIds
  import opened TopologyOrder

  type ResourceList = map<string, int>

  const MEMORY := "memory"

  /** 2Gi, the host-side allowance of a CRI Worker. */
  const CRI_OVERHEAD := 0x8000_0000

  // ---------------------------------------------------------------- resource lists

  function Amount(list: ResourceList, name: string): int {
    if name in list then list[name] else 0
  }

  function AddList(base: ResourceList, add: ResourceList): ResourceList {
    map name | name in base.Keys + add.Keys :: Amount(base, name) + Amount(add, name)
  }

  predicate ListCovers(have: ResourceList, need: ResourceList) {
    forall name :: name in need ==> if name in have then have[name] >= need[name] else need[name] == 0
  }

  predicate Enough(have: Resources, need: Resources) {
    ListCovers(have.requests, need.requests) && ListCovers(have.limits, need.limits)
  }

  function Sum(cs: seq<Config>): Resources {
    if cs == [] then NO_RESOURCES
    else
      var sum, last := Sum(cs[..|cs| - 1]), cs[|cs| - 1].resources;
      Resources(AddList(sum.requests, last.requests), AddList(sum.limits, last.limits))
  }

  /** The requests or the limits. */
  function Part(r: Resources, limits: bool): ResourceList {
    if limits then r.limits else r.requests
  }

  /** The amounts of one resource over a layout. */
  function Total(cs: seq<Config>, limits: bool, name: string): int {
    if cs == [] then 0 else Total(cs[..|cs| - 1], limits, name) + Amount(Part(cs[|cs| - 1].resources, limits), name)
  }

  lemma AddListAt(base: ResourceList, add: ResourceList, name: string)
    ensures Amount(AddList(base, add), name) == Amount(base, name) + Amount(add, name)
    ensures name in AddList(base, add) <==> name in base || name in add
  {
  }

  lemma SumStep(cs: seq<Config>, limits: bool)
    requires cs != []
    ensures Part(Sum(cs), limits) == AddList(Part(Sum(cs[..|cs| - 1]), limits), Part(cs[|cs| - 1].resources, limits))
  {
    hide AddList;
  }

  lemma OccursStep(cs: seq<Config>, limits: bool, name: string)
    requires cs != []
    ensures Occurs(cs, limits, name) <==>
      Occurs(cs[..|cs| - 1], limits, name) || name in Part(cs[|cs| - 1].resources, limits)
  {
    hide Part;
    var front, last := cs[..|cs| - 1], cs[|cs| - 1];
    assert cs == front + [last];
  }

  /** Some Slot of the layout names this resource. */
  predicate Occurs(cs: seq<Config>, limits: bool, name: string) {
    exists c :: c in cs && name in Part(c.resources, limits)
  }

  /** SumResources adds every resource up on its own. */
  lemma {:induction false} SumIsTotal(cs: seq<Config>, limits: bool, name: string)
    ensures Amount(Part(Sum(cs), limits), name) == Total(cs, limits, name)
    ensures name in Part(Sum(cs), limits) <==> Occurs(cs, limits, name)
  {
    if cs != [] {
      SumIsTotal(cs[..|cs| - 1], limits, name);
      SumStep(cs, limits);
      OccursStep(cs, limits, name);
      AddListAt(Part(Sum(cs[..|cs| - 1]), limits), Part(cs[|cs| - 1].resources, limits), name);
      hide Sum, Part, AddList, Occurs, Amount;
    }
  }

  /** No profile asks for a negative amount. */
  predicate NonNegative(cs: seq<Config>) {
    forall c :: c in cs ==> NonNegativeList(c.resources.requests) && NonNegativeList(c.resources.limits)
  }

  predicate NonNegativeList(list: ResourceList) {
    forall name :: name in list ==> list[name] >= 0
  }

  lemma {:induction false} TotalConcat(a: seq<Config>, b: seq<Config>, limits: bool, name: string)
    ensures Total(a + b, limits, name) == Total(a, limits, name) + Total(b, limits, name)
  {
    if b == [] {
      assert a + b == a;
    } else {
      var front := b[..|b| - 1];
      assert (a + b)[..|a + b| - 1] == a + front;
      TotalConcat(a, front, limits, name);
    }
  }

  lemma {:induction false} TotalNonNegative(cs: seq<Config>, limits: bool, name: string)
    requires NonNegative(cs)
    ensures Total(cs, limits, name) >= 0
  {
    if cs != [] {
      assert cs == cs[..|cs| - 1] + [cs[|cs| - 1]];
      assert cs[|cs| - 1] in cs;
      TotalNonNegative(cs[..|cs| - 1], limits, name);
    }
  }

  /** A layout made of Slots of another one needs no more of anything. */
  lemma {:induction false} TotalSubset(cs: seq<Config>, ds: seq<Config>, limits: bool, name: string)
    requires DistinctIds(cs) && NonNegative(ds) && forall c :: c in cs ==> c in ds
    ensures Total(cs, limits, name) <= Total(ds, limits, name)
    decreases |cs|
  {
    if cs == [] {
      TotalNonNegative(ds, limits, name);
    } else {
      var front, last := cs[..|cs| - 1], cs[|cs| - 1];
      DistinctFront(cs);
      assert last in cs;
      var i :| 0 <= i < |ds| && ds[i] == last;
      var rest := ds[..i] + ds[i + 1..];
      assert ds == ds[..i] + ([last] + ds[i + 1..]);
      RestHolds(front, ds, last, i);
      TotalSubset(front, rest, limits, name);
      TotalConcat(ds[..i], [last] + ds[i + 1..], limits, name);
      TotalConcat([last], ds[i + 1..], limits, name);
      TotalConcat(ds[..i], ds[i + 1..], limits, name);
      assert [last][..0] == [];
    }
  }

  lemma RestHolds(front: seq<Config>, ds: seq<Config>, last: Config, i: nat)
    requires i < |ds| && ds[i] == last && last.id !in Ids(front) && NonNegative(ds)
    requires forall c :: c in front ==> c in ds
    ensures var rest := ds[..i] + ds[i + 1..]; NonNegative(rest) && forall c :: c in front ==> c in rest
  {
    var rest := ds[..i] + ds[i + 1..];
    forall c | c in front ensures c in rest {
      var j :| 0 <= j < |ds| && ds[j] == c;
      assert j != i;
      assert c == if j < i then rest[j] else rest[j - 1];
    }
  }

  lemma EnoughForSubset(have: Resources, cs: seq<Config>, ds: seq<Config>)
    requires DistinctIds(cs) && NonNegative(ds) && (forall c :: c in cs ==> c in ds) && Enough(have, Sum(ds))
    ensures Enough(have, Sum(cs))
  {
    hide DistinctIds, Sum;
    forall limits, name | name in Part(Sum(cs), limits)
      ensures if name in Part(have, limits) then Part(have, limits)[name] >= Part(Sum(cs), limits)[name]
        else Part(Sum(cs), limits)[name] == 0
    {
      SumIsTotal(cs, limits, name);
      SumIsTotal(ds, limits, name);
      TotalSubset(cs, ds, limits, name);
      TotalNonNegative(cs, limits, name);
    }
    assert ListCovers(Part(have, false), Part(Sum(cs), false)) && ListCovers(Part(have, true), Part(Sum(cs), true));
  }

  // ---------------------------------------------------------------- what a Worker Pod is built with

  function MaxMemory(cs: seq<Config>): (m: int)
    ensures m >= 0
  {
    if cs == [] then 0
    else
      var before := MaxMemory(cs[..|cs| - 1]);
      var q := Amount(cs[|cs| - 1].resources.limits, MEMORY);
      if q > before then q else before
  }

  function WithMemory(r: Resources, extra: int): Resources {
    if extra == 0 then r
    else Resources(AddList(r.requests, map[MEMORY := extra]), AddList(r.limits, map[MEMORY := extra]))
  }

  function WorkerResources(cri: bool, cs: seq<Config>): Resources {
    if cri then WithMemory(WithMemory(Sum(cs), MaxMemory(cs)), CRI_OVERHEAD) else Sum(cs)
  }

  /** The budget of a Worker: every resource of its Slots, and for CRI the memory of the largest Slot
      plus 2Gi on top. */
  lemma WorkerBudget(cri: bool, cs: seq<Config>, limits: bool, name: string)
    ensures Amount(Part(WorkerResources(cri, cs), limits), name) ==
      Total(cs, limits, name) + if cri && name == "memory" then MaxMemory(cs) + 2 * 1024 * 1024 * 1024 else 0
  {
    SumIsTotal(cs, limits, name);
  }

  lemma {:induction false} MaxMemoryIsMax(cs: seq<Config>)
    ensures forall c :: c in cs ==> Amount(c.resources.limits, MEMORY) <= MaxMemory(cs)
    ensures MaxMemory(cs) == 0 || exists c :: c in cs && Amount(c.resources.limits, MEMORY) == MaxMemory(cs)
  {
    if cs != [] {
      MaxMemoryIsMax(cs[..|cs| - 1]);
      assert cs == cs[..|cs| - 1] + [cs[|cs| - 1]];
    }
  }

  lemma WorkerCoversItsSlots(cri: bool, cs: seq<Config>)
    ensures Enough(WorkerResources(cri, cs), Sum(cs))
  {
  }

  // ---------------------------------------------------------------- new Slots and the fallback

  function ExistingOnly(current: seq<Config>, proposed: seq<Config>): seq<Config> {
    if proposed == [] then []
    else
      var last := proposed[|proposed| - 1];
      ExistingOnly(current, proposed[..|proposed| - 1]) + if last.id in Ids(current) then [last] else []
  }

  /** What CountNewSlots counts. */
  function NewIds(current: seq<Config>, proposed: seq<Config>): set<SlotID> {
    Ids(proposed) - Ids(current)
  }

  /** The Slots a Worker would have to make. */
  function NewSlots(current: seq<Config>, proposed: seq<Config>): set<Config> {
    set c | c in proposed && c !in current
  }

  lemma {:induction false} ExistingOnlyElements(current: seq<Config>, proposed: seq<Config>)
    ensures forall c :: c in ExistingOnly(current, proposed) <==> c in proposed && c.id in Ids(current)
    ensures DistinctIds(proposed) ==> DistinctIds(ExistingOnly(current, proposed))
  {
    if proposed != [] {
      var front, last := proposed[..|proposed| - 1], proposed[|proposed| - 1];
      ExistingOnlyElements(current, front);
      assert proposed == front + [last];
      if DistinctIds(proposed) {
        DistinctFront(proposed);
        DistinctSnoc(ExistingOnly(current, front), last);
      }
    }
  }

  /** The IDs of some configurations, counted. */
  lemma {:induction false} IdsOfSet(s: set<Config>)
    requires forall a, b :: a in s && b in s && a.id == b.id ==> a == b
    ensures |set c | c in s :: c.id| == |s|
  {
    var ids := set c | c in s :: c.id;
    if s != {} {
      var c :| c in s;
      var rest := set d | d in s - {c} :: d.id;
      IdsOfSet(s - {c});
      assert ids == rest + {c.id};
      assert c.id !in rest;
    }
  }

  /** The Slots with an ID that is not in use yet. */
  function FreshSlots(current: seq<Config>, proposed: seq<Config>): set<Config> {
    set c | c in proposed && c.id !in Ids(current)
  }

  lemma FreshSlotsCounted(current: seq<Config>, proposed: seq<Config>)
    requires DistinctIds(proposed)
    ensures |FreshSlots(current, proposed)| == |NewIds(current, proposed)|
  {
    var fresh' := FreshSlots(current, proposed);
    assert forall a, b :: a in proposed && b in proposed && a.id == b.id ==> a == b;
    IdsOfSet(fresh');
    assert (set c | c in fresh' :: c.id) == NewIds(current, proposed);
  }

  lemma FreshIffNotCrossing(current: seq<Config>, proposed: seq<Config>)
    requires DistinctIds(current)
    ensures FreshSlots(current, proposed) <= NewSlots(current, proposed)
    ensures FreshSlots(current, proposed) == NewSlots(current, proposed) <==> !Crosses(current, proposed)
  {
    if Crosses(current, proposed) {
      var a, b :| a in current && b in proposed && a.id == b.id && a != b;
      assert b in NewSlots(current, proposed) && b !in FreshSlots(current, proposed);
    } else {
      forall c | c in NewSlots(current, proposed) ensures c in FreshSlots(current, proposed) {
        assert forall a :: a in current ==> a.id != c.id || a == c;
      }
    }
  }

  lemma SameSizeSubset<T>(a: set<T>, b: set<T>)
    requires a <= b
    ensures |a| <= |b| && (|a| == |b| <==> a == b)
  {
    assert b == a + (b - a);
  }

  /** CountNewSlots counts the Slots that have to be made exactly when no ID changes its
      configuration; otherwise it misses some. */
  lemma CountExactIffNotCrossing(current: seq<Config>, proposed: seq<Config>)
    requires DistinctIds(current) && DistinctIds(proposed)
    ensures |NewIds(current, proposed)| <= |NewSlots(current, proposed)|
    ensures |NewIds(current, proposed)| == |NewSlots(current, proposed)| <==> !Crosses(current, proposed)
  {
    FreshSlotsCounted(current, proposed);
    FreshIffNotCrossing(current, proposed);
    SameSizeSubset(FreshSlots(current, proposed), NewSlots(current, proposed));
  }

  // ---------------------------------------------------------------- one template across reconciles

  datatype WorkerPod = WorkerPod(containers: seq<Resources>)

  /** The layout recorded in the status, the resources in the StatefulSet's Pod template, the Pods. */
  datatype Pool = Pool(applied: seq<Config>, template: Option<Resources>, pods: seq<WorkerPod>)

  predicate PodFits(pod: WorkerPod, need: Resources) {
    |pod.containers| > 0 && Enough(pod.containers[0], need)
  }

  /** workersCanFit. */
  predicate CanFit(pods: seq<WorkerPod>, need: Resources) {
    forall pod :: pod in pods ==> PodFits(pod, need)
  }

  /** The layout that is pushed: the plan, or without its new Slots if some Pod has no headroom. */
  function Chosen(p: Pool, proposed: seq<Config>): seq<Config> {
    if NewIds(p.applied, proposed) != {} && !CanFit(p.pods, Sum(proposed)) then ExistingOnly(p.applied, proposed)
      else proposed
  }

  /** After one reconcile of the template. The layout is recorded only if every push succeeded; the
      Pod template is written either way. */
  function Synced(p: Pool, cri: bool, proposed: seq<Config>, pushed: bool): Pool {
    var next := Chosen(p, proposed);
    p.(applied := if pushed then next else p.applied, template := Some(WorkerResources(cri, next)))
  }

  /** What is promised: every Pod, and every Pod still to be built, has room for the layout. */
  ghost predicate NoOvercommit(p: Pool) {
    && CanFit(p.pods, Sum(p.applied))
    && (p.template.Some? ==> Enough(p.template.value, Sum(p.applied)))
  }

  lemma WithoutNewIdsSubset(current: seq<Config>, proposed: seq<Config>, c: Config)
    requires !Crosses(current, proposed) && c in proposed && c.id in Ids(current)
    ensures c in current
  {
    var a :| a in current && a.id == c.id;
  }

  /** Unless an ID crosses, the chosen layout fits every Pod that has room for the current one. */
  lemma ChosenFits(p: Pool, proposed: seq<Config>)
    requires DistinctIds(proposed) && NonNegative(p.applied) && !Crosses(p.applied, proposed)
    requires CanFit(p.pods, Sum(p.applied))
    ensures CanFit(p.pods, Sum(Chosen(p, proposed)))
  {
    var next := Chosen(p, proposed);
    if NewIds(p.applied, proposed) == {} || !CanFit(p.pods, Sum(proposed)) {
      ExistingOnlyElements(p.applied, proposed);
      forall c | c in next ensures c in p.applied {
        assert c in proposed;
        assert NewIds(p.applied, proposed) == {} ==> c.id !in NewIds(p.applied, proposed) && c.id in Ids(proposed);
        WithoutNewIdsSubset(p.applied, proposed, c);
      }
      forall pod | pod in p.pods ensures PodFits(pod, Sum(next)) {
        assert PodFits(pod, Sum(p.applied));
        EnoughForSubset(pod.containers[0], next, p.applied);
      }
    }
  }

  /** One reconcile keeps the promise if no ID crosses and every push succeeds. */
  lemma SyncKeepsPromise(p: Pool, cri: bool, proposed: seq<Config>)
    requires DistinctIds(proposed) && NonNegative(p.applied) && !Crosses(p.applied, proposed) && NoOvercommit(p)
    ensures NoOvercommit(Synced(p, cri, proposed, true))
  {
    ChosenFits(p, proposed);
    WorkerCoversItsSlots(cri, Chosen(p, proposed));
  }

  /** A Pod built for one layout has room for another: no resource of the other needs more than the
      one has, counting what a CRI Worker gets on top; a resource a Pod was not given at all may only
      be needed at zero. */
  ghost predicate RoomFor(cri: bool, built: seq<Config>, cs: seq<Config>) {
    forall limits, name :: Occurs(cs, limits, name) ==> RoomForOne(cri, built, cs, limits, name)
  }

  function OnTop(cri: bool, built: seq<Config>, name: string): int {
    if cri && name == MEMORY then MaxMemory(built) + CRI_OVERHEAD else 0
  }

  predicate RoomForOne(cri: bool, built: seq<Config>, cs: seq<Config>, limits: bool, name: string) {
    if Occurs(built, limits, name) || (cri && name == MEMORY)
    then Total(cs, limits, name) <= Total(built, limits, name) + OnTop(cri, built, name)
    else Total(cs, limits, name) == 0
  }

  lemma BudgetNames(cri: bool, built: seq<Config>, limits: bool, name: string)
    ensures name in Part(WorkerResources(cri, built), limits) <==>
      Occurs(built, limits, name) || (cri && name == MEMORY)
  {
    SumIsTotal(built, limits, name);
  }

  lemma RoomForName(cri: bool, built: seq<Config>, cs: seq<Config>, limits: bool, name: string)
    requires name in Part(Sum(cs), limits)
    ensures var have, need := Part(WorkerResources(cri, built), limits), Part(Sum(cs), limits);
      (if name in have then have[name] >= need[name] else need[name] == 0) <==> RoomForOne(cri, built, cs, limits, name)
  {
    hide WorkerResources, Sum, Occurs;
    BudgetNames(cri, built, limits, name);
    WorkerBudget(cri, built, limits, name);
    SumIsTotal(cs, limits, name);
  }

  /** What a Pod built for one layout covers, in terms of the two layouts alone. */
  lemma BuiltForIff(cri: bool, built: seq<Config>, cs: seq<Config>)
    ensures Enough(WorkerResources(cri, built), Sum(cs)) <==> RoomFor(cri, built, cs)
  {
    hide WorkerResources, Sum, RoomForOne;
    forall limits, name ensures Occurs(cs, limits, name) <==> name in Part(Sum(cs), limits) {
      SumIsTotal(cs, limits, name);
    }
    forall limits, name | Occurs(cs, limits, name)
      ensures var have, need := Part(WorkerResources(cri, built), limits), Part(Sum(cs), limits);
        (if name in have then have[name] >= need[name] else need[name] == 0) <==>
          RoomForOne(cri, built, cs, limits, name)
    {
      RoomForName(cri, built, cs, limits, name);
    }
    var have, need := WorkerResources(cri, built), Sum(cs);
    assert Part(need, false) == need.requests && Part(need, true) == need.limits;
    assert Part(have, false) == have.requests && Part(have, true) == have.limits;
  }

  /** After a failed push the template is already the one of the layout that was not pushed: the
      promise then holds exactly when that layout needs no less of any resource than the recorded one,
      up to the memory a CRI Worker gets on top. */
  lemma FailedPushKeepsPromiseIff(p: Pool, cri: bool, proposed: seq<Config>)
    requires NoOvercommit(p)
    ensures NoOvercommit(Synced(p, cri, proposed, false)) <==> RoomFor(cri, Chosen(p, proposed), p.applied)
  {
    BuiltForIff(cri, Chosen(p, proposed), p.applied);
    hide RoomFor, WorkerResources, Sum, Enough, Chosen, PodFits;
  }

  /** So a failed push costs nothing while the layout only grows. */
  lemma GrowingPushKeepsPromise(p: Pool, cri: bool, proposed: seq<Config>)
    requires NoOvercommit(p) && DistinctIds(p.applied) && NonNegative(proposed)
    requires forall c :: c in p.applied ==> c in proposed
    ensures NoOvercommit(Synced(p, cri, proposed, false))
  {
    hide Sum, WorkerResources;
    var next := Chosen(p, proposed);
    ExistingOnlyElements(p.applied, proposed);
    forall c | c in p.applied ensures c in next { assert c.id in Ids(p.applied); }
    forall c | c in next ensures c in proposed {}
    WorkerCoversItsSlots(cri, next);
    EnoughForSubset(WorkerResources(cri, next), p.applied, next);
  }

  // ---------------------------------------------------------------- runs

  datatype Step =
    | Reconciled(r: Request, names: seq<string>, order: seq<string>)
    | PodBuilt
    | PodGone(index: nat)

  /** What happens to the Pods of a template: a reconcile with whatever counts and busy Slots, a Pod
      built from the template, a Pod deleted. Profile resources stay what they are. */
  ghost predicate PoolStep(p: Pool, cri: bool, profiles: Profiles, step: Step, p': Pool) {
    match step
    case Reconciled(r, names, order) =>
      && r.current == p.applied && r.profiles == profiles && r.CountsLegal()
      && IsProfileOrder(names, order, r.counts, Present(r.current)) && OrderCovers(order, r.counts)
      && !FreedIdReached(r, names)
      && p' == Synced(p, cri, PlanOf(r, names).slots, true)
    case PodBuilt => p.template.Some? && p' == p.(pods := p.pods + [WorkerPod([p.template.value])])
    case PodGone(i) => i < |p.pods| && p' == p.(pods := p.pods[..i] + p.pods[i + 1..])
  }

  ghost predicate PoolInv(p: Pool, profiles: Profiles) {
    && DistinctIds(p.applied) && NoOvercommit(p)
    && forall c :: c in p.applied ==> c.profile in profiles && c.resources == profiles[c.profile]
  }

  predicate ProfilesNonNegative(profiles: Profiles) {
    forall name :: name in profiles ==>
      NonNegativeList(profiles[name].requests) && NonNegativeList(profiles[name].limits)
  }

  lemma PlanUsesProfiles(r: Request, names: seq<string>, order: seq<string>, c: Config)
    requires DistinctIds(r.current) && r.CountsLegal()
    requires IsProfileOrder(names, order, r.counts, Present(r.current)) && OrderCovers(order, r.counts)
    requires forall c :: c in r.current ==> c.profile in r.profiles && c.resources == r.profiles[c.profile]
    requires c in PlanOf(r, names).slots
    ensures c.profile in r.profiles && c.resources == r.profiles[c.profile]
  {
    PlanMeetsSpec(r, order, names);
    hide PlanOf, IsProfileOrder;
    assert ProfileDone(r, PlanOf(r, names).slots, c.profile);
  }

  lemma ReconcileKeeps(p: Pool, cri: bool, profiles: Profiles, step: Step, p': Pool)
    requires ProfilesNonNegative(profiles) && PoolInv(p, profiles) && step.Reconciled? &&
      PoolStep(p, cri, profiles, step, p')
    ensures PoolInv(p', profiles)
  {
    hide FreedIdReached, IsProfileOrder, OrderCovers;
    var r, names, order := step.r, step.names, step.order;
    var proposed := PlanOf(r, names).slots;
    PlanMeetsSpec(r, order, names);
    CrossesIffFreedIdReached(r, order, names);
    SyncKeepsPromise(p, cri, proposed);
    ExistingOnlyElements(p.applied, proposed);
    forall c | c in p'.applied ensures c.profile in profiles && c.resources == profiles[c.profile] {
      PlanUsesProfiles(r, names, order, c);
    }
    hide PlanOf, NoOvercommit, Sum;
  }

  lemma PoolStepKeeps(p: Pool, cri: bool, profiles: Profiles, step: Step, p': Pool)
    requires ProfilesNonNegative(profiles) && PoolInv(p, profiles) && PoolStep(p, cri, profiles, step, p')
    ensures PoolInv(p', profiles)
  {
    match step
    case Reconciled(_, _, _) => ReconcileKeeps(p, cri, profiles, step, p');
    case PodBuilt =>
      hide Enough, Sum;
      assert PodFits(WorkerPod([p.template.value]), Sum(p.applied));
    case PodGone(i) =>
      hide PodFits, Sum;
      forall pod | pod in p'.pods ensures pod in p.pods {}
  }

  /** No overcommit across reconciles: in every run every Worker Pod has room for the whole recorded
      layout, whichever plans, fallbacks and newly built Pods it went through. */
  lemma {:induction false} NeverOvercommitted(pools: seq<Pool>, steps: seq<Step>, cri: bool, profiles: Profiles, n: nat)
    requires |pools| == |steps| + 1 && n < |pools| && ProfilesNonNegative(profiles)
    requires pools[0] == Pool([], None, [])
    requires forall i :: 0 <= i < |steps| ==> PoolStep(pools[i], cri, profiles, steps[i], pools[i + 1])
    ensures PoolInv(pools[n], profiles)
    decreases n
  {
    hide PoolStep, ProfilesNonNegative;
    if n > 0 {
      NeverOvercommitted(pools, steps, cri, profiles, n - 1);
      PoolStepKeeps(pools[n - 1], cri, profiles, steps[n - 1], pools[n]);
    }
  }

  // ---------------------------------------------------------------- what a crossing ID does

  /** Pods built for these layouts, one each, have room for another. */
  ghost predicate AllRoom(cri: bool, built: seq<seq<Config>>, cs: seq<Config>) {
    forall i :: 0 <= i < |built| ==> RoomFor(cri, built[i], cs)
  }

  ghost predicate BuiltFor(p: Pool, cri: bool, built: seq<seq<Config>>) {
    |built| == |p.pods| && forall i :: 0 <= i < |built| ==> p.pods[i] == WorkerPod([WorkerResources(cri, built[i])])
  }

  lemma FitIffAllRoom(p: Pool, cri: bool, built: seq<seq<Config>>, cs: seq<Config>)
    requires BuiltFor(p, cri, built)
    ensures CanFit(p.pods, Sum(cs)) <==> AllRoom(cri, built, cs)
  {
    hide RoomFor, WorkerResources, Sum, Enough;
    forall i | 0 <= i < |built| ensures PodFits(p.pods[i], Sum(cs)) <==> RoomFor(cri, built[i], cs) {
      BuiltForIff(cri, built[i], cs);
    }
    hide PodFits;
    if CanFit(p.pods, Sum(cs)) {
      forall i | 0 <= i < |built| ensures RoomFor(cri, built[i], cs) { assert p.pods[i] in p.pods; }
    }
  }

  /** What a push of any proposal, its fallback included, does to Pods built for whatever layouts: the
      promise is kept exactly when all of them have room for the proposal, or the proposal has new IDs
      and all of them have room for what is left of it without those. */
  lemma PushKeepsPromiseIff(p: Pool, cri: bool, built: seq<seq<Config>>, proposed: seq<Config>)
    requires BuiltFor(p, cri, built)
    ensures NoOvercommit(Synced(p, cri, proposed, true)) <==>
      AllRoom(cri, built, proposed) ||
        (NewIds(p.applied, proposed) != {} && AllRoom(cri, built, ExistingOnly(p.applied, proposed)))
  {
    WorkerCoversItsSlots(cri, Chosen(p, proposed));
    FitIffAllRoom(p, cri, built, proposed);
    FitIffAllRoom(p, cri, built, ExistingOnly(p.applied, proposed));
    hide AllRoom, WorkerResources, Sum, Enough, ExistingOnly, NewIds, CanFit;
  }

  function OneProfile(memory: int): Resources {
    Resources(map[], map[MEMORY := memory])
  }

  /** Two Slots of a, of which one is wanted, and one Slot of b wanted. */
  predicate IsSwap(r: Request) {
    && |r.current| == 2 && r.current[0].id == 0 && r.current[1].id == 1
    && r.current[0].profile == "a" && r.current[1].profile == "a"
    && r.counts == map["a" := 1, "b" := 1] && r.profiles.Keys == {"a", "b"} && r.busy == {}
  }

  lemma SwapPlanFor(r: Request, order: seq<string>)
    requires IsSwap(r) && DistinctIds(r.current) && r.CountsLegal() && FreedIdReached(r, order)
    requires IsProfileOrder(order, order, r.counts, Present(r.current)) && OrderCovers(order, r.counts)
    ensures PlanOf(r, order).slots == [r.current[0], Config(1, "b", r.profiles["b"])]
  {
    hide PlanOf, IsProfileOrder, OrderCovers, MeetsSpec, FreedIdReached, Crosses, DistinctIds;
    PlanMeetsSpec(r, order, order);
    CrossesIffFreedIdReached(r, order, order);
    SwapSlots(r, PlanOf(r, order));
  }

  /** Profile a gives up ID 1 and b takes it. */
  lemma SwapPlan(small: Resources, large: Resources)
    ensures var r := FreedIdExample(small, large);
      && IsProfileOrder(["a", "b"], ["a", "b"], r.counts, Present(r.current)) && OrderCovers(["a", "b"], r.counts)
      && PlanOf(r, ["a", "b"]).slots == [Config(0, "a", small), Config(1, "b", large)]
  {
    hide PlanOf, IsProfileOrder, FreedIdReached;
    var r := FreedIdExample(small, large);
    assert OrderCovers(["a", "b"], r.counts);
    CompleteOrder(["a", "b"], r.counts, Present(r.current));
    FreedIdReachedInExample(small, large);
    SwapPlanFor(r, ["a", "b"]);
  }

  lemma SwapKeeps(r: Request, c0: Config, c1: Config)
    requires IsSwap(r) && r.current == [c0, c1]
    ensures Keeps(r, c0) && !Keeps(r, c1)
    ensures ProfileSet(r.current, "a") == {c0, c1} && ProfileSet(r.current, "b") == {}
  {
    assert Lower(r.current, c1) == {c0} && Lower(r.current, c0) == {};
  }

  lemma SwapSlots(r: Request, plan: Plan)
    requires IsSwap(r) && MeetsSpec(r, plan) && Crosses(r.current, plan.slots)
    ensures plan.slots == [r.current[0], Config(1, "b", r.profiles["b"])]
  {
    hide BlockedAt, Keeps;
    var slots := plan.slots;
    var c0, c1 := r.current[0], r.current[1];
    assert r.current == [c0, c1];
    SwapKeeps(r, c0, c1);
    var d := Config(1, "b", r.profiles["b"]);
    forall c | c in slots ensures c == c0 || c.profile == "b" {
      assert ProfileDone(r, slots, c.profile);
    }
    assert ProfileDone(r, slots, "a") && ProfileDone(r, slots, "b");
    assert c0 in slots && c1 !in slots && |ProfileSet(slots, "b")| == 1;
    var b :| b in slots && b !in r.current && b.id in {0, 1};
    assert b == d;
    hide ProfileDone, MeetsSpec;
    forall c | c in slots ensures c == c0 || c == d {
      if c != c0 {
        OnlyOne(ProfileSet(slots, "b"), c, d);
      }
    }
    SortedUnique(slots, [c0, d]);
  }

  /** A Pod that has room for `have` only. */
  function Tight(cs: seq<Config>): Pool {
    Pool(cs, Some(Sum(cs)), [WorkerPod([Sum(cs)])])
  }

  lemma TightFits(cs: seq<Config>)
    ensures NoOvercommit(Tight(cs))
  {
    hide Sum;
  }

  /** A layout of more memory has no room in Pods built for one of less. */
  lemma LessMemory(built: seq<Config>, cs: seq<Config>, less: int, more: int)
    requires Sum(built).limits == map[MEMORY := less] && Sum(cs).limits == map[MEMORY := more] && less < more
    ensures !RoomFor(false, built, cs)
  {
    hide Sum;
    BuiltForIff(false, built, cs);
    assert MEMORY in Sum(cs).limits && Sum(built).limits[MEMORY] < Sum(cs).limits[MEMORY];
  }

  lemma TightTooSmall(before: seq<Config>, after: seq<Config>)
    requires NewIds(before, after) == {}
    requires Sum(before).limits == map[MEMORY := 2] && Sum(after).limits == map[MEMORY := 6]
    ensures !NoOvercommit(Synced(Tight(before), false, after, true))
  {
    hide Sum;
    LessMemory(before, after, 2, 6);
    assert BuiltFor(Tight(before), false, [before]);
    PushKeepsPromiseIff(Tight(before), false, [before], after);
    hide RoomFor, NoOvercommit, Synced, BuiltFor;
    assert [before][0] == before;
  }

  lemma TightInv(r: Request)
    requires r == FreedIdExample(OneProfile(1), OneProfile(5))
    ensures PoolInv(Tight(r.current), r.profiles) && ProfilesNonNegative(r.profiles) && r.CountsLegal()
  {
    TightFits(r.current);
    hide Sum, NoOvercommit, Tight;
    TightApplied(r.current);
  }

  lemma TightApplied(cs: seq<Config>)
    ensures Tight(cs).applied == cs
  {
  }

  lemma SwapOvercommits(before: seq<Config>, after: seq<Config>)
    requires |before| == 2 && before[0].id == 0 && before[1].id == 1
    requires before[0].resources == OneProfile(1) && before[1].resources == OneProfile(1)
    requires |after| == 2 && after[0].id == 0 && after[1].id == 1
    requires after[0].resources == OneProfile(1) && after[1].resources == OneProfile(5)
    ensures !NoOvercommit(Synced(Tight(before), false, after, true))
  {
    SwapSums(before, after);
    hide Sum, NoOvercommit, Tight, Synced;
    assert before[0] in before && before[1] in before;
    TightTooSmall(before, after);
  }

  /** So a plan can overcommit: b, five times as large, takes over a freed ID of a, nothing counts as
      new, no headroom is checked, and a Pod that had exactly enough has too little. */
  lemma CrossingOvercommits()
    ensures var r := FreedIdExample(OneProfile(1), OneProfile(5)); var names := ["a", "b"];
      && PoolInv(Tight(r.current), r.profiles) && ProfilesNonNegative(r.profiles) && r.CountsLegal()
      && IsProfileOrder(names, names, r.counts, Present(r.current)) && OrderCovers(names, r.counts)
      && !NoOvercommit(Synced(Tight(r.current), false, PlanOf(r, names).slots, true))
  {
    var small, large := OneProfile(1), OneProfile(5);
    var r := FreedIdExample(small, large);
    SwapPlan(small, large);
    TightInv(r);
    var after := [Config(0, "a", small), Config(1, "b", large)];
    SwapOvercommits(r.current, after);
    hide PlanOf, IsProfileOrder, OrderCovers, NoOvercommit, Tight, Synced, PoolInv, ProfilesNonNegative;
  }

  lemma SwapSums(before: seq<Config>, after: seq<Config>)
    requires |before| == 2 && before[0].resources == OneProfile(1) && before[1].resources == OneProfile(1)
    requires |after| == 2 && after[0].resources == OneProfile(1) && after[1].resources == OneProfile(5)
    ensures Sum(before).limits == map[MEMORY := 2] && Sum(after).limits == map[MEMORY := 6]
  {
    SumOfTwo(before);
    SumOfTwo(after);
  }

  lemma SumOfTwo(cs: seq<Config>)
    requires |cs| == 2 && cs[0].resources.limits.Keys == {MEMORY} && cs[1].resources.limits.Keys == {MEMORY}
    ensures Sum(cs).limits == map[MEMORY := cs[0].resources.limits[MEMORY] + cs[1].resources.limits[MEMORY]]
  {
    var front := cs[..1];
    assert front[..0] == [] && front[0] == cs[0];
    assert Sum(front).limits == cs[0].resources.limits;
  }

  // ---------------------------------------------------------------- what a failed push does

  /** Two Slots of a, of which one is wanted. */
  function ShrinkExample(res: Resources): Request {
    Request([Config(0, "a", res), Config(1, "a", res)], map["a" := 1], map["a" := res], {})
  }

  lemma ShrinkSlots(res: Resources, plan: Plan)
    requires MeetsSpec(ShrinkExample(res), plan)
    ensures plan.slots == [Config(0, "a", res)]
  {
    hide BlockedAt;
    var r := ShrinkExample(res);
    var slots, c0, c1 := plan.slots, r.current[0], r.current[1];
    assert Lower(r.current, c1) == {c0} && Lower(r.current, c0) == {};
    assert Keeps(r, c0) && !Keeps(r, c1);
    assert ProfileSet(r.current, "a") == {c0, c1};
    assert ProfileDone(r, slots, "a");
    forall c | c in slots ensures c == c0 {
      assert ProfileDone(r, slots, c.profile);
    }
    hide ProfileDone, MeetsSpec;
    SortedUnique(slots, [c0]);
  }

  /** The wanted count falls from two to one and a push fails: the recorded layout keeps both Slots,
      while the next Pod is built for one. */
  lemma FailedPushOvercommits()
    ensures var r := ShrinkExample(OneProfile(1)); var p := Tight(r.current);
      && PoolInv(p, r.profiles) && ProfilesNonNegative(r.profiles) && r.CountsLegal()
      && IsProfileOrder(["a"], ["a"], r.counts, Present(r.current)) && OrderCovers(["a"], r.counts)
      && PlanOf(r, ["a"]).slots == [r.current[0]]
      && !NoOvercommit(Synced(p, false, PlanOf(r, ["a"]).slots, false))
  {
    var r := ShrinkExample(OneProfile(1));
    hide PlanOf, IsProfileOrder, MeetsSpec, Sum;
    assert r.current[0].profile == "a" && Present(r.current) == {"a"};
    CompleteOrder(["a"], r.counts, Present(r.current));
    PlanMeetsSpec(r, ["a"], ["a"]);
    ShrinkSlots(OneProfile(1), PlanOf(r, ["a"]));
    TightFits(r.current);
    ShrunkTooSmall(r.current, [r.current[0]]);
    hide NoOvercommit, Synced, Tight;
    TightApplied(r.current);
  }

  lemma ShrunkTooSmall(before: seq<Config>, after: seq<Config>)
    requires |before| == 2 && before[0].resources == OneProfile(1) && before[1].resources == OneProfile(1)
    requires after == [before[0]]
    ensures !NoOvercommit(Synced(Tight(before), false, after, false))
  {
    SumOfTwo(before);
    assert after[..0] == [] && Sum(after).limits == map[MEMORY := 1];
    hide Sum;
    LessMemory(after, before, 1, 2);
    TightFits(before);
    assert NewIds(before, after) == {} by { assert before[0] in before; }
    hide RoomFor, NoOvercommit, Synced;
    FailedPushKeepsPromiseIff(Tight(before), false, after);
  }
}
