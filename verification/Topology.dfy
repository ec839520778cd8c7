/** internal/slot/config.go: the planner that turns desired Slot counts into a Slot layout. */
module Topology {
  import opened Base
  import opened GoStrings

  datatype Resources = Resources(requests: map<string, int>, limits: map<string, int>)

  const NO_RESOURCES := Resources(map[], map[])

  /** One Slot of a Worker: stable ID, profile name, fixed resources. */
  datatype Config = Config(id: SlotID, profile: string, resources: Resources)

  datatype Reason = UnknownProfile(profile: string) | BusySlot(id: SlotID, profile: string)

  datatype Plan = Plan(slots: seq<Config>, blocked: bool, reasons: seq<Reason>)

  type Counts = map<string, int>
  type Profiles = map<string, Resources>

  /** What one call of the planner is asked: current layout, wanted counts, known profiles, busy Slots. */
  datatype Request = Request(current: seq<Config>, counts: Counts, profiles: Profiles, busy: set<SlotID>)
  {
    /** A negative count would make the source slice out of range. */
    predicate CountsLegal() {
      forall p :: p in counts ==> counts[p] >= 0
    }

    function Desired(p: string): int {
      if p in counts then counts[p] else 0
    }

    predicate UnknownWanted(p: string) {
      p !in profiles && Desired(p) > 0
    }
  }

  // ---------------------------------------------------------------- layouts

  predicate DistinctIds(cs: seq<Config>) {
    forall i, j :: 0 <= i < j < |cs| ==> cs[i].id != cs[j].id
  }

  predicate StrictlySorted(cs: seq<Config>) {
    forall i, j :: 0 <= i < j < |cs| ==> cs[i].id < cs[j].id
  }

  function Ids(cs: seq<Config>): set<SlotID> {
    set c | c in cs :: c.id
  }

  function OfProfile(cs: seq<Config>, p: string): (r: seq<Config>) {
    if cs == [] then []
    else OfProfile(cs[..|cs| - 1], p) + if cs[|cs| - 1].profile == p then [cs[|cs| - 1]] else []
  }

  function InsertById(c: Config, s: seq<Config>): seq<Config> {
    if s == [] || c.id < s[0].id then [c] + s else [s[0]] + InsertById(c, s[1..])
  }

  /** sort.Slice by ID. For distinct IDs, the only case in use, any sort gives this result. */
  function SortById(cs: seq<Config>): seq<Config> {
    if cs == [] then [] else InsertById(cs[|cs| - 1], SortById(cs[..|cs| - 1]))
  }

  function BusyOf(cs: seq<Config>, busy: set<SlotID>): seq<Config> {
    if cs == [] then []
    else BusyOf(cs[..|cs| - 1], busy) + if cs[|cs| - 1].id in busy then [cs[|cs| - 1]] else []
  }

  function FreeOf(cs: seq<Config>, busy: set<SlotID>): set<SlotID> {
    set c | c in cs && c.id !in busy :: c.id
  }

  lemma {:induction false} InsertByIdElements(c: Config, s: seq<Config>)
    ensures forall x :: x in InsertById(c, s) <==> x == c || x in s
    ensures |InsertById(c, s)| == |s| + 1
  {
    if s != [] && c.id >= s[0].id {
      InsertByIdElements(c, s[1..]);
      assert s == [s[0]] + s[1..];
    }
  }

  lemma {:induction false} InsertByIdSorted(c: Config, s: seq<Config>)
    requires StrictlySorted(s) && c.id !in Ids(s)
    ensures StrictlySorted(InsertById(c, s))
  {
    if s != [] && c.id >= s[0].id {
      assert s[0] in s;
      assert Ids(s[1..]) <= Ids(s);
      InsertByIdSorted(c, s[1..]);
      InsertByIdElements(c, s[1..]);
      assert forall x :: x in InsertById(c, s[1..]) ==> s[0].id < x.id;
    }
  }

  lemma {:induction false} SortByIdElements(cs: seq<Config>)
    ensures forall c :: c in SortById(cs) <==> c in cs
    ensures |SortById(cs)| == |cs|
    ensures DistinctIds(cs) ==> StrictlySorted(SortById(cs))
  {
    hide DistinctIds, StrictlySorted, InsertById;
    if cs == [] {
      assert StrictlySorted([]) by { SortedSingleton(); }
    } else {
      var front, last := cs[..|cs| - 1], cs[|cs| - 1];
      SortByIdElements(front);
      assert cs == front + [last];
      InsertByIdElements(last, SortById(front));
      if DistinctIds(cs) {
        DistinctFront(cs);
        InsertByIdSorted(last, SortById(front));
      }
    }
  }

  lemma SortedSingleton()
    ensures StrictlySorted([])
  {
  }

  lemma DistinctFront(cs: seq<Config>)
    requires DistinctIds(cs) && cs != []
    ensures DistinctIds(cs[..|cs| - 1]) && cs[|cs| - 1].id !in Ids(cs[..|cs| - 1])
  {
  }

  lemma {:induction false} SortedUnique(a: seq<Config>, b: seq<Config>)
    requires StrictlySorted(a) && StrictlySorted(b)
    requires forall c :: c in a <==> c in b
    ensures a == b
  {
    assert a != [] ==> a[0] in b;
    assert b != [] ==> b[0] in a;
    if a != [] {
      assert a[0] == b[0];
      forall c ensures c in a[1..] <==> c in b[1..] {
        if c in a[1..] { assert c in b && c != b[0]; }
        if c in b[1..] { assert c in a && c != a[0]; }
      }
      SortedUnique(a[1..], b[1..]);
    }
  }

  lemma {:induction false} OfProfileElements(cs: seq<Config>, p: string)
    ensures forall c :: c in OfProfile(cs, p) <==> c in cs && c.profile == p
    ensures DistinctIds(cs) ==> DistinctIds(OfProfile(cs, p))
  {
    if cs != [] {
      var front := cs[..|cs| - 1];
      OfProfileElements(front, p);
      assert cs == front + [cs[|cs| - 1]];
    }
  }

  lemma {:induction false} BusyOfMembers(cs: seq<Config>, busy: set<SlotID>)
    ensures forall c :: c in BusyOf(cs, busy) <==> c in cs && c.id in busy
    ensures |BusyOf(cs, busy)| <= |cs|
  {
    if cs != [] {
      BusyOfMembers(cs[..|cs| - 1], busy);
      assert cs == cs[..|cs| - 1] + [cs[|cs| - 1]];
    }
  }

  lemma {:induction false} BusyOfSorted(cs: seq<Config>, busy: set<SlotID>)
    requires StrictlySorted(cs)
    ensures StrictlySorted(BusyOf(cs, busy))
  {
    if cs != [] {
      var front, last := cs[..|cs| - 1], cs[|cs| - 1];
      BusyOfSorted(front, busy);
      BusyOfMembers(front, busy);
      forall c | c in BusyOf(front, busy) ensures c.id < last.id { assert c in front; }
    }
  }

  lemma BusyOfElements(cs: seq<Config>, busy: set<SlotID>)
    ensures forall c :: c in BusyOf(cs, busy) <==> c in cs && c.id in busy
    ensures StrictlySorted(cs) ==> StrictlySorted(BusyOf(cs, busy))
    ensures |BusyOf(cs, busy)| <= |cs|
  {
    hide StrictlySorted;
    BusyOfMembers(cs, busy);
    if StrictlySorted(cs) {
      BusyOfSorted(cs, busy);
    }
  }

  // ---------------------------------------------------------------- the plan as a function

  ghost function LeastFrom(used: set<SlotID>, k: nat): (id: nat)
    ensures id !in used && k <= id
    ensures forall i :: k <= i < id ==> i in used
    decreases |set x | x in used && x >= k|
  {
    if k !in used then k
    else
      assert (set x | x in used && x >= k + 1) == (set x | x in used && x >= k) - {k};
      LeastFrom(used, k + 1)
  }

  /** The least ID not in use, what the hole search of the planner is for. */
  ghost function LeastFree(used: set<SlotID>): nat {
    LeastFrom(used, 0)
  }

  /** Pigeonhole: the least free ID is at most the number of IDs in use. */
  lemma LeastFreeBound(used: set<SlotID>)
    ensures LeastFree(used) <= |used|
  {
    Pigeonhole(used, LeastFree(used));
  }

  datatype PlanState = PlanState(
    groups: map<string, seq<Config>>,
    used: set<SlotID>,
    next: seq<Config>,
    reasons: seq<Reason>)

  function GroupOf(groups: map<string, seq<Config>>, p: string): seq<Config> {
    if p in groups then groups[p] else []
  }

  function Grouped(current: seq<Config>, p: string): seq<Config> {
    SortById(OfProfile(current, p))
  }

  ghost function GroupsOf(current: seq<Config>): map<string, seq<Config>> {
    map p | p in (set c | c in current :: c.profile) :: Grouped(current, p)
  }

  function BusyReasons(kept: seq<Config>): seq<Reason> {
    seq(|kept|, i requires 0 <= i < |kept| => BusySlot(kept[i].id, kept[i].profile))
  }

  /** `n` new Slots of one profile, each taking the least ID free at its turn. */
  ghost function Fresh(used: set<SlotID>, p: string, res: Resources, n: nat): (r: seq<Config>)
    ensures |r| == n
    decreases n
  {
    if n == 0 then []
    else
      var earlier := Fresh(used, p, res, n - 1);
      earlier + [Config(LeastFree(used + Ids(earlier)), p, res)]
  }

  /** One turn of the profile loop. The in-place filter leaves its result at the front of the group. */
  ghost function PlanProfile(r: Request, st: PlanState, p: string): PlanState
    requires r.CountsLegal()
  {
    var desired := r.Desired(p);
    var existing := GroupOf(st.groups, p);
    if r.UnknownWanted(p) then
      st.(next := st.next + existing, reasons := st.reasons + [UnknownProfile(p)])
    else if |existing| > desired then
      var above := BusyOf(existing[desired..], r.busy);
      BusyOfElements(existing[desired..], r.busy);
      var kept := existing[..desired] + above;
      st.(groups := st.groups[p := SortById(kept) + existing[|kept|..]],
          used := st.used - FreeOf(existing[desired..], r.busy),
          next := st.next + SortById(kept),
          reasons := st.reasons + BusyReasons(above))
    else
      var res := if p in r.profiles then r.profiles[p] else NO_RESOURCES;
      var added := Fresh(st.used, p, res, desired - |existing|);
      st.(used := st.used + Ids(added), next := st.next + existing + added)
  }

  ghost function PlanFold(r: Request, st: PlanState, names: seq<string>): PlanState
    requires r.CountsLegal()
    decreases |names|
  {
    if names == [] then st else PlanFold(r, PlanProfile(r, st, names[0]), names[1..])
  }

  ghost function InitialState(current: seq<Config>): PlanState {
    PlanState(GroupsOf(current), Ids(current), [], [])
  }

  /** The plan, profile by profile in the order `names`. */
  ghost function PlanOf(r: Request, names: seq<string>): Plan
    requires r.CountsLegal()
  {
    var st := PlanFold(r, InitialState(r.current), names);
    Plan(SortById(st.next), st.reasons != [], st.reasons)
  }

  // ---------------------------------------------------------------- what a plan promises

  function Lower(current: seq<Config>, c: Config): set<Config> {
    set x | x in current && x.profile == c.profile && x.id < c.id
  }

  /** How many Slots of the same profile have a smaller ID. */
  function Rank(current: seq<Config>, c: Config): nat {
    |Lower(current, c)|
  }

  function ProfileSet(cs: seq<Config>, p: string): set<Config> {
    set c | c in cs && c.profile == p
  }

  /** A current Slot survives iff it is among the lowest `desired` of its profile, or busy,
      or its profile is wanted but not defined. */
  predicate Keeps(r: Request, c: Config) {
    r.UnknownWanted(c.profile) || Rank(r.current, c) < r.Desired(c.profile) || c.id in r.busy
  }

  /** A busy Slot above the cut of its profile, or a wanted profile that is not defined. */
  ghost predicate BlockedAt(r: Request, p: string) {
    || r.UnknownWanted(p)
    || exists c :: c in r.current && c.profile == p && c.id in r.busy && Rank(r.current, c) >= r.Desired(p)
  }

  predicate Grows(r: Request, p: string) {
    p in r.profiles && |ProfileSet(r.current, p)| < r.Desired(p)
  }

  /** The declarative outcome for one profile. */
  ghost predicate ProfileDone(r: Request, next: seq<Config>, p: string) {
    && (forall c :: c in r.current && c.profile == p ==> (c in next <==> Keeps(r, c)))
    && (forall c :: c in next && c.profile == p && c !in r.current ==>
          Grows(r, p) && c.resources == r.profiles[p] && c.id >= 0)
    && (!r.UnknownWanted(p) && |ProfileSet(r.current, p)| <= r.Desired(p) ==>
          |ProfileSet(next, p)| == r.Desired(p))
  }

  lemma {:induction false} DistinctCardinality(cs: seq<Config>)
    requires DistinctIds(cs)
    ensures |set c | c in cs| == |cs|
  {
    if cs != [] {
      var front := cs[..|cs| - 1];
      var last := cs[|cs| - 1];
      DistinctCardinality(front);
      assert cs == front + [last];
      assert last !in front;
      assert (set c | c in cs) == (set c | c in front) + {last};
    }
  }

  lemma GroupedProperties(current: seq<Config>, p: string)
    requires DistinctIds(current)
    ensures StrictlySorted(Grouped(current, p))
    ensures forall c :: c in Grouped(current, p) <==> c in current && c.profile == p
    ensures |ProfileSet(current, p)| == |Grouped(current, p)|
  {
    OfProfileElements(current, p);
    SortByIdElements(OfProfile(current, p));
    DistinctCardinality(Grouped(current, p));
    assert ProfileSet(current, p) == set c | c in Grouped(current, p);
  }

  /** In a sorted group the position of a Slot is its rank. */
  lemma RankIsPosition(current: seq<Config>, p: string, i: nat)
    requires DistinctIds(current) && i < |Grouped(current, p)|
    ensures Rank(current, Grouped(current, p)[i]) == i
  {
    GroupedProperties(current, p);
    var e := Grouped(current, p);
    DistinctCardinality(e[..i]);
    assert Lower(current, e[i]) == set c | c in e[..i] by {
      forall c ensures c in Lower(current, e[i]) <==> c in e[..i] {
        assert e[i] in e;
        if c in Lower(current, e[i]) { assert c in e; }
        if c in e[..i] { assert c in e; }
      }
    }
  }

  /** A list in which every element stands at its rank is cut by rank. */
  lemma CutByRank(current: seq<Config>, e: seq<Config>, d: nat, c: Config)
    requires d <= |e| && forall i :: 0 <= i < |e| ==> Rank(current, e[i]) == i
    ensures c in e[..d] <==> c in e && Rank(current, c) < d
    ensures c in e[d..] <==> c in e && Rank(current, c) >= d
  {
    hide Rank;
    if c in e {
      var i :| 0 <= i < |e| && e[i] == c;
      if i < d { assert e[..d][i] == c; } else { assert e[d..][i - d] == c; }
    }
  }

  lemma CutIsRank(current: seq<Config>, p: string, d: nat)
    requires DistinctIds(current) && d <= |Grouped(current, p)|
    ensures forall c :: c in Grouped(current, p)[..d] <==> c in current && c.profile == p && Rank(current, c) < d
    ensures forall c :: c in Grouped(current, p)[d..] <==> c in current && c.profile == p && Rank(current, c) >= d
  {
    hide Grouped, Rank, StrictlySorted, ProfileSet;
    var e := Grouped(current, p);
    GroupedProperties(current, p);
    forall i | 0 <= i < |e| ensures Rank(current, e[i]) == i { RankIsPosition(current, p, i); }
    hide DistinctIds;
    forall c
      ensures c in e[..d] <==> c in e && Rank(current, c) < d
      ensures c in e[d..] <==> c in e && Rank(current, c) >= d
    {
      CutByRank(current, e, d, c);
    }
  }

  lemma NextFreshID(used: set<SlotID>, earlier: seq<Config>)
    ensures var id := LeastFree(used + Ids(earlier));
      id !in used && id !in Ids(earlier) && 0 <= id <= |used| + |earlier|
  {
    LeastFreeBound(used + Ids(earlier));
    IdsCardinality(earlier);
    UnionCardinality(used, Ids(earlier));
  }

  lemma DistinctSnoc(cs: seq<Config>, c: Config)
    requires DistinctIds(cs) && c.id !in Ids(cs)
    ensures DistinctIds(cs + [c])
  {
  }

  lemma FreshStep(used: set<SlotID>, p: string, res: Resources, n: nat)
    requires n > 0
    ensures var earlier := Fresh(used, p, res, n - 1);
      Fresh(used, p, res, n) == earlier + [Config(LeastFree(used + Ids(earlier)), p, res)]
  {
  }

  lemma {:induction false} FreshMembers(used: set<SlotID>, p: string, res: Resources, n: nat, c: Config)
    requires c in Fresh(used, p, res, n)
    ensures c.profile == p && c.resources == res && c.id !in used && 0 <= c.id < |used| + n
    decreases n
  {
    if n > 0 {
      var earlier := Fresh(used, p, res, n - 1);
      FreshStep(used, p, res, n);
      NextFreshID(used, earlier);
      hide Fresh, LeastFree, Ids;
      if c in earlier {
        FreshMembers(used, p, res, n - 1, c);
      }
    }
  }

  lemma {:induction false} FreshDistinct(used: set<SlotID>, p: string, res: Resources, n: nat)
    ensures DistinctIds(Fresh(used, p, res, n))
    decreases n
  {
    if n > 0 {
      var earlier := Fresh(used, p, res, n - 1);
      FreshDistinct(used, p, res, n - 1);
      FreshStep(used, p, res, n);
      NextFreshID(used, earlier);
      hide Fresh, LeastFree, Ids, DistinctIds;
      DistinctSnoc(earlier, Config(LeastFree(used + Ids(earlier)), p, res));
    }
  }

  /** Freshness, range and distinctness of newly allocated Slots. */
  lemma FreshProperties(used: set<SlotID>, p: string, res: Resources, n: nat)
    ensures var r := Fresh(used, p, res, n);
      && DistinctIds(r)
      && (forall c :: c in r ==> c.profile == p && c.resources == res && c.id !in used && 0 <= c.id < |used| + n)
  {
    hide Fresh, DistinctIds;
    FreshDistinct(used, p, res, n);
    forall c | c in Fresh(used, p, res, n)
      ensures c.profile == p && c.resources == res && c.id !in used && 0 <= c.id < |used| + n
    {
      FreshMembers(used, p, res, n, c);
    }
  }

  lemma {:induction false} IdsCardinality(cs: seq<Config>)
    ensures |Ids(cs)| <= |cs|
  {
    if cs != [] {
      var front := cs[..|cs| - 1];
      IdsCardinality(front);
      assert cs == front + [cs[|cs| - 1]];
      assert Ids(cs) == Ids(front) + {cs[|cs| - 1].id};
    }
  }

  lemma UnionCardinality<T>(a: set<T>, b: set<T>)
    ensures |a + b| <= |a| + |b|
  {
    assert |a + b| + |a * b| == |a| + |b|;
  }

  lemma SubsetCardinality<T>(a: set<T>, b: set<T>)
    requires a <= b
    ensures |a| <= |b|
  {
    assert b == a + (b - a);
  }

  lemma OnlyOne<T>(s: set<T>, a: T, b: T)
    requires |s| == 1 && a in s && b in s
    ensures a == b
  {
    SubsetCardinality({a, b}, s);
  }

  // ---------------------------------------------------------------- the loop over profiles

  /** IDs of the current Slots whose profile has not had its turn. */
  function Pending(current: seq<Config>, todo: seq<string>): set<SlotID> {
    set c | c in current && c.profile in todo :: c.id
  }

  ghost predicate PlanInv(r: Request, st: PlanState, done: set<string>, todo: seq<string>) {
    && NoRepeats(todo)
    && (forall p :: p in todo ==> p !in done && GroupOf(st.groups, p) == Grouped(r.current, p))
    && (forall c :: c in r.current ==> c.profile in done || c.profile in todo)
    && st.used == Ids(st.next) + Pending(r.current, todo)
    && Ids(st.next) !! Pending(r.current, todo)
    && DistinctIds(st.next)
    && (forall c :: c in st.next ==> c.profile in done)
    && (forall p :: p in done ==> ProfileDone(r, st.next, p))
    && (st.reasons != [] <==> exists p :: p in done && BlockedAt(r, p))
  }

  /** Only the Slots of a profile matter to its outcome. */
  lemma SameOutcome(r: Request, a: seq<Config>, b: seq<Config>, p: string)
    requires ProfileDone(r, a, p) && ProfileSet(a, p) == ProfileSet(b, p)
    ensures ProfileDone(r, b, p)
  {
    hide Keeps, Grows;
    forall c: Config | c.profile == p ensures c in a <==> c in b {
      assert c in a <==> c in ProfileSet(a, p);
      assert c in b <==> c in ProfileSet(b, p);
    }
  }

  lemma TurnOutcomes(r: Request, before: seq<Config>, part: seq<Config>, p: string, q: string)
    requires forall c :: c in part ==> c.profile == p
    requires if q == p then ProfileDone(r, part, p) && p !in Present(before) else ProfileDone(r, before, q)
    ensures ProfileDone(r, before + part, q)
  {
    hide ProfileDone;
    if q == p {
      forall c | c in before ensures c.profile != p { assert c.profile in Present(before); }
      assert ProfileSet(before + part, q) == ProfileSet(part, q);
      SameOutcome(r, part, before + part, q);
    } else {
      assert ProfileSet(before + part, q) == ProfileSet(before, q);
      SameOutcome(r, before, before + part, q);
    }
  }

  /** The state after a turn that appends `part` as the outcome of profile `p`. */
  lemma TurnKeepsInvariant(r: Request, st: PlanState, st': PlanState, done: set<string>, todo: seq<string>,
                           part: seq<Config>)
    requires DistinctIds(r.current) && PlanInv(r, st, done, todo) && todo != []
    requires st'.next == st.next + part && DistinctIds(part)
    requires forall p :: p in todo[1..] ==> GroupOf(st'.groups, p) == GroupOf(st.groups, p)
    requires forall c :: c in part ==>
      c.profile == todo[0] && c.id !in Ids(st.next) && c.id !in Pending(r.current, todo[1..])
    requires st'.used == Ids(st.next) + Ids(part) + Pending(r.current, todo[1..])
    requires ProfileDone(r, part, todo[0])
    requires st'.reasons != [] <==> st.reasons != [] || BlockedAt(r, todo[0])
    ensures PlanInv(r, st', done + {todo[0]}, todo[1..])
  {
    hide ProfileDone, BlockedAt, Grouped;
    var p := todo[0];
    assert p in todo;
    IdsConcat(st.next, part);
    forall q | q in todo[1..] ensures q in todo && q != p {}
    assert Pending(r.current, todo[1..]) <= Pending(r.current, todo);
    forall x, y | x in st.next && y in part ensures x.id != y.id { assert x.id in Ids(st.next); }
    DistinctConcat(st.next, part);
    hide DistinctIds;
    forall q | q in done + {p} ensures ProfileDone(r, st'.next, q) {
      TurnOutcomes(r, st.next, part, p, q);
    }
  }

  lemma PendingSplit(r: Request, todo: seq<string>)
    requires DistinctIds(r.current) && todo != [] && NoRepeats(todo)
    ensures Pending(r.current, todo) == Ids(Grouped(r.current, todo[0])) + Pending(r.current, todo[1..])
    ensures Ids(Grouped(r.current, todo[0])) !! Pending(r.current, todo[1..])
  {
    var p := todo[0];
    GroupedProperties(r.current, p);
    assert forall q :: q in todo <==> q == p || q in todo[1..];
    assert p !in todo[1..];
    forall c, d | c in r.current && d in r.current && c.id == d.id ensures c == d {}
  }

  lemma UnknownTurn(r: Request, p: string)
    requires DistinctIds(r.current) && r.UnknownWanted(p)
    ensures ProfileDone(r, Grouped(r.current, p), p) && DistinctIds(Grouped(r.current, p)) && BlockedAt(r, p)
  {
    GroupedProperties(r.current, p);
  }

  function Kept(r: Request, p: string): seq<Config>
    requires r.CountsLegal() && |Grouped(r.current, p)| > r.Desired(p)
  {
    var e := Grouped(r.current, p);
    e[..r.Desired(p)] + BusyOf(e[r.Desired(p)..], r.busy)
  }

  lemma SortedKept(e: seq<Config>, d: nat, busy: set<SlotID>)
    requires StrictlySorted(e) && d <= |e|
    ensures var kept := e[..d] + BusyOf(e[d..], busy);
      && StrictlySorted(kept) && SortById(kept) == kept
      && forall c :: c in kept <==> c in e[..d] || (c in e[d..] && c.id in busy)
  {
    hide BusyOf, SortById;
    var above := BusyOf(e[d..], busy);
    BusyOfElements(e[d..], busy);
    forall x, y | x in e[..d] && y in above ensures x.id < y.id { assert y in e[d..]; }
    SortedConcat(e[..d], above);
    var kept := e[..d] + above;
    SortByIdElements(kept);
    SortedUnique(SortById(kept), kept);
  }

  /** What the in-place filter keeps: the lowest `desired`, and the busy ones above them. */
  lemma KeptElements(r: Request, p: string)
    requires DistinctIds(r.current) && r.CountsLegal() && |Grouped(r.current, p)| > r.Desired(p)
    ensures StrictlySorted(Kept(r, p)) && SortById(Kept(r, p)) == Kept(r, p)
    ensures forall c :: c in Kept(r, p) <==>
      c in r.current && c.profile == p && (Rank(r.current, c) < r.Desired(p) || c.id in r.busy)
    ensures forall c :: c in BusyOf(Grouped(r.current, p)[r.Desired(p)..], r.busy) <==>
      c in r.current && c.profile == p && Rank(r.current, c) >= r.Desired(p) && c.id in r.busy
  {
    hide BusyOf, SortById, OfProfile, Rank;
    var e, d := Grouped(r.current, p), r.Desired(p);
    GroupedProperties(r.current, p);
    CutIsRank(r.current, p, d);
    hide Grouped;
    BusyOfElements(e[d..], r.busy);
    SortedKept(e, d, r.busy);
    hide StrictlySorted, DistinctIds;
  }

  lemma SortedConcat(a: seq<Config>, b: seq<Config>)
    requires StrictlySorted(a) && StrictlySorted(b)
    requires forall x, y :: x in a && y in b ==> x.id < y.id
    ensures StrictlySorted(a + b)
  {
  }

  lemma DroppedIds(e: seq<Config>, high: seq<Config>, kept: seq<Config>, busy: set<SlotID>)
    requires forall x, y :: x in e && y in e && x.id == y.id ==> x == y
    requires forall c :: c in high ==> c in e
    requires forall c :: c in kept <==> c in e && !(c in high && c.id !in busy)
    ensures Ids(kept) == Ids(e) - FreeOf(high, busy)
  {
    forall id ensures id in Ids(kept) <==> id in Ids(e) - FreeOf(high, busy) {
      if c :| c in e && c.id == id {
        assert forall x :: x in e && x.id == id ==> x == c;
      }
    }
  }

  lemma IdDetermines(cs: seq<Config>)
    requires DistinctIds(cs)
    ensures forall x, y :: x in cs && y in cs && x.id == y.id ==> x == y
  {
  }

  lemma KeptIds(r: Request, p: string)
    requires DistinctIds(r.current) && r.CountsLegal() && |Grouped(r.current, p)| > r.Desired(p)
    ensures Ids(Kept(r, p)) == Ids(Grouped(r.current, p)) - FreeOf(Grouped(r.current, p)[r.Desired(p)..], r.busy)
  {
    hide Grouped, Kept, Rank, SortById, BusyOf, ProfileSet, Ids, FreeOf, DistinctIds, StrictlySorted;
    var e, d := Grouped(r.current, p), r.Desired(p);
    GroupedProperties(r.current, p);
    CutIsRank(r.current, p, d);
    KeptElements(r, p);
    IdDetermines(r.current);
    forall c | c in e[d..] ensures c in e {}
    DroppedIds(e, e[d..], Kept(r, p), r.busy);
  }

  lemma ShrinkTurn(r: Request, p: string)
    requires DistinctIds(r.current) && r.CountsLegal() && !r.UnknownWanted(p)
    requires |Grouped(r.current, p)| > r.Desired(p)
    ensures ProfileDone(r, Kept(r, p), p)
    ensures BusyOf(Grouped(r.current, p)[r.Desired(p)..], r.busy) != [] <==> BlockedAt(r, p)
  {
    KeptElements(r, p);
    GroupedProperties(r.current, p);
    var above := BusyOf(Grouped(r.current, p)[r.Desired(p)..], r.busy);
    if above != [] { assert above[0] in above; }
  }

  lemma GrownOutcome(r: Request, p: string, e: seq<Config>, added: seq<Config>)
    requires r.CountsLegal() && !r.UnknownWanted(p) && DistinctIds(e + added) && |e + added| == r.Desired(p)
    requires |ProfileSet(r.current, p)| == |e|
    requires forall c :: c in e <==> c in r.current && c.profile == p
    requires forall c :: c in e ==> Keeps(r, c)
    requires forall c :: c in added ==> c.profile == p && c.id >= 0 && p in r.profiles && c.resources == r.profiles[p]
    ensures ProfileDone(r, e + added, p)
  {
    var part := e + added;
    DistinctCardinality(part);
    hide DistinctIds, Keeps;
    assert forall c :: c in part <==> c in e || c in added;
    assert ProfileSet(part, p) == set c | c in part;
    assert added != [] ==> |e| < r.Desired(p);
  }

  lemma GrowTurn(r: Request, p: string, used: set<SlotID>, res: Resources)
    requires DistinctIds(r.current) && r.CountsLegal() && !r.UnknownWanted(p)
    requires |Grouped(r.current, p)| <= r.Desired(p) && Ids(Grouped(r.current, p)) <= used
    requires p in r.profiles ==> res == r.profiles[p]
    ensures var part := Grouped(r.current, p) + Fresh(used, p, res, r.Desired(p) - |Grouped(r.current, p)|);
      ProfileDone(r, part, p) && DistinctIds(part)
    ensures !BlockedAt(r, p)
  {
    hide ProfileDone, Fresh, SortById, OfProfile;
    var e, d := Grouped(r.current, p), r.Desired(p);
    GroupedProperties(r.current, p);
    CutIsRank(r.current, p, |e|);
    assert e[..|e|] == e;
    hide Grouped, Rank;
    var added := Fresh(used, p, res, d - |e|);
    FreshProperties(used, p, res, d - |e|);
    forall c | c in e ensures c.id in used { assert c.id in Ids(e); }
    DistinctConcat(e, added);
    hide DistinctIds, StrictlySorted, Ids;
    assert added != [] ==> p in r.profiles;
    GrownOutcome(r, p, e, added);
  }

  lemma DistinctConcat(a: seq<Config>, b: seq<Config>)
    requires DistinctIds(a) && DistinctIds(b)
    requires forall x, y :: x in a && y in b ==> x.id != y.id
    ensures DistinctIds(a + b)
  {
  }

  lemma UnknownStep(r: Request, st: PlanState, done: set<string>, todo: seq<string>)
    requires DistinctIds(r.current) && r.CountsLegal() && PlanInv(r, st, done, todo) && todo != []
    requires r.UnknownWanted(todo[0])
    ensures PlanInv(r, PlanProfile(r, st, todo[0]), done + {todo[0]}, todo[1..])
  {
    var p := todo[0];
    assert p in todo;
    var e := Grouped(r.current, p);
    GroupedProperties(r.current, p);
    PendingSplit(r, todo);
    UnknownTurn(r, p);
    assert forall c :: c in e ==> c.id in Ids(e);
    TurnKeepsInvariant(r, st, PlanProfile(r, st, p), done, todo, e);
  }

  /** What a shrinking turn appends, in terms of the invariant's ID sets. */
  lemma ShrinkFacts(r: Request, st: PlanState, todo: seq<string>)
    requires DistinctIds(r.current) && r.CountsLegal() && todo != [] && NoRepeats(todo)
    requires |Grouped(r.current, todo[0])| > r.Desired(todo[0])
    requires st.used == Ids(st.next) + Pending(r.current, todo) && Ids(st.next) !! Pending(r.current, todo)
    ensures var part := Kept(r, todo[0]);
      && DistinctIds(part) && SortById(part) == part
      && st.used - FreeOf(Grouped(r.current, todo[0])[r.Desired(todo[0])..], r.busy)
           == Ids(st.next) + Ids(part) + Pending(r.current, todo[1..])
      && forall c :: c in part ==>
           c.profile == todo[0] && c.id !in Ids(st.next) && c.id !in Pending(r.current, todo[1..])
  {
    var p := todo[0];
    var e, part := Grouped(r.current, p), Kept(r, p);
    var free := FreeOf(e[r.Desired(p)..], r.busy);
    PendingSplit(r, todo);
    KeptElements(r, p);
    KeptIds(r, p);
    assert free <= Ids(e) by { assert forall c :: c in e[r.Desired(p)..] ==> c in e; }
    forall c | c in part ensures c.id in Ids(part) && c.id in Ids(e) {}
    hide *;
    assert st.used - free == Ids(st.next) + Ids(part) + Pending(r.current, todo[1..]);
  }

  lemma ShrinkStep(r: Request, st: PlanState, done: set<string>, todo: seq<string>)
    requires DistinctIds(r.current) && r.CountsLegal() && PlanInv(r, st, done, todo) && todo != []
    requires !r.UnknownWanted(todo[0]) && |Grouped(r.current, todo[0])| > r.Desired(todo[0])
    ensures PlanInv(r, PlanProfile(r, st, todo[0]), done + {todo[0]}, todo[1..])
  {
    hide ProfileDone, BlockedAt, Keeps, SortById, BusyOf, FreeOf, OfProfile, DistinctIds, Ids, Pending;
    var p := todo[0];
    assert p in todo;
    var st' := PlanProfile(r, st, p);
    ShrinkTurn(r, p);
    ShrinkFacts(r, st, todo);
    forall q | q in todo[1..] ensures GroupOf(st'.groups, q) == GroupOf(st.groups, q) { assert q != p; }
    var above := BusyOf(Grouped(r.current, p)[r.Desired(p)..], r.busy);
    assert st'.next == st.next + Kept(r, p) && st'.reasons == st.reasons + BusyReasons(above);
    TurnKeepsInvariant(r, st, st', done, todo, Kept(r, p));
  }

  lemma IdsConcat(a: seq<Config>, b: seq<Config>)
    ensures Ids(a + b) == Ids(a) + Ids(b)
  {
    assert forall c :: c in a + b <==> c in a || c in b;
  }

  /** What a growing turn appends, in terms of the invariant's ID sets. */
  lemma GrowFacts(r: Request, st: PlanState, todo: seq<string>, added: seq<Config>)
    requires DistinctIds(r.current) && todo != [] && NoRepeats(todo)
    requires st.used == Ids(st.next) + Pending(r.current, todo) && Ids(st.next) !! Pending(r.current, todo)
    requires forall c :: c in added ==> c.profile == todo[0] && c.id !in st.used
    ensures var part := Grouped(r.current, todo[0]) + added;
      && st.used + Ids(added) == Ids(st.next) + Ids(part) + Pending(r.current, todo[1..])
      && forall c :: c in part ==>
           c.profile == todo[0] && c.id !in Ids(st.next) && c.id !in Pending(r.current, todo[1..])
  {
    hide SortById, OfProfile, StrictlySorted;
    var e := Grouped(r.current, todo[0]);
    GroupedProperties(r.current, todo[0]);
    PendingSplit(r, todo);
    IdsConcat(e, added);
    forall c | c in e + added
      ensures c.profile == todo[0] && c.id !in Ids(st.next) && c.id !in Pending(r.current, todo[1..])
    {
      if c in e { assert c.id in Ids(e); } else { assert c in added; assert c.id !in st.used; }
    }
  }

  lemma ConcatAssociative<T>(a: seq<T>, b: seq<T>, c: seq<T>)
    ensures a + b + c == a + (b + c)
  {
  }

  lemma GrowResult(r: Request, st: PlanState, p: string, e: seq<Config>, added: seq<Config>)
    requires r.CountsLegal() && !r.UnknownWanted(p) && e == GroupOf(st.groups, p) && |e| <= r.Desired(p)
    requires added == Fresh(st.used, p, if p in r.profiles then r.profiles[p] else NO_RESOURCES, r.Desired(p) - |e|)
    ensures PlanProfile(r, st, p).next == st.next + (e + added)
    ensures PlanProfile(r, st, p).used == st.used + Ids(added)
    ensures PlanProfile(r, st, p).reasons == st.reasons && PlanProfile(r, st, p).groups == st.groups
  {
    hide Fresh, Ids, BusyOf, FreeOf, SortById, BusyReasons, DistinctIds;
    ConcatAssociative(st.next, e, added);
  }

  lemma GrowStep(r: Request, st: PlanState, done: set<string>, todo: seq<string>)
    requires DistinctIds(r.current) && r.CountsLegal() && PlanInv(r, st, done, todo) && todo != []
    requires !r.UnknownWanted(todo[0]) && |Grouped(r.current, todo[0])| <= r.Desired(todo[0])
    ensures PlanInv(r, PlanProfile(r, st, todo[0]), done + {todo[0]}, todo[1..])
  {
    hide ProfileDone, BlockedAt, Keeps, SortById, BusyOf, OfProfile, DistinctIds, StrictlySorted, Fresh, ProfileSet;
    var p := todo[0];
    assert p in todo;
    var e, d := Grouped(r.current, p), r.Desired(p);
    var st' := PlanProfile(r, st, p);
    var res := if p in r.profiles then r.profiles[p] else NO_RESOURCES;
    var added := Fresh(st.used, p, res, d - |e|);
    var part := e + added;
    PendingSplit(r, todo);
    GrowTurn(r, p, st.used, res);
    FreshProperties(st.used, p, res, d - |e|);
    GrowFacts(r, st, todo, added);
    GrowResult(r, st, p, e, added);
    hide PlanProfile, Ids, Pending;
    TurnKeepsInvariant(r, st, st', done, todo, part);
  }

  lemma TurnStep(r: Request, st: PlanState, done: set<string>, todo: seq<string>)
    requires DistinctIds(r.current) && r.CountsLegal()
    requires PlanInv(r, st, done, todo) && todo != []
    ensures PlanInv(r, PlanProfile(r, st, todo[0]), done + {todo[0]}, todo[1..])
  {
    hide PlanInv, PlanProfile;
    if r.UnknownWanted(todo[0]) {
      UnknownStep(r, st, done, todo);
    } else if |Grouped(r.current, todo[0])| > r.Desired(todo[0]) {
      ShrinkStep(r, st, done, todo);
    } else {
      GrowStep(r, st, done, todo);
    }
  }

  lemma {:induction false} FoldKeepsInvariant(r: Request, st: PlanState, done: set<string>, todo: seq<string>,
                                              all: set<string>)
    requires DistinctIds(r.current) && r.CountsLegal() && PlanInv(r, st, done, todo)
    requires all == done + set p | p in todo
    ensures PlanInv(r, PlanFold(r, st, todo), all, [])
    decreases |todo|
  {
    hide PlanInv;
    if todo == [] {
      assert done == all;
    } else {
      TurnStep(r, st, done, todo);
      assert forall p :: p in todo <==> p == todo[0] || p in todo[1..];
      FoldKeepsInvariant(r, PlanProfile(r, st, todo[0]), done + {todo[0]}, todo[1..], all);
    }
  }

  // ---------------------------------------------------------------- the order of the profiles

  function Dedup(order: seq<string>): seq<string> {
    if order == [] then []
    else
      var front := order[..|order| - 1];
      Dedup(front) + if order[|order| - 1] in front then [] else [order[|order| - 1]]
  }

  /** The requested order without repeats, then the remaining profiles by name. A profile that is
      both counted and present but not ordered is listed twice, as in the source. */
  ghost predicate IsProfileOrder(names: seq<string>, order: seq<string>, counts: Counts, present: set<string>) {
    exists extras ::
      && names == Dedup(order) + extras
      && SortedStrings(extras)
      && multiset(extras) ==
           multiset(set p | p in counts && p !in order) + multiset(set p | p in present && p !in order)
  }

  predicate OrderCovers(order: seq<string>, counts: Counts) {
    forall p :: p in counts ==> p in order
  }

  function Present(current: seq<Config>): set<string> {
    set c | c in current :: c.profile
  }

  lemma {:induction false} DedupElements(order: seq<string>)
    ensures forall p :: p in Dedup(order) <==> p in order
    ensures NoRepeats(Dedup(order))
  {
    if order != [] {
      var front := order[..|order| - 1];
      DedupElements(front);
      assert order == front + [order[|order| - 1]];
    }
  }

  /** With an order that covers the counts, every profile gets exactly one turn. */
  lemma CoveringOrder(names: seq<string>, order: seq<string>, counts: Counts, present: set<string>)
    requires IsProfileOrder(names, order, counts, present) && OrderCovers(order, counts)
    ensures NoRepeats(names)
    ensures forall p :: p in names <==> p in order || p in present
  {
    DedupElements(order);
    var left := set p | p in present && p !in order;
    var extras :| names == Dedup(order) + extras && SortedStrings(extras)
      && multiset(extras) == multiset(set p | p in counts && p !in order) + multiset(left);
    assert (set p | p in counts && p !in order) == {};
    assert multiset(extras) == multiset(left);
    MultisetNoRepeats(extras);
    forall p ensures p in extras <==> p in left { assert p in extras <==> p in multiset(extras); }
    var first := Dedup(order);
    forall i, j | 0 <= i < j < |names| ensures names[i] != names[j] {
      if i < |first| <= j { assert names[i] in first && names[j] in extras; }
    }
  }

  // ---------------------------------------------------------------- main results

  /** What the planner promises: distinct sorted IDs, the outcome of every profile, the Blocked flag. */
  ghost predicate MeetsSpec(r: Request, plan: Plan) {
    && StrictlySorted(plan.slots)
    && (forall p: string :: ProfileDone(r, plan.slots, p))
    && (plan.blocked <==> exists p: string :: BlockedAt(r, p))
  }

  lemma EmptyOrMember(s: seq<Config>)
    ensures s == [] || exists c :: c in s
  {
    if s != [] { assert s[0] in s; }
  }

  lemma InitialInvariant(r: Request, names: seq<string>)
    requires DistinctIds(r.current) && NoRepeats(names) && Present(r.current) <= set p | p in names
    ensures PlanInv(r, InitialState(r.current), {}, names)
  {
    var st := InitialState(r.current);
    forall p | p in names ensures GroupOf(st.groups, p) == Grouped(r.current, p) {
      if p !in st.groups {
        OfProfileElements(r.current, p);
        SortByIdElements(OfProfile(r.current, p));
        EmptyOrMember(Grouped(r.current, p));
      }
    }
    forall c | c in r.current ensures c.profile in names { assert c.profile in Present(r.current); }
    assert Pending(r.current, names) == Ids(r.current);
  }

  /** The fold run to its end, with every profile done. */
  lemma FoldDone(r: Request, names: seq<string>)
    requires DistinctIds(r.current) && r.CountsLegal()
    requires NoRepeats(names) && Present(r.current) <= set p | p in names
    ensures PlanInv(r, InitialState(r.current), {}, names)
    ensures PlanInv(r, PlanFold(r, InitialState(r.current), names), set p | p in names, [])
  {
    InitialInvariant(r, names);
    FoldKeepsInvariant(r, InitialState(r.current), {}, names, set p | p in names);
  }

  lemma FoldResult(r: Request, order: seq<string>, names: seq<string>)
    requires DistinctIds(r.current) && r.CountsLegal()
    requires IsProfileOrder(names, order, r.counts, Present(r.current)) && OrderCovers(order, r.counts)
    ensures NoRepeats(names) && Present(r.current) <= (set p | p in names)
    ensures PlanInv(r, InitialState(r.current), {}, names)
    ensures PlanInv(r, PlanFold(r, InitialState(r.current), names), set p | p in names, [])
  {
    CoveringOrder(names, order, r.counts, Present(r.current));
    FoldDone(r, names);
  }

  lemma SortKeepsOutcome(r: Request, next: seq<Config>, p: string)
    requires ProfileDone(r, next, p)
    ensures ProfileDone(r, SortById(next), p)
  {
    SortByIdElements(next);
    hide ProfileDone, SortById;
    assert ProfileSet(SortById(next), p) == ProfileSet(next, p);
    SameOutcome(r, next, SortById(next), p);
  }

  lemma AbsentProfile(r: Request, next: seq<Config>, p: string)
    requires p !in r.counts && p !in Present(r.current)
    requires forall c :: c in next ==> c.profile != p
    ensures ProfileDone(r, next, p) && !BlockedAt(r, p)
  {
    assert ProfileSet(next, p) == {};
    forall c | c in r.current ensures c.profile != p { assert c.profile in Present(r.current); }
  }

  /** Every profile in question had exactly one turn. */
  lemma OneTurnEach(r: Request, names: seq<string>)
    requires DistinctIds(r.current) && r.CountsLegal()
    requires NoRepeats(names) && Present(r.current) + r.counts.Keys <= set p | p in names
    ensures MeetsSpec(r, PlanOf(r, names))
  {
    hide ProfileDone, BlockedAt, SortById, PlanFold, InitialState;
    FoldDone(r, names);
    var st := PlanFold(r, InitialState(r.current), names);
    var done := set p | p in names;
    SortByIdElements(st.next);
    forall p: string
      ensures ProfileDone(r, SortById(st.next), p)
      ensures BlockedAt(r, p) ==> p in done
    {
      if p in done {
        assert ProfileDone(r, st.next, p);
      } else {
        AbsentProfile(r, st.next, p);
      }
      SortKeepsOutcome(r, st.next, p);
    }
  }

  /** The full specification of the planner, for every layout with distinct IDs and every covering order. */
  lemma PlanMeetsSpec(r: Request, order: seq<string>, names: seq<string>)
    requires DistinctIds(r.current) && r.CountsLegal()
    requires IsProfileOrder(names, order, r.counts, Present(r.current)) && OrderCovers(order, r.counts)
    ensures MeetsSpec(r, PlanOf(r, names))
  {
    hide MeetsSpec, PlanOf, IsProfileOrder, NoRepeats;
    CoveringOrder(names, order, r.counts, Present(r.current));
    OneTurnEach(r, names);
  }

  // ---------------------------------------------------------------- replanning

  /** Every profile of a plan, except a wanted unknown one, keeps its Slots when planned again. */
  lemma ReplanKeeps(r: Request, plan: Plan, c: Config)
    requires DistinctIds(r.current) && r.CountsLegal() && MeetsSpec(r, plan) && c in plan.slots
    ensures Keeps(r.(current := plan.slots), c)
  {
    var p := c.profile;
    assert ProfileDone(r, plan.slots, p);
    var lower := Lower(plan.slots, c);
    if !r.UnknownWanted(p) && c.id !in r.busy {
      if |ProfileSet(r.current, p)| <= r.Desired(p) {
        assert lower <= ProfileSet(plan.slots, p) - {c};
        SubsetCardinality(lower, ProfileSet(plan.slots, p) - {c});
      } else {
        assert c in r.current;
        assert lower <= Lower(r.current, c);
        SubsetCardinality(lower, Lower(r.current, c));
      }
    }
  }

  /** No profile of a plan is short of Slots, so planning it again adds nothing. */
  lemma ReplanAddsNothing(r: Request, plan: Plan, p: string)
    requires DistinctIds(r.current) && r.CountsLegal() && MeetsSpec(r, plan)
    ensures !Grows(r.(current := plan.slots), p)
  {
    assert ProfileDone(r, plan.slots, p);
    if !r.UnknownWanted(p) && |ProfileSet(r.current, p)| > r.Desired(p) {
      var low := set c | c in r.current && c.profile == p && Rank(r.current, c) < r.Desired(p);
      LowSetSize(r, p);
      assert low <= ProfileSet(plan.slots, p);
      SubsetCardinality(low, ProfileSet(plan.slots, p));
    }
  }

  lemma LowSetSize(r: Request, p: string)
    requires DistinctIds(r.current) && r.CountsLegal() && |ProfileSet(r.current, p)| > r.Desired(p)
    ensures |set c | c in r.current && c.profile == p && Rank(r.current, c) < r.Desired(p)| == r.Desired(p)
  {
    GroupedProperties(r.current, p);
    CutIsRank(r.current, p, r.Desired(p));
    var low := Grouped(r.current, p)[..r.Desired(p)];
    DistinctCardinality(low);
    assert (set c | c in r.current && c.profile == p && Rank(r.current, c) < r.Desired(p)) == set c | c in low;
  }

  lemma RankInSmallGroup(cs: seq<Config>, p: string, d: nat)
    requires |ProfileSet(cs, p)| <= d
    ensures forall c :: c in cs && c.profile == p ==> Rank(cs, c) < d
  {
    forall c | c in cs && c.profile == p ensures Rank(cs, c) < d {
      assert Lower(cs, c) <= ProfileSet(cs, p) - {c};
      SubsetCardinality(Lower(cs, c), ProfileSet(cs, p) - {c});
    }
  }

  /** A busy Slot is above the cut of a shrunk profile after the plan iff it was before. */
  lemma RankAfterShrink(r: Request, plan: Plan, c: Config)
    requires DistinctIds(r.current) && r.CountsLegal() && ProfileDone(r, plan.slots, c.profile)
    requires !r.UnknownWanted(c.profile) && |ProfileSet(r.current, c.profile)| > r.Desired(c.profile)
    requires c in r.current && c.id in r.busy
    ensures c in plan.slots &&
      (Rank(plan.slots, c) >= r.Desired(c.profile) <==> Rank(r.current, c) >= r.Desired(c.profile))
  {
    var p := c.profile;
    LowSetSize(r, p);
    var low := set x | x in r.current && x.profile == p && Rank(r.current, x) < r.Desired(p);
    assert Lower(plan.slots, c) <= Lower(r.current, c);
    SubsetCardinality(Lower(plan.slots, c), Lower(r.current, c));
    if Rank(r.current, c) >= r.Desired(p) {
      LowBelowHigh(r, p, c);
      assert low <= Lower(plan.slots, c);
      SubsetCardinality(low, Lower(plan.slots, c));
    }
  }

  /** Busy Slots above a cut of the plan are those above the cut of the request. */
  lemma ReplanBlockedAt(r: Request, plan: Plan, p: string)
    requires DistinctIds(r.current) && r.CountsLegal() && MeetsSpec(r, plan)
    ensures BlockedAt(r.(current := plan.slots), p) <==> BlockedAt(r, p)
  {
    hide Rank, ProfileSet, Lower;
    assert ProfileDone(r, plan.slots, p);
    if !r.UnknownWanted(p) {
      if |ProfileSet(r.current, p)| <= r.Desired(p) {
        RankInSmallGroup(plan.slots, p, r.Desired(p));
        RankInSmallGroup(r.current, p, r.Desired(p));
      } else {
        forall c | c in r.current && c.profile == p && c.id in r.busy
          ensures c in plan.slots && (Rank(plan.slots, c) >= r.Desired(p) <==> Rank(r.current, c) >= r.Desired(p))
        {
          RankAfterShrink(r, plan, c);
        }
      }
    }
  }

  lemma LowBelowHigh(r: Request, p: string, c: Config)
    requires c in r.current && c.profile == p && Rank(r.current, c) >= r.Desired(p)
    ensures forall x :: x in r.current && x.profile == p && Rank(r.current, x) < r.Desired(p) ==> x.id < c.id
  {
    forall x | x in r.current && x.profile == p && Rank(r.current, x) < r.Desired(p) ensures x.id < c.id {
      if c.id <= x.id {
        assert Lower(r.current, c) <= Lower(r.current, x);
        SubsetCardinality(Lower(r.current, c), Lower(r.current, x));
      }
    }
  }

  /** The planner is idempotent: any plan for its own output, with the same counts, busy set and
      profiles, has the same Slots and the same Blocked flag. */
  lemma ReplanIdempotent(r: Request, plan: Plan, again: Plan)
    requires DistinctIds(r.current) && r.CountsLegal() && MeetsSpec(r, plan)
    requires MeetsSpec(r.(current := plan.slots), again)
    ensures again.slots == plan.slots && again.blocked == plan.blocked
  {
    var r' := r.(current := plan.slots);
    forall c ensures c in again.slots <==> c in plan.slots {
      assert ProfileDone(r', again.slots, c.profile);
      if c in plan.slots { ReplanKeeps(r, plan, c); }
      if c in again.slots && c !in plan.slots { ReplanAddsNothing(r, plan, c.profile); }
    }
    SortedUnique(again.slots, plan.slots);
    forall p: string ensures BlockedAt(r', p) <==> BlockedAt(r, p) { ReplanBlockedAt(r, plan, p); }
  }

  /** A plan reaches the exact count of a profile iff nothing blocks it: once its busy Slots above
      the cut are gone, one further plan is enough. */
  lemma ExactIffNotBlocked(r: Request, plan: Plan, p: string)
    requires DistinctIds(r.current) && r.CountsLegal() && MeetsSpec(r, plan)
    requires !r.UnknownWanted(p)
    ensures |ProfileSet(plan.slots, p)| == r.Desired(p) <==> !BlockedAt(r, p)
  {
    hide Rank, ProfileSet, Lower;
    assert ProfileDone(r, plan.slots, p);
    if |ProfileSet(r.current, p)| <= r.Desired(p) {
      RankInSmallGroup(r.current, p, r.Desired(p));
    } else {
      ShrunkSize(r, plan, p);
    }
  }

  /** The lowest wanted Slots of a profile. */
  function LowSet(r: Request, p: string): set<Config> {
    set c | c in r.current && c.profile == p && Rank(r.current, c) < r.Desired(p)
  }

  lemma BlockedKeepsMore(r: Request, plan: Plan, p: string)
    requires ProfileDone(r, plan.slots, p) && BlockedAt(r, p) && !r.UnknownWanted(p)
    ensures LowSet(r, p) < ProfileSet(plan.slots, p)
  {
    hide Rank;
    var c :| c in r.current && c.profile == p && c.id in r.busy && Rank(r.current, c) >= r.Desired(p);
    assert c in ProfileSet(plan.slots, p) && c !in LowSet(r, p);
  }

  lemma UnblockedKeepsLow(r: Request, plan: Plan, p: string)
    requires ProfileDone(r, plan.slots, p) && !BlockedAt(r, p) && !r.UnknownWanted(p)
    requires |ProfileSet(r.current, p)| > r.Desired(p)
    ensures ProfileSet(plan.slots, p) == LowSet(r, p)
  {
    hide Rank;
    forall c ensures c in ProfileSet(plan.slots, p) <==> c in LowSet(r, p) {}
  }

  lemma ShrunkSize(r: Request, plan: Plan, p: string)
    requires DistinctIds(r.current) && r.CountsLegal() && ProfileDone(r, plan.slots, p)
    requires !r.UnknownWanted(p) && |ProfileSet(r.current, p)| > r.Desired(p)
    ensures |ProfileSet(plan.slots, p)| == r.Desired(p) <==> !BlockedAt(r, p)
  {
    hide ProfileDone, BlockedAt, ProfileSet;
    LowSetSize(r, p);
    hide LowSet;
    if BlockedAt(r, p) {
      BlockedKeepsMore(r, plan, p);
      ProperSubsetCardinality(LowSet(r, p), ProfileSet(plan.slots, p));
    } else {
      UnblockedKeepsLow(r, plan, p);
    }
  }

  lemma ProperSubsetCardinality<T>(a: set<T>, b: set<T>)
    requires a < b
    ensures |a| < |b|
  {
    assert b == a + (b - a);
  }
}
