/** Planning with an order that leaves out a wanted profile (internal/slot/config.go, orderedProfiles):
    a profile that is also present gets two turns, and the plan is right exactly when it keeps none of
    that profile's Slots. */
module TopologyOrder {
  import opened Base
  import opened GoStrings
  import opened Topology

  // ---------------------------------------------------------------- how many turns a profile gets

  lemma {:induction false} NoRepeatsMultiset(s: seq<string>, x: string)
    requires NoRepeats(s)
    ensures multiset(s)[x] == if x in s then 1 else 0
  {
    if s != [] {
      var front, last := s[..|s| - 1], s[|s| - 1];
      assert s == front + [last];
      NoRepeatsMultiset(front, x);
    }
  }

  /** An ordered profile gets one turn, any other one turn for being counted and one for being present. */
  lemma TurnCount(names: seq<string>, order: seq<string>, counts: Counts, present: set<string>, p: string)
    requires IsProfileOrder(names, order, counts, present)
    ensures multiset(names)[p] ==
      if p in order then 1 else (if p in counts then 1 else 0) + (if p in present then 1 else 0)
  {
    DedupElements(order);
    var counted, left := set q | q in counts && q !in order, set q | q in present && q !in order;
    var extras :| names == Dedup(order) + extras && SortedStrings(extras) &&
      multiset(extras) == multiset(counted) + multiset(left);
    hide NoRepeats, Dedup, SortedStrings;
    NoRepeatsMultiset(Dedup(order), p);
    assert multiset(names) == multiset(Dedup(order)) + multiset(extras);
  }

  lemma OrderFrom(extras: seq<string>, order: seq<string>, counts: Counts, present: set<string>)
    requires SortedStrings(extras)
    requires multiset(extras) ==
      multiset(set p | p in counts && p !in order) + multiset(set p | p in present && p !in order)
    ensures IsProfileOrder(Dedup(order) + extras, order, counts, present)
  {
    hide Dedup, SortedStrings;
  }

  lemma {:induction false} DedupDistinct(order: seq<string>)
    requires NoRepeats(order)
    ensures Dedup(order) == order
  {
    if order != [] {
      DedupDistinct(order[..|order| - 1]);
      assert order == order[..|order| - 1] + [order[|order| - 1]];
    }
  }

  /** A complete order without repeats is the order of the turns. */
  lemma CompleteOrder(order: seq<string>, counts: Counts, present: set<string>)
    requires NoRepeats(order) && OrderCovers(order, counts) && forall p :: p in present ==> p in order
    ensures IsProfileOrder(order, order, counts, present)
  {
    DedupDistinct(order);
    assert SortedStrings([]);
    assert (set p | p in counts && p !in order) == {} && (set p | p in present && p !in order) == {};
    hide Dedup, NoRepeats, SortedStrings;
    assert order + [] == order;
    OrderFrom([], order, counts, present);
  }

  /** Repeats stand together. */
  ghost predicate Together(s: seq<string>) {
    forall i, j, k :: 0 <= i < j < k < |s| && s[i] == s[k] ==> s[i] == s[j]
  }

  lemma SortedTogether(s: seq<string>)
    requires SortedStrings(s)
    ensures Together(s)
  {
    forall i, j, k | 0 <= i < j < k < |s| && s[i] == s[k] ensures s[i] == s[j] { StrLessTrichotomy(s[i], s[j]); }
  }

  lemma TurnsTogether(names: seq<string>, order: seq<string>, counts: Counts, present: set<string>)
    requires IsProfileOrder(names, order, counts, present)
    ensures Together(names)
  {
    DedupElements(order);
    var counted, left := set q | q in counts && q !in order, set q | q in present && q !in order;
    var extras :| names == Dedup(order) + extras && SortedStrings(extras) &&
      multiset(extras) == multiset(counted) + multiset(left);
    SortedTogether(extras);
    hide Dedup, SortedStrings;
    var first := Dedup(order);
    forall p | p in extras ensures p !in first { assert p in multiset(extras); }
    forall i, k | 0 <= i < |first| <= k < |names| ensures names[i] != names[k] {
      assert names[i] in first && names[k] in extras;
    }
    BothTogether(first, extras);
  }

  lemma BothTogether(first: seq<string>, extras: seq<string>)
    requires NoRepeats(first) && Together(extras)
    requires forall i, k :: 0 <= i < |first| <= k < |first + extras| ==> (first + extras)[i] != (first + extras)[k]
    ensures Together(first + extras)
  {
    var names := first + extras;
    forall i, j, k | 0 <= i < j < k < |names| && names[i] == names[k] ensures names[i] == names[j] {
      if i >= |first| {
        assert extras[i - |first|] == extras[k - |first|];
      }
    }
  }

  // ---------------------------------------------------------------- a second turn that changes nothing

  /** Wanted at zero, with no busy Slot. */
  ghost predicate Idle(r: Request, st: PlanState, p: string) {
    r.Desired(p) == 0 && forall c :: c in GroupOf(st.groups, p) ==> c.id !in r.busy
  }

  lemma NothingKept(st: PlanState, p: string)
    requires p in st.groups
    ensures st == st.(groups := st.groups[p := SortById([]) + st.groups[p][0..]], next := st.next + SortById([]),
                      reasons := st.reasons + BusyReasons([]))
  {
    assert SortById([]) == [] && BusyReasons([]) == [];
    hide SortById, BusyReasons;
    assert [] + st.groups[p][0..] == st.groups[p];
    assert st.next + [] == st.next && st.reasons + [] == st.reasons;
    assert st.groups[p := st.groups[p]] == st.groups;
  }

  lemma IdleTurn(r: Request, st: PlanState, p: string)
    requires r.CountsLegal() && Idle(r, st, p)
    ensures PlanProfile(r, st, p) == st.(used := st.used - FreeOf(GroupOf(st.groups, p), r.busy))
  {
    var existing := GroupOf(st.groups, p);
    if existing == [] {
      assert st.next + [] == st.next;
      assert FreeOf([], r.busy) == {};
    } else {
      BusyOfElements(existing, r.busy);
      EmptyOrMember(BusyOf(existing, r.busy));
      assert existing[0..] == existing && existing[..0] + [] == [];
      NothingKept(st, p);
      hide BusyOf, FreeOf, SortById, BusyReasons;
    }
  }

  lemma IdleTwice(r: Request, st: PlanState, p: string)
    requires r.CountsLegal() && Idle(r, st, p)
    ensures PlanProfile(r, PlanProfile(r, st, p), p) == PlanProfile(r, st, p)
    ensures GroupOf(PlanProfile(r, st, p).groups, p) == GroupOf(st.groups, p)
  {
    hide PlanProfile, FreeOf;
    IdleTurn(r, st, p);
    IdleTurn(r, PlanProfile(r, st, p), p);
  }

  lemma OtherGroup(r: Request, st: PlanState, p: string, q: string)
    requires r.CountsLegal() && p != q
    ensures GroupOf(PlanProfile(r, st, p).groups, q) == GroupOf(st.groups, q)
  {
  }

  function Squeeze(s: seq<string>): seq<string> {
    if |s| <= 1 then s else if s[0] == s[1] then Squeeze(s[1..]) else [s[0]] + Squeeze(s[1..])
  }

  lemma {:induction false} SqueezeElements(s: seq<string>)
    requires Together(s)
    ensures NoRepeats(Squeeze(s)) && forall x :: x in Squeeze(s) <==> x in s
  {
    if |s| > 1 {
      var rest := s[1..];
      forall i, j, k | 0 <= i < j < k < |rest| && rest[i] == rest[k] ensures rest[i] == rest[j] {
        assert s[i + 1] == s[k + 1];
      }
      SqueezeElements(rest);
      assert s == [s[0]] + rest && rest[0] == s[1] && rest[0] in rest;
      if s[0] != s[1] {
        forall k | 0 <= k < |rest| ensures rest[k] != s[0] { assert rest[k] == s[k + 1]; }
        assert s[0] !in Squeeze(rest);
      }
    }
  }

  lemma {:induction false} FoldSqueeze(r: Request, st: PlanState, names: seq<string>, twice: set<string>)
    requires r.CountsLegal() && forall p :: p in twice ==> Idle(r, st, p)
    requires forall i :: 0 < i < |names| && names[i - 1] == names[i] ==> names[i] in twice
    ensures PlanFold(r, st, names) == PlanFold(r, st, Squeeze(names))
    decreases |names|
  {
    if |names| > 1 {
      var p, rest := names[0], names[1..];
      var once := PlanProfile(r, st, p);
      hide PlanProfile;
      if p == names[1] {
        IdleTwice(r, st, p);
        FoldSqueeze(r, st, rest, twice);
      } else {
        forall q | q in twice ensures Idle(r, once, q) {
          if q == p { IdleTwice(r, st, p); } else { OtherGroup(r, st, p, q); }
        }
        FoldSqueeze(r, once, rest, twice);
        assert ([p] + Squeeze(rest))[1..] == Squeeze(rest);
      }
    }
  }

  // ---------------------------------------------------------------- a second turn that repeats Slots

  lemma TwiceInLayout(a: seq<Config>, b: seq<Config>, c: seq<Config>, d: seq<Config>, x: Config)
    requires x in b && x in d
    ensures !DistinctIds(a + b + c + d)
  {
    var i :| 0 <= i < |b| && b[i] == x;
    var j :| 0 <= j < |d| && d[j] == x;
    assert (a + b + c + d)[|a| + i] == (a + b + c + d)[|a| + |b| + |c| + j];
  }

  lemma UnknownTwice(r: Request, st: PlanState, p: string, c: Config)
    requires r.CountsLegal() && r.UnknownWanted(p) && c in GroupOf(st.groups, p)
    ensures !DistinctIds(PlanProfile(r, PlanProfile(r, st, p), p).next)
  {
    var e := GroupOf(st.groups, p);
    TwiceInLayout(st.next, e, [], e, c);
    assert st.next + e + [] + e == st.next + e + e;
  }

  lemma GrowTwice(r: Request, st: PlanState, p: string, c: Config)
    requires r.CountsLegal() && !r.UnknownWanted(p) && c in GroupOf(st.groups, p)
    requires |GroupOf(st.groups, p)| <= r.Desired(p)
    ensures !DistinctIds(PlanProfile(r, PlanProfile(r, st, p), p).next)
  {
    var e, once := GroupOf(st.groups, p), PlanProfile(r, st, p);
    var twice := PlanProfile(r, once, p);
    var added, more := once.next[|st.next + e|..], twice.next[|once.next + e|..];
    assert once.next == st.next + e + added && once.groups == st.groups;
    TwiceInLayout(st.next, e, added, e + more, c);
    assert twice.next == st.next + e + added + (e + more);
  }

  lemma ShrinkOnce(r: Request, st: PlanState, p: string)
    requires DistinctIds(r.current) && r.CountsLegal() && !r.UnknownWanted(p)
    requires GroupOf(st.groups, p) == Grouped(r.current, p) && |Grouped(r.current, p)| > r.Desired(p)
    ensures var e, kept, once := Grouped(r.current, p), Kept(r, p), PlanProfile(r, st, p);
      && |kept| <= |e| && once.next == st.next + kept && GroupOf(once.groups, p) == kept + e[|kept|..]
  {
    KeptElements(r, p);
    BusyOfElements(Grouped(r.current, p)[r.Desired(p)..], r.busy);
    hide SortById, BusyOf, OfProfile, FreeOf;
  }

  /** Whatever the first turn keeps at the front, the second turn keeps again. */
  lemma ShrinkAgain(r: Request, st: PlanState, p: string, kept: seq<Config>, rest: seq<Config>, c: Config)
    returns (part: seq<Config>, x: Config)
    requires r.CountsLegal() && !r.UnknownWanted(p) && |kept + rest| > r.Desired(p)
    requires GroupOf(st.groups, p) == kept + rest && |kept| >= r.Desired(p)
    requires c in kept && (r.Desired(p) > 0 || c.id in r.busy)
    ensures PlanProfile(r, st, p).next == st.next + part && x in kept && x in part
  {
    var e, d := kept + rest, r.Desired(p);
    BusyOfElements(e[d..], r.busy);
    var again := e[..d] + BusyOf(e[d..], r.busy);
    SortByIdElements(again);
    part := SortById(again);
    if d > 0 {
      x := kept[0];
      assert x == e[..d][0] && x in again;
    } else {
      x := c;
      assert e[0..] == e && x in e && x in BusyOf(e[d..], r.busy) && x in again;
    }
    hide SortById, BusyOf, FreeOf;
  }

  lemma ShrinkTwice(r: Request, st: PlanState, p: string, c: Config)
    requires DistinctIds(r.current) && r.CountsLegal() && !r.UnknownWanted(p)
    requires GroupOf(st.groups, p) == Grouped(r.current, p) && |Grouped(r.current, p)| > r.Desired(p)
    requires c in Kept(r, p)
    ensures !DistinctIds(PlanProfile(r, PlanProfile(r, st, p), p).next)
  {
    hide SortById, BusyOf, PlanProfile, DistinctIds, Grouped, Rank;
    var e, kept, once := Grouped(r.current, p), Kept(r, p), PlanProfile(r, st, p);
    ShrinkOnce(r, st, p);
    KeptElements(r, p);
    assert |kept| >= r.Desired(p);
    hide Kept;
    var part, x := ShrinkAgain(r, once, p, kept, e[|kept|..], c);
    TwiceInLayout(st.next, kept, [], part, x);
    assert st.next + kept + [] + part == st.next + kept + part;
  }

  /** A Slot that the plan keeps, of a profile that gets two turns, makes an ID occur twice. */
  lemma SecondTurnRepeats(r: Request, st: PlanState, c: Config)
    requires DistinctIds(r.current) && r.CountsLegal() && c in r.current && Keeps(r, c)
    requires GroupOf(st.groups, c.profile) == Grouped(r.current, c.profile)
    ensures !DistinctIds(PlanProfile(r, PlanProfile(r, st, c.profile), c.profile).next)
  {
    var p := c.profile;
    GroupedProperties(r.current, p);
    hide PlanProfile, Rank;
    if r.UnknownWanted(p) {
      UnknownTwice(r, st, p, c);
    } else if |Grouped(r.current, p)| <= r.Desired(p) {
      GrowTwice(r, st, p, c);
    } else {
      KeptElements(r, p);
      ShrinkTwice(r, st, p, c);
    }
  }

  lemma {:induction false} FoldConcat(r: Request, st: PlanState, a: seq<string>, b: seq<string>)
    requires r.CountsLegal()
    ensures PlanFold(r, st, a + b) == PlanFold(r, PlanFold(r, st, a), b)
    decreases |a|
  {
    if a == [] {
      assert a + b == b;
    } else {
      assert (a + b)[1..] == a[1..] + b;
      FoldConcat(r, PlanProfile(r, st, a[0]), a[1..], b);
    }
  }

  lemma {:induction false} FoldLeavesGroup(r: Request, st: PlanState, names: seq<string>, p: string)
    requires r.CountsLegal() && p !in names
    ensures GroupOf(PlanFold(r, st, names).groups, p) == GroupOf(st.groups, p)
    decreases |names|
  {
    if names != [] {
      OtherGroup(r, st, names[0], p);
      FoldLeavesGroup(r, PlanProfile(r, st, names[0]), names[1..], p);
    }
  }

  lemma {:induction false} FoldAppends(r: Request, st: PlanState, names: seq<string>)
    requires r.CountsLegal()
    ensures st.next <= PlanFold(r, st, names).next
    decreases |names|
  {
    if names != [] {
      assert st.next <= PlanProfile(r, st, names[0]).next;
      FoldAppends(r, PlanProfile(r, st, names[0]), names[1..]);
    }
  }

  lemma RemovedElement(cs: seq<Config>, i: nat, j: nat)
    requires i < j < |cs| && cs[i] == cs[j]
    ensures |set c | c in cs| < |cs|
  {
    var rest := cs[..i] + cs[i + 1..];
    forall c | c in cs ensures c in rest {
      var k :| 0 <= k < |cs| && cs[k] == c;
      var m := if k == i then j else k;
      assert c == if m < i then rest[m] else rest[m - 1];
    }
    assert (set c | c in cs) == (set c | c in rest);
    SetOfSeq(rest);
  }

  lemma {:induction false} SetOfSeq(cs: seq<Config>)
    ensures |set c | c in cs| <= |cs|
  {
    if cs != [] {
      var front, last := cs[..|cs| - 1], cs[|cs| - 1];
      SetOfSeq(front);
      assert cs == front + [last];
      assert (set c | c in cs) == (set c | c in front) + {last};
    }
  }

  lemma NoElementTwice(cs: seq<Config>, i: nat, j: nat)
    requires i < j < |cs| && |set c | c in cs| == |cs|
    ensures cs[i] != cs[j]
  {
    if cs[i] == cs[j] {
      RemovedElement(cs, i, j);
    }
  }

  /** Sorting brings no distinct IDs back. */
  lemma SortRepeats(cs: seq<Config>)
    ensures DistinctIds(SortById(cs)) ==> DistinctIds(cs)
  {
    var sorted := SortById(cs);
    SortByIdElements(cs);
    hide SortById;
    if DistinctIds(sorted) {
      DistinctCardinality(sorted);
      assert (set c | c in sorted) == (set c | c in cs);
      forall i, j | 0 <= i < j < |cs| ensures cs[i].id != cs[j].id {
        NoElementTwice(cs, i, j);
        assert cs[i] in sorted && cs[j] in sorted;
      }
    }
  }

  // ---------------------------------------------------------------- when the plan is right

  /** Counted and present, but not ordered. */
  predicate Doubled(r: Request, order: seq<string>, p: string) {
    p in r.counts && p in Present(r.current) && p !in order
  }

  /** Some Slot that the plan keeps belongs to such a profile. */
  ghost predicate KeptTwice(r: Request, order: seq<string>) {
    exists c :: c in r.current && Doubled(r, order, c.profile) && Keeps(r, c)
  }

  lemma DoubledIdle(r: Request, order: seq<string>, p: string)
    requires DistinctIds(r.current) && r.CountsLegal() && !KeptTwice(r, order) && Doubled(r, order, p)
    ensures Idle(r, InitialState(r.current), p)
  {
    var e := Grouped(r.current, p);
    GroupedProperties(r.current, p);
    var c :| c in r.current && c.profile == p;
    assert c in e && e[0] in e;
    RankIsPosition(r.current, p, 0);
    hide Rank, Grouped;
    assert !Keeps(r, e[0]);
    forall d | d in e ensures d.id !in r.busy { assert !Keeps(r, d); }
  }

  lemma NotKeptTwice(r: Request, order: seq<string>, names: seq<string>)
    requires DistinctIds(r.current) && r.CountsLegal() && IsProfileOrder(names, order, r.counts, Present(r.current))
    requires !KeptTwice(r, order)
    ensures MeetsSpec(r, PlanOf(r, names))
  {
    hide IsProfileOrder, KeptTwice, MeetsSpec, Keeps, Idle, NoRepeats, PlanFold, InitialState;
    var once := Squeeze(names);
    var twice := set p | p in r.counts && Doubled(r, order, p);
    forall p | p in twice ensures Idle(r, InitialState(r.current), p) { DoubledIdle(r, order, p); }
    TurnsTogether(names, order, r.counts, Present(r.current));
    SqueezeElements(names);
    hide Together, Squeeze;
    forall i | 0 < i < |names| && names[i - 1] == names[i] ensures names[i] in twice {
      TurnCount(names, order, r.counts, Present(r.current), names[i]);
      TwoOf(names, i - 1, i);
    }
    FoldSqueeze(r, InitialState(r.current), names, twice);
    forall p | p in Present(r.current) + r.counts.Keys ensures p in names {
      TurnCount(names, order, r.counts, Present(r.current), p);
      assert p in multiset(names);
    }
    OneTurnEach(r, once);
  }

  lemma TwoOf(s: seq<string>, i: nat, j: nat)
    requires i < j < |s| && s[i] == s[j]
    ensures multiset(s)[s[i]] >= 2
  {
    assert s == s[..j] + [s[j]] + s[j + 1..];
    assert s[i] in multiset(s[..j]) by { assert s[..j][i] == s[i]; }
  }

  lemma SecondOf(names: seq<string>, p: string, i: nat) returns (k: nat)
    requires i < |names| && names[i] == p && p !in names[..i] && multiset(names)[p] >= 2
    ensures i < k < |names| && names[k] == p
  {
    var before, after := names[..i], names[i + 1..];
    assert names == before + ([p] + after);
    assert multiset(names) == multiset(before) + (multiset{p} + multiset(after));
    assert p !in multiset(before) && p in multiset(after);
    var j :| 0 <= j < |after| && after[j] == p;
    k := i + 1 + j;
  }

  lemma TwoTurns(names: seq<string>, p: string) returns (i: nat)
    requires Together(names) && multiset(names)[p] == 2
    ensures i + 1 < |names| && names[i] == names[i + 1] == p && p !in names[..i]
  {
    hide Together;
    assert p in multiset(names);
    i := FirstOf(names, p);
    var k := SecondOf(names, p, i);
    NextTo(names, i, k);
  }

  lemma NextTo(s: seq<string>, i: nat, k: nat)
    requires Together(s) && i < k < |s| && s[i] == s[k]
    ensures s[i + 1] == s[i]
  {
  }

  lemma {:induction false} FirstOf(s: seq<string>, p: string) returns (i: nat)
    requires p in s
    ensures i < |s| && s[i] == p && p !in s[..i]
  {
    if s[0] == p {
      i := 0;
    } else {
      var k := FirstOf(s[1..], p);
      i := k + 1;
      assert s[..i] == [s[0]] + s[1..][..k];
    }
  }

  lemma RepeatsWhenKeptTwice(r: Request, order: seq<string>, names: seq<string>)
    requires DistinctIds(r.current) && r.CountsLegal() && IsProfileOrder(names, order, r.counts, Present(r.current))
    requires KeptTwice(r, order)
    ensures !DistinctIds(PlanOf(r, names).slots)
  {
    hide IsProfileOrder, Keeps, DistinctIds, SortById, PlanProfile;
    var c :| c in r.current && Doubled(r, order, c.profile) && Keeps(r, c);
    var p := c.profile;
    TurnCount(names, order, r.counts, Present(r.current), p);
    TurnsTogether(names, order, r.counts, Present(r.current));
    var i := TwoTurns(names, p);
    var start := InitialState(r.current);
    var st := PlanFold(r, start, names[..i]);
    assert names == names[..i] + ([p, p] + names[i + 2..]);
    FoldConcat(r, start, names[..i], [p, p] + names[i + 2..]);
    FoldConcat(r, st, [p, p], names[i + 2..]);
    FoldLeavesGroup(r, start, names[..i], p);
    assert GroupOf(start.groups, p) == Grouped(r.current, p);
    SecondTurnRepeats(r, st, c);
    var twice := PlanProfile(r, PlanProfile(r, st, p), p);
    FoldTwo(r, st, p);
    FoldAppends(r, twice, names[i + 2..]);
    PrefixRepeats(twice.next, PlanFold(r, start, names).next);
    SortRepeats(PlanFold(r, start, names).next);
  }

  lemma FoldTwo(r: Request, st: PlanState, p: string)
    requires r.CountsLegal()
    ensures PlanFold(r, st, [p, p]) == PlanProfile(r, PlanProfile(r, st, p), p)
  {
    hide PlanProfile;
    var once := PlanProfile(r, st, p);
    assert [p, p][1..] == [p] && [p][1..] == [];
    assert PlanFold(r, once, [p]) == PlanFold(r, PlanProfile(r, once, p), []);
  }

  lemma PrefixRepeats(a: seq<Config>, b: seq<Config>)
    requires a <= b && !DistinctIds(a)
    ensures !DistinctIds(b)
  {
    var i, j :| 0 <= i < j < |a| && a[i].id == a[j].id;
    assert b[i].id == b[j].id;
  }

  /** For any order at all, the plan is what the planner promises exactly when it keeps no Slot of a
      profile that is counted and present but not ordered; otherwise it names an ID twice. */
  lemma PlanMeetsSpecIff(r: Request, order: seq<string>, names: seq<string>)
    requires DistinctIds(r.current) && r.CountsLegal() && IsProfileOrder(names, order, r.counts, Present(r.current))
    ensures MeetsSpec(r, PlanOf(r, names)) <==> !KeptTwice(r, order)
    ensures DistinctIds(PlanOf(r, names).slots) <==> !KeptTwice(r, order)
  {
    hide PlanOf, IsProfileOrder, KeptTwice, BlockedAt, ProfileDone;
    if KeptTwice(r, order) {
      RepeatsWhenKeptTwice(r, order, names);
    } else {
      NotKeptTwice(r, order, names);
    }
  }

  lemma AppendedToNothing(extras: seq<string>)
    ensures Dedup([]) + extras == extras
  {
  }

  lemma SameTwiceSorted(p: string)
    ensures SortedStrings([p, p])
  {
    StrLessTrichotomy(p, p);
  }

  lemma SameTwiceMultiset(p: string)
    ensures multiset([p, p]) == multiset({p}) + multiset({p})
  {
    assert multiset([p, p]) == multiset{p, p};
  }

  lemma LeftOut(keys: set<string>)
    ensures (set p | p in keys && p !in []) == keys
  {
  }

  lemma UnorderedTwice(counts: Counts, present: set<string>)
    requires counts.Keys == {"a"} && present == {"a"}
    ensures IsProfileOrder(["a", "a"], [], counts, present)
  {
    hide *;
    AppendedToNothing(["a", "a"]);
    SameTwiceSorted("a");
    SameTwiceMultiset("a");
    LeftOut(present);
    assert (set p | p in counts && p !in []) == {"a"};
    OrderFrom(["a", "a"], [], counts, present);
  }

  /** One Slot, still wanted, no order: the plan has it twice. */
  lemma UnorderedPlanRepeats(res: Resources)
    ensures var r := Request([Config(0, "a", res)], map["a" := 1], map["a" := res], {}); var names := ["a", "a"];
      && DistinctIds(r.current) && r.CountsLegal() && IsProfileOrder(names, [], r.counts, Present(r.current))
      && !DistinctIds(PlanOf(r, names).slots)
  {
    hide PlanOf, IsProfileOrder;
    var c := Config(0, "a", res);
    var r := Request([c], map["a" := 1], map["a" := res], {});
    assert Present(r.current) == {"a"} by { assert c in r.current; }
    UnorderedTwice(r.counts, Present(r.current));
    assert KeptTwice(r, []) by {
      assert Lower(r.current, c) == {};
      assert c in r.current && Doubled(r, [], "a") && Keeps(r, c);
    }
    PlanMeetsSpecIff(r, [], ["a", "a"]);
    hide KeptTwice, Present;
  }
}
