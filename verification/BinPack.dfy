/** internal/scheduler/binpack.go: the preference among candidates, and the loop that picks one. */
module BinPack {
  import opened Base

  datatype WorkerKey = WorkerKey(namespace: string, pool: string, name: string)

  datatype Candidate = Candidate(worker: WorkerKey, slotID: SlotID, profile: string, freeSlots: nat, busySlots: nat)

  predicate Better(a: Candidate, b: Candidate) {
    var aBusy, bBusy := a.busySlots > 0, b.busySlots > 0;
    if aBusy != bBusy then aBusy
    else if aBusy && a.freeSlots != b.freeSlots then a.freeSlots < b.freeSlots
    else if a.worker.name != b.worker.name then StrLess(a.worker.name, b.worker.name)
    else a.slotID < b.slotID
  }

  /** Not told apart by the preference. */
  predicate Tied(a: Candidate, b: Candidate) {
    && a.worker.name == b.worker.name && a.slotID == b.slotID
    && (a.busySlots > 0 <==> b.busySlots > 0)
    && (a.busySlots > 0 ==> a.freeSlots == b.freeSlots)
  }

  lemma BetterTransitive(a: Candidate, b: Candidate, c: Candidate)
    requires Better(a, b) && Better(b, c)
    ensures Better(a, c)
  {
    var x, y, z := a.worker.name, b.worker.name, c.worker.name;
    StrLessTrichotomy(x, y);
    StrLessTrichotomy(y, z);
    if StrLess(x, y) && StrLess(y, z) {
      StrLessTransitive(x, y, z);
      StrLessTrichotomy(x, z);
    }
  }

  /** Of two candidates exactly one is preferred, unless they are tied. */
  lemma BetterTrichotomy(a: Candidate, b: Candidate)
    ensures Tied(a, b) <==> !Better(a, b) && !Better(b, a)
    ensures !(Better(a, b) && Better(b, a))
  {
    StrLessTrichotomy(a.worker.name, b.worker.name);
  }

  predicate Best(cs: set<Candidate>, c: Candidate) {
    c in cs && forall d :: d in cs ==> !Better(d, c)
  }

  /** Every Slot of every Worker occurs once: the candidates of one request. */
  predicate OneRequest(cs: set<Candidate>) {
    forall a, b :: a in cs && b in cs && a.worker.name == b.worker.name && a.slotID == b.slotID ==> a == b
  }

  /** Among the candidates of one request the best one is unique, whatever order they come in. */
  lemma BestUnique(cs: set<Candidate>, a: Candidate, b: Candidate)
    requires OneRequest(cs) && Best(cs, a) && Best(cs, b)
    ensures a == b
  {
    BetterTrichotomy(a, b);
  }

  /** The best candidate is on a Worker already in use if any candidate is, and then on one with
      the fewest matching free Slots among those. */
  lemma BestPacks(cs: set<Candidate>, best: Candidate, d: Candidate)
    requires Best(cs, best) && d in cs
    ensures d.busySlots > 0 ==> best.busySlots > 0 && best.freeSlots <= d.freeSlots
  {
  }

  /** Which candidate is to be taken: one on a Worker in use if there is any, there one with the fewest
      matching free Slots; among what is left the least Worker name, and of that Worker the least Slot. */
  predicate First(cs: set<Candidate>, c: Candidate) {
    && c in cs
    && (c.busySlots == 0 ==> forall d :: d in cs ==> d.busySlots == 0)
    && (c.busySlots > 0 ==> forall d :: d in cs && d.busySlots > 0 ==> c.freeSlots <= d.freeSlots)
    && forall d :: d in cs && (c.busySlots > 0 ==> d.busySlots > 0 && d.freeSlots == c.freeSlots) ==>
         StrLess(c.worker.name, d.worker.name) || (c.worker.name == d.worker.name && c.slotID <= d.slotID)
  }

  lemma BestIffFirst(cs: set<Candidate>, c: Candidate)
    ensures Best(cs, c) <==> First(cs, c)
  {
    forall d | d in cs
      ensures StrLess(c.worker.name, d.worker.name) || c.worker.name == d.worker.name
        || StrLess(d.worker.name, c.worker.name)
      ensures !(StrLess(c.worker.name, d.worker.name) && StrLess(d.worker.name, c.worker.name))
    {
      StrLessTrichotomy(c.worker.name, d.worker.name);
    }
  }

  datatype Selection = Selected(best: Candidate) | NoCandidates

  /** Keeps the first of the preferred candidates seen so far. */
  method Select(candidates: seq<Candidate>) returns (r: Selection)
    ensures r.NoCandidates? <==> candidates == []
    ensures r.Selected? ==> Best((set c | c in candidates), r.best) && First((set c | c in candidates), r.best)
  {
    if |candidates| == 0 {
      return NoCandidates;
    }
    var best := candidates[0];
    BetterTrichotomy(best, best);
    for i := 1 to |candidates|
      invariant best in candidates[..i]
      invariant forall d :: d in candidates[..i] ==> !Better(d, best)
    {
      var c := candidates[i];
      assert candidates[..i + 1] == candidates[..i] + [c];
      BetterTrichotomy(c, best);
      BetterTrichotomy(c, c);
      if Better(c, best) {
        forall d | d in candidates[..i] ensures !Better(d, c) {
          if Better(d, c) {
            BetterTransitive(d, c, best);
          }
        }
        best := c;
      }
    }
    assert candidates[..|candidates|] == candidates;
    BestIffFirst((set c | c in candidates), best);
    return Selected(best);
  }

  /** Every non-empty set of candidates has a best one. */
  lemma {:induction false} BestExists(cs: set<Candidate>) returns (best: Candidate)
    requires cs != {}
    ensures Best(cs, best)
  {
    var c :| c in cs;
    BetterTrichotomy(c, c);
    if cs == {c} {
      return c;
    }
    var b := BestExists(cs - {c});
    if !Better(c, b) {
      return b;
    }
    forall d | d in cs ensures !Better(d, c) {
      if d != c && Better(d, c) {
        BetterTransitive(d, c, b);
      }
    }
    return c;
  }
}
