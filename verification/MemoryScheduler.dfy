/** The in-memory Scheduler as the source writes it: two maps updated by the methods. Go's map order
    is arbitrary, and so is the order in which these loops take their keys. */
module MemoryScheduler {
  import opened Base
  import opened BinPack
  import opened WorkerSlots
  import S = Scheduler

  class Memory {
    var workers: map<WorkerKey, S.WorkerState>
    var assignments: map<UID, S.Assignment>

    constructor ()
      ensures View() == S.EMPTY
    {
      workers, assignments := map[], map[];
    }

    ghost function View(): S.Sched
      reads this
    {
      S.Sched(workers, assignments)
    }

    method UpdateWorker(state: S.WorkerState)
      modifies this
      ensures S.Updated(old(View()), state, View())
    {
      var slots := state.slots;
      var todo := assignments.Keys;
      while todo != {}
        invariant todo <= assignments.Keys && View() == old(View()) && slots.Keys == state.slots.Keys
        invariant forall id :: id in slots ==> Reflected(View(), todo, state.key, id, state.slots[id], slots[id])
        decreases |todo|
      {
        var uid := Pick(todo);
        var a := assignments[uid];
        if a.worker == state.key && a.slotID in slots && slots[a.slotID].state == Free {
          assert S.HeldBy(View(), state.key, a.slotID, uid);
          slots := slots[a.slotID := slots[a.slotID].(state := Reserved, uid := uid)];
        }
        todo := todo - {uid};
      }
      workers := workers[state.key := state.(slots := slots)];
    }

    method RemoveWorker(key: WorkerKey)
      modifies this
      ensures View() == S.RemoveWorker(old(View()), key)
    {
      workers := workers - {key};
    }

    /** Filters the free matching Slots of the healthy Workers, then packs. */
    method Assign(req: S.AssignRequest) returns (reply: S.AssignReply)
      modifies this
      ensures (View(), reply) == S.Assign(old(View()), req)
    {
      if req.uid in assignments {
        return S.Assigned(assignments[req.uid]);
      }
      if req.profile == "" {
        return S.InvalidProfile;
      }
      var candidates := CollectCandidates(req);
      assert |candidates| == 0 <==>
        S.Candidates(View(), req) == {} by { EmptyAlike(candidates, S.Candidates(View(), req)); }
      var selection := Select(candidates);
      if selection.NoCandidates? {
        return S.NoCapacity;
      }
      var best := selection.best;
      S.CandidatesOfOneRequest(View(), req);
      S.AssignDetermined(View(), req, best);
      var worker := workers[best.worker];
      var info := worker.slots[best.slotID];
      info := info.(state := Reserved, uid := req.uid);
      workers := workers[best.worker := worker.(slots := worker.slots[best.slotID := info])];
      var assignment := S.Assignment(req.uid, req.namespace, req.name, best.worker, best.slotID, req.profile);
      assignments := assignments[req.uid := assignment];
      return S.Assigned(assignment);
    }

    method CollectCandidates(req: S.AssignRequest) returns (candidates: seq<Candidate>)
      ensures (set c | c in candidates) == S.Candidates(View(), req)
    {
      candidates := [];
      var todo := workers.Keys;
      while todo != {}
        invariant todo <= workers.Keys
        invariant forall c :: c in candidates <==> c in S.Candidates(View(), req) && c.worker !in todo
        decreases |todo|
      {
        var key := Pick(todo);
        var worker := workers[key];
        if key.namespace == req.namespace && key.pool == req.pool && worker.healthy {
          var found := CandidatesOn(key, worker.slots, req.profile);
          S.CandidatesOfOneRequest(View(), req);
          candidates := candidates + found;
        }
        todo := todo - {key};
      }
    }

    static method CandidatesOn(key: WorkerKey, slots: map<SlotID, S.Info>, profile: string)
      returns (found: seq<Candidate>)
      ensures forall c :: c in found <==>
        && c.slotID in slots && slots[c.slotID].state == Free && slots[c.slotID].profile == profile
        && c == Candidate(key, c.slotID, profile, |S.FreeSlots(slots, profile)|, |S.BusySlots(slots)|)
    {
      var freeMatching, busy := CountWorkerSlots(slots, profile);
      found := [];
      var todo := slots.Keys;
      while todo != {}
        invariant todo <= slots.Keys
        invariant forall c :: c in found <==>
          && c.slotID in slots && c.slotID !in todo && slots[c.slotID].state == Free &&
               slots[c.slotID].profile == profile
          && c == Candidate(key, c.slotID, profile, freeMatching, busy)
        decreases |todo|
      {
        var id := Pick(todo);
        todo := todo - {id};
        if slots[id].state == Free && slots[id].profile == profile {
          found := found + [Candidate(key, id, profile, freeMatching, busy)];
        }
      }
    }

    static method CountWorkerSlots(slots: map<SlotID, S.Info>, profile: string) returns (freeMatching: nat, busy: nat)
      ensures freeMatching == |S.FreeSlots(slots, profile)| && busy == |S.BusySlots(slots)|
    {
      freeMatching, busy := 0, 0;
      var todo := slots.Keys;
      while todo != {}
        invariant todo <= slots.Keys
        invariant freeMatching == |S.FreeSlots(slots, profile) - todo| && busy == |S.BusySlots(slots) - todo|
        decreases |todo|
      {
        var id := Pick(todo);
        OneMoreSeen(S.FreeSlots(slots, profile), todo, id);
        OneMoreSeen(S.BusySlots(slots), todo, id);
        if slots[id].state != Free {
          busy := busy + 1;
        } else if slots[id].profile == profile {
          freeMatching := freeMatching + 1;
        }
        todo := todo - {id};
      }
      assert S.BusySlots(slots) - {} == S.BusySlots(slots) &&
        S.FreeSlots(slots, profile) - {} == S.FreeSlots(slots, profile);
    }

    method Restore(a: S.Assignment) returns (ok: bool)
      modifies this
      ensures (View(), ok) == S.Restore(old(View()), a)
    {
      if a.uid in assignments {
        return assignments[a.uid] == a;
      }
      if a.worker in workers {
        var worker := workers[a.worker];
        if a.slotID in worker.slots {
          var info := worker.slots[a.slotID];
          if info.state != Free && info.uid != a.uid {
            return false;
          }
          info := info.(state := Reserved, uid := a.uid);
          if a.profile != "" {
            info := info.(profile := a.profile);
          }
          workers := workers[a.worker := worker.(slots := worker.slots[a.slotID := info])];
        }
      }
      assignments := assignments[a.uid := a];
      return true;
    }

    method Release(uid: UID)
      modifies this
      ensures View() == S.Release(old(View()), uid)
    {
      if uid !in assignments {
        return;
      }
      var a := assignments[uid];
      assignments := assignments - {uid};
      if a.worker !in workers {
        return;
      }
      var worker := workers[a.worker];
      if a.slotID !in worker.slots {
        return;
      }
      var info := worker.slots[a.slotID];
      if info.uid != uid {
        return;
      }
      info := info.(state := Free, uid := "");
      workers := workers[a.worker := worker.(slots := worker.slots[a.slotID := info])];
    }
  }

  lemma OneMoreSeen(s: set<SlotID>, todo: set<SlotID>, id: SlotID)
    requires id in todo
    ensures |s - (todo - {id})| == |s - todo| + if id in s then 1 else 0
  {
    if id in s {
      assert s - (todo - {id}) == s - todo + {id};
    } else {
      assert s - (todo - {id}) == s - todo;
    }
  }

  lemma EmptyAlike(candidates: seq<Candidate>, cs: set<Candidate>)
    requires (set c | c in candidates) == cs
    ensures |candidates| == 0 <==> cs == {}
  {
    if |candidates| > 0 {
      assert candidates[0] in cs;
    }
  }

  /** What UpdateWorker has made of a reported Slot when the holders in `todo` are not yet seen. */
  ghost predicate Reflected(s: S.Sched, todo: set<UID>, k: WorkerKey, id: SlotID, reported: S.Info, shown: S.Info) {
    if reported.state == Free && exists uid :: uid !in todo && S.HeldBy(s, k, id, uid)
    then exists uid :: S.HeldBy(s, k, id, uid) && shown == reported.(state := Reserved, uid := uid)
    else shown == reported
  }
}
