# Slot bookkeeping of SandboxFleet, verified

SandboxFleet places sandboxes into fixed Slots on Worker Pods. This project models the code that
decides which sandbox holds which Slot, which Slots a Worker has, and what a memory snapshot
contains, and proves what that code promises. What Kubernetes, the VMMs, the object store and the
file system answer is an input of every operation, so each theorem is over every answer they can
give. Source code that updates state in place is a class or a loop here, proved against a
specification function; the lemmas are about those functions and about whole runs.

`dafny verify dfyconfig.toml` verifies everything.

| part | files |
|---|---|
| topology planner | `Topology` (specification and its laws), `TopologyIds` (which IDs a plan hands out), `TopologyOrder` (orders that leave a profile out), `Planner` (the loops and the in-place filter), `TopologyApply` (composition with the Workers), `TopologyReasons` (why a plan is blocked), `TopologyPushes` (Workers that hold another layout) |
| capacity of Worker Pods | `PoolCapacity`, `PoolReconciler` |
| Worker Slots | `WorkerSlots` (transitions, state table, runtime accounting), `WorkerOutcomes` (what each operation comes to), `SlotManager` (the classes), `WorkerRecovery` |
| Scheduler | `BinPack`, `Scheduler`, `SchedulerOutcomes` (what each call leaves), `MemoryScheduler` (the class), `SchedulerRuns` |
| ownership protocol | `Ownership` (state machine, finalizer safety), `OwnershipRuns` (no double placement), `OwnershipRestart`, `OwnershipAccounting`, `OwnershipStretches` (pieces of runs), `DeletionBlocked`, `OwnershipExamples` (runs from the empty system), `ReconcileOutcomes` (what a reconcile comes to), `SandboxReconciler` (the class, refining the state machine) |
| nested checkpoints | `SparseMerge`, `MergeFiles`, `KataLineage`, `KataHost` |
| snapshot store | `SnapshotLayout`, `SnapshotKeys` (paths and keys as other tools see them), `SnapshotStore`, `SnapshotReupload` |
| overlay option | `OverlayLowerdir` |
| shared | `Base`, `GoStrings` |

## Where the code does not keep a promise one might expect

Each of these is a lemma about the code as it is, with the exact condition or a concrete state.

- A plan can give an ID that one profile frees to another profile. Workers then reject the layout,
  CountNewSlots does not count the new Slot, and the headroom check is skipped. When this happens is
  decided by the current layout and the counts alone (`CrossesIffFreedIdReached`,
  `AcceptsIffNoFreedIdReached`, `CountExactIffNotCrossing`, `CrossingOvercommits`).
- A profile that is counted and present but missing from the order gets two turns. The plan is right
  for such an order exactly when it keeps no Slot of that profile, and otherwise it names an ID twice
  (`TurnCount`, `PlanMeetsSpecIff`, `UnorderedPlanRepeats`).
- Restore checks a clash only on Workers the Scheduler sees (`RestoreKeepsInvIff`,
  `UnseenRestoreExample`).
- A Worker process that restarts while its runtime still lists objects never comes up, because it
  recovers into an empty set of Slots (`RestartServesIff`).
- A recovery does not restore the mark that says which backend deletes an object, so it is right exactly
  when nothing that was listed is self-managed or from a snapshot (`RecoverMarksIff`).
- A sandbox from a snapshot whose runtime died is not started again: RestoreFromSnapshot takes a Running
  Slot at its word, while StartSandbox asks for the status (`RestoreDoneIff`, `StartsIff`).
- A sandbox that is newly assigned after a restart, before the placed ones are restored, can get the
  Slot of one of them, even when every Worker reports the truth. Two live sandboxes are then placed
  on one Slot exactly in that case (`NewAssignmentPlacesTwiceIff`, `EarlyAssignmentPlacesTwice`).
- A failed start whose clean-up fails too, and a checkpoint whose ignored clean-up fails, forget a live
  runtime object (`OrphansIffForgets`, `EveryBranchForgets`).
- A deletion asks the Worker of the sandbox to stop and release its Slot. One reconcile of it in which
  every call is delivered and no answer is a fault ends it exactly when the sandbox is placed nowhere, or
  its Worker is there, knows the Slot and has no other sandbox in it (`DeletionGoesThroughIff`); otherwise
  it waits (`DeletionWaits`). Each way of failing is reached from the empty system: the finalizer write
  fails after the Scheduler gave the Slot up and another sandbox gets it (`BlockedReached`), a layout
  without the Slot is pushed before it was reserved (`UnknownSlotReached`), the Pod is gone
  (`MissingWorkerReached`).
- A Worker whose layout differs from the recorded one, after a push that did not reach all Workers or a
  failed status write, refuses a plan that gives one of its IDs another profile, however often the plan
  is pushed (`AnyWorkerAcceptsIff`, `RetryAcceptedIff`, `LeftBehindForever`).
- After a topology push fails, Pods are still built for the layout that was not applied. They have room
  for the recorded one exactly when the new layout needs no less of any resource, so not when it
  shrinks (`FailedPushKeepsPromiseIff`, `GrowingPushKeepsPromise`, `FailedPushOvercommits`).
- An error at a later template of a pool, or a failed status write, leaves the Pod templates that were
  already rewritten while nothing is recorded (`PoolReconciler.Reconcile`); for each of those templates
  that is the state after a failed push.
- A checkpoint that fails after the memory merge has used up its restore image. A second checkpoint of
  the same VM, which stays paused, saves the raw dump, and that is the guest's memory exactly when the
  restore image was zero in its holes (`CheckpointTwice`, `CheckpointIsMemoryIff`, `RawDumpExample`).
- MergeSparseOverlay notices a size mismatch only after copying, and leaves the copy behind
  (`MergeFiles.Host.MergeSparseOverlay`).
- Download normalizes a storage path twice to find the manifest, and normalizing is not idempotent on
  paths like `//a` (`NormalizeStableIff`, `UploadThenFetch`).
- An upload over an older snapshot that stops before its manifest leaves readers with the older
  manifest and the newer files (`ReuploadSeen`, `OldSnapshotSeenIff`, `MixedRead`).
- The clean-up after a failed upload goes by the manifest that is there. Without one it removes no
  file; with one it removes the files that manifest lists, put or not, and the older snapshot with them
  (`HalfUploadStaysIff`, `OlderSnapshotDeleted`).

Two comments in the source say more than its code does: `internal/snapshotstore/store.go:63-64` ("restore
never sees a half-uploaded set") needs a prefix that had no manifest before, and
`internal/snapshotter/kata_restore_linux.go:68-72` ("self-contained") needs the restore image to be found.

## Model

| member | source | states |
|---|---|---|
| Topology.PlanMeetsSpec | internal/slot/config.go:40-109 | For distinct current IDs and an order that covers the counts, the layout is strictly sorted by ID; every busy Slot survives; each profile keeps exactly its lowest wanted IDs and the busy ones above, or grows to exactly the count; Blocked holds iff a busy Slot lies above a cut or an unknown profile is wanted |
| Topology.CoveringOrder | internal/slot/config.go:169-192 | With an order that covers the counts every ordered or present profile gets exactly one turn |
| TopologyOrder.TurnCount | internal/slot/config.go:169-192 | An ordered profile gets one turn; any other gets one for being counted and one for being present |
| TopologyOrder.SecondTurnRepeats | internal/slot/config.go:62-95 | A second turn of a profile of which the plan keeps a Slot, in any state the loop can have before it, makes an ID occur twice in the layout |
| TopologyOrder.PlanMeetsSpecIff | internal/slot/config.go:40-109 | For any order at all the plan has distinct IDs, and meets the whole specification of PlanMeetsSpec, iff it keeps no Slot of a profile that is counted and present but not ordered |
| TopologyOrder.UnorderedPlanRepeats | internal/slot/config.go:169-192 | A concrete request without an order whose plan names its only Slot twice |
| TopologyReasons.PlanReasons | internal/slot/config.go:62-86 | The reasons of a plan are exactly the unknown wanted profiles and the busy Slots above a cut, each once, profile by profile in the order of the turns and by ID within a profile |
| Topology.ReplanIdempotent | internal/slot/config.go:40-109 | Planning a plan's own output again with the same counts, busy set and profiles changes neither the Slots nor Blocked |
| Topology.ExactIffNotBlocked | internal/slot/config.go:71-86 | A known profile has its exact count after a plan iff none of its busy Slots lies above the cut |
| Topology.LeastFreeBound | internal/slot/config.go:194-202 | The least unused ID is at most the number of IDs in use |
| Topology.FreshProperties | internal/slot/config.go:90-100 | Newly allocated Slots have distinct unused IDs below the number of IDs then in use |
| TopologyIds.CrossesIffFreedIdReached | internal/slot/config.go:83-100 | A plan reuses an ID of another profile iff some growing profile's demand, with that of the profiles before it, exceeds the holes below an ID freed before its turn |
| TopologyIds.OneDirectionNeverCrosses | internal/slot/config.go:71-100 | A plan in which nothing shrinks, or nothing grows, reuses no freed ID |
| TopologyIds.FreedIdReachedInExample | internal/slot/config.go:83-100 | A concrete request in which a freed ID goes to another profile |
| TopologyIds.NewIdsAreSmall | internal/slot/config.go:48-55 | Every new ID is below the number of IDs of both layouts, so the int32 counter does not overflow while that number fits |
| Planner.NextFreeID | internal/slot/config.go:194-202 | The hole search returns the least unused non-negative ID although the maximum it keeps never shrinks |
| Planner.GroupByProfile | internal/slot/config.go:157-167 | The groups are exactly the profiles' Slots sorted by ID |
| Planner.OrderedProfiles | internal/slot/config.go:169-192 | The order without repeats, then the sorted leftovers of counts and groups |
| Planner.FilterAboveCut | internal/slot/config.go:74-84 | The append into the prefix of the array being read keeps the lowest Slots and the busy ones above, frees the other IDs and lists one reason for each kept busy Slot |
| Planner.PlanTopology | internal/slot/config.go:40-109 | The imperative planner computes the specified plan for an order the source's rules allow |
| TopologyApply.AcceptsIffNoFreedIdReached | internal/worker/manager.go:56-104 | A Worker that holds the current layout accepts a plan iff no ID freed by another profile is reached |
| TopologyApply.OneDirectionAccepted | internal/worker/manager.go:75-96 | It accepts every plan in which no profile shrinks or none grows |
| TopologyPushes.AnyWorkerAcceptsIff | internal/worker/manager.go:56-104 | A Worker that holds any layout accepts a plan for the recorded one iff no ID differs between the two and every Slot in use there is part of the plan |
| TopologyPushes.RetryAcceptedIff | internal/worker/manager.go:56-104 | Over every run of a Worker in which only one layout is pushed, it is accepted at the end iff no ID differed at the start and every Slot left out is Free at the end |
| TopologyPushes.PartialPushConvergesIff | internal/controller/pool_controller.go:172-206 | After a partial push the same plan is accepted by every Worker that has it and by one with the recorded layout iff it reaches no freed ID, and is then what the Worker holds |
| TopologyPushes.LeftBehindForever | internal/controller/pool_controller.go:172-206 | A Worker with an unrecorded second Slot refuses the next plan, which gives that ID to another profile, after every run |
| PoolCapacity.SumIsTotal | internal/slot/config.go:143-150 | The summed resources are, name by name, the totals over the Slots |
| PoolCapacity.EnoughForSubset | internal/slot/config.go:153-155 | Resources that cover a layout cover every layout made of some of its Slots |
| PoolCapacity.WorkerBudget | internal/controller/worker_dependencies.go:185-221 | A Pod's budget is the total of its Slots, and for CRI the largest memory limit and 2Gi more memory |
| PoolCapacity.MaxMemoryIsMax | internal/controller/worker_dependencies.go:194-202 | The memory overhead is the largest memory limit of a Slot, or zero |
| PoolCapacity.WorkerCoversItsSlots | internal/controller/worker_dependencies.go:185-192 | A Pod built for a layout has room for it |
| PoolCapacity.CountExactIffNotCrossing | internal/slot/config.go:128-140 | CountNewSlots counts all Slots that have to be made iff no ID changes its configuration |
| PoolCapacity.ExistingOnlyElements | internal/slot/config.go:113-125 | KeepExistingSlots keeps exactly the proposed Slots with an ID in use |
| PoolCapacity.ChosenFits | internal/controller/pool_controller.go:138-151 | Unless an ID crosses, the pushed layout fits every Pod that had room for the current one |
| PoolCapacity.SyncKeepsPromise | internal/controller/pool_controller.go:138-168 | A reconcile whose pushes succeed keeps room for the recorded layout in every Pod and in the Pod template |
| PoolCapacity.BuiltForIff | internal/controller/worker_dependencies.go:185-221 | A Pod built for one layout has room for another iff no resource of the other exceeds the total of the first, with a CRI Worker's extra memory, and a resource the first lacks is needed at zero |
| PoolCapacity.FailedPushKeepsPromiseIff | internal/controller/pool_controller.go:153-159 | After a failed push that room is kept iff, resource by resource, the recorded layout needs no more than the unpushed one and a CRI Worker's extra memory |
| PoolCapacity.GrowingPushKeepsPromise | internal/controller/pool_controller.go:153-159 | So a failed push of a layout with all recorded Slots keeps it |
| PoolCapacity.FailedPushOvercommits | internal/controller/pool_controller.go:153-159 | A concrete pool that shrinks from two Slots to one and loses it |
| PoolCapacity.NeverOvercommitted | internal/controller/pool_controller.go:110-168 | Over every run of plans, fallbacks, newly built and deleted Pods, every Pod has room for the recorded layout |
| PoolCapacity.PushKeepsPromiseIff | internal/controller/pool_controller.go:138-168 | For Pods built for whatever layouts, pushing any proposal keeps the promise iff all have room for it, resource by resource, or it has new IDs and all have room for it without those; without new IDs no headroom is checked |
| PoolCapacity.CrossingOvercommits | internal/controller/pool_controller.go:138-151 | A concrete plan that overcommits a Pod through a crossing ID |
| PoolReconciler.AddResourceList | internal/slot/config.go:220-238 | The loops add two resource lists name by name |
| PoolReconciler.ResourceListCovers | internal/slot/config.go:204-218 | True iff every needed amount is available, a missing name counting only for zero |
| PoolReconciler.CountNewSlots | internal/slot/config.go:128-140 | For distinct IDs the number of proposed IDs not in use |
| PoolReconciler.SlotCountsFromTemplate | internal/controller/pool_controller.go:520-537 | Fails at the first unknown or repeated profile; otherwise counts and order agree and the order covers the counts |
| PoolReconciler.WorkersCanFit | internal/controller/pool_controller.go:361-387 | True iff every Pod has a container with enough resources |
| PoolReconciler.TemplateReconciler.SyncTopology | internal/controller/pool_controller.go:172-206 | The layout is recorded iff no push to a ready Pod failed |
| PoolReconciler.TemplateReconciler.SyncTemplate | internal/controller/pool_controller.go:110-168 | One reconcile of a template computes the specified new layout, Pod template and pending flags; it fails iff the template is bad, a read of Pods that is needed fails or the StatefulSet is not written, and then leaves the Pod template as it was |
| PoolReconciler.GoThroughAll | internal/controller/pool_controller.go:47-54 | The templates in turn up to the first error: those gone through have the specified status, if their pushes succeeded, and Pod template; the others keep their Pod templates |
| PoolReconciler.Reconcile | internal/controller/pool_controller.go:37-60 | Succeeds iff no template fails and the status is written; otherwise nothing is recorded, while the Pod templates gone through are those of their plans |
| WorkerSlots.StepKeeps | internal/worker/manager.go:106-311 | Every operation, whatever the backends answer, keeps the state table of each Slot and the accounting of runtime objects |
| WorkerSlots.RunKeeps | internal/worker/manager.go:56-311 | So after every run: Free means no owner, runtime or directory, Reserved no runtime, Running and Starting one, a kept directory a restored runtime; Cleaning is never seen; each live object is an orphan or referenced by exactly one Slot of its own sandbox |
| WorkerSlots.OrphansIffForgets | internal/worker/manager.go:163-211 | A step makes an orphan iff it is a start, new or resumed, or a snapshot whose own clean-up fails with the object alive, by owner, state and answers |
| WorkerSlots.NoOrphansNoLeaks | internal/worker/manager.go:129-311 | In a run in which no step does so every live object has exactly one Slot, its sandbox's own, and that Slot is not Free |
| WorkerSlots.EveryBranchForgets | internal/worker/manager.go:163-211 | Each branch does it on a concrete Worker: a new start, a resumed one, one that replaces a stale object, a snapshot |
| WorkerSlots.OwnerChangesThroughFree | internal/worker/manager.go:117-127 | Ownership changes only through Free: taken by Reserve, given up by the owner's Release |
| WorkerSlots.StopReleaseFrees | internal/worker/manager.go:220-311 | From every owned state of a run one fault-free Stop and Release by the owner frees the Slot and its object |
| WorkerOutcomes.ReserveOutcome | internal/worker/manager.go:106-127 | A reserve is answered without error iff the Slot is Free or already the caller's, who then owns it; a Slot that was not Free is unchanged, however often its owner asks |
| WorkerOutcomes.StartDoneIff | internal/worker/manager.go:129-218 | A start is answered without error iff its owner asks and the runtime runs, or the created object there is started, or a new one is created and started |
| WorkerOutcomes.StartDone | internal/worker/manager.go:137-218 | Then the Slot is Running under the same owner with its object: what ran is unchanged, a new object is alive for the caller and a stale one gone, and nothing else on the Worker differs |
| WorkerOutcomes.StartFailed | internal/worker/manager.go:137-218 | After a failed start the Slot is still owned, and by what failed unchanged, Reserved without an object or Failed |
| WorkerOutcomes.RestoreDoneIff | internal/worker/snapshot.go:118-200 | A restore is answered without error iff its owner asks and a runtime is there, whatever its status, or the snapshot is downloaded and loaded into a Slot that waits |
| WorkerOutcomes.RestoreDone | internal/worker/snapshot.go:183-200 | Then the Slot is Running on the loaded object, alive for its owner, marked restored and keeping the directory |
| WorkerOutcomes.RestoreFailed | internal/worker/snapshot.go:146-193 | A failed restore changes nothing, except that a failed load leaves the Slot Reserved |
| WorkerOutcomes.StopDoneIff | internal/worker/manager.go:220-266 | A stop is answered without error iff the Slot is Free, or the caller's and its object, if there is one to stop, is stopped, a restored one by deleting it |
| WorkerOutcomes.StopOutcome | internal/worker/manager.go:229-266 | It leaves the caller's Slot Stopping, or Failed after an error, still owned; only a restored object is deleted, with its directory |
| WorkerOutcomes.ReleaseDoneIff | internal/worker/manager.go:268-311 | A release is answered without error iff the Slot is Free, or the caller's and its object, if any, is deleted |
| WorkerOutcomes.ReleaseOutcome | internal/worker/manager.go:277-311 | Then the Slot is as new with its profile and resources, and its object is gone; after an error it is Failed and still owned |
| WorkerOutcomes.SnapshotDoneIff | internal/worker/snapshot.go:21-115 | A checkpoint succeeds iff the sandbox runs there, its container is found if it needs one, and it is saved and uploaded |
| WorkerOutcomes.SnapshotOutcome | internal/worker/snapshot.go:43-107 | Once saved, a VM that is torn down leaves its Slot Failed, owned and without a runtime whether or not the upload works; any other keeps running |
| WorkerOutcomes.ApplyOutcome | internal/worker/manager.go:56-104 | A layout is accepted iff no ID repeats, no Slot left out is in use and no ID changes its profile or resources; then the kept Slots are untouched and the new ones Free with their configuration, and otherwise nothing changes |
| WorkerOutcomes.SelfManagedIff | internal/snapshotter/snapshotter.go:100-102 | An object is self-managed iff its ID starts with runsc: or kata: |
| WorkerOutcomes.RunMarks | internal/worker/manager.go:199-203 | Over every run a Slot's object is marked restored iff it is self-managed or that of a sandbox from a snapshot |
| SlotManager.ManagedSlot.Start | internal/worker/manager.go:137-218 | The field updates of a start, in every branch, are the specified transition of the Slot and the backend |
| SlotManager.ManagedSlot.Stop | internal/worker/manager.go:229-266 | The same for stopping |
| SlotManager.ManagedSlot.Release | internal/worker/manager.go:277-311 | The same for releasing |
| SlotManager.ManagedSlot.Snapshot | internal/worker/snapshot.go:43-107 | The same for a checkpoint, with the torn-down VM and the ignored error of its delete |
| SlotManager.ManagedSlot.Restore | internal/worker/snapshot.go:146-200 | The same for starting from a snapshot |
| SlotManager.Manager.constructor | internal/worker/manager.go:41-52 | One Free Slot for each configured ID, the last configuration winning |
| SlotManager.Manager.ReserveSlot | internal/worker/manager.go:106-127 | One step of the Worker: request checks, unknown Slot, then the Slot's transition, all other Slots untouched |
| SlotManager.Manager.StartSandbox | internal/worker/manager.go:129-218 | The same for StartSandbox |
| SlotManager.Manager.StopSandbox | internal/worker/manager.go:220-266 | The same for StopSandbox |
| SlotManager.Manager.ReleaseSlot | internal/worker/manager.go:268-311 | The same for ReleaseSlot |
| SlotManager.Manager.CreateSnapshot | internal/worker/snapshot.go:21-115 | The same for CreateSnapshot |
| SlotManager.Manager.RestoreFromSnapshot | internal/worker/snapshot.go:118-200 | The same for RestoreFromSnapshot |
| SlotManager.Manager.ApplySlots | internal/worker/manager.go:56-104 | All or nothing: the specified new Slots, kept Slots being the same objects and new ones fresh, or no change |
| SlotManager.Manager.Recover | internal/worker/manager.go:405-434 | Takes the listed objects in order, stops at the first that cannot be placed and marks an occupied Slot Failed; a failing list changes nothing |
| SlotManager.RecoverAtStart | cmd/worker/main.go:87-97 | The retry loop recovers on what the attempts before left, fifty times at most, until one succeeds |
| WorkerRecovery.RecoverIff | internal/worker/manager.go:405-434 | Recovery succeeds iff every object names a known Slot and no two the same; then each is in its Slot and the rest is untouched |
| WorkerRecovery.RecoverRestoresInvariant | internal/worker/manager.go:405-473 | After a successful recovery state table and accounting hold again and every live object is referenced |
| WorkerRecovery.RecoveredStates | internal/worker/manager.go:423-473 | A recovered Slot has the owner and object that were listed and is Starting, Running, Stopping or Failed as the object is created, running, stopped or anything else |
| WorkerRecovery.RecoverStops | internal/worker/manager.go:411-422 | The first refused object ends a recovery: what was recovered before it stays, and the occupied Slot it names is Failed and keeps its owner and object |
| WorkerRecovery.RecoverMarksIff | internal/worker/manager.go:423-431 | After a recovery every object is marked by its kind iff nothing listed is self-managed or from a snapshot |
| WorkerRecovery.RestartServesIff | cmd/worker/main.go:71-97 | Over any number of attempts a Worker process, which starts without Slots, comes up iff its runtime once lists no object, and has no Slot either way |
| BinPack.BetterTransitive | internal/scheduler/binpack.go:26-41 | The preference is transitive |
| BinPack.BetterTrichotomy | internal/scheduler/binpack.go:26-41 | Of two candidates exactly one is preferred, unless Worker name, Slot, use and fit are the same |
| BinPack.BestIffFirst | internal/scheduler/binpack.go:26-41 | A candidate is preferred to all others iff it is on a Worker in use if any is, there with the fewest free Slots, and then least by Worker name and Slot ID |
| BinPack.BestUnique | internal/scheduler/binpack.go:12-41 | Among the candidates of one request the best one is unique, whatever their order |
| BinPack.Select | internal/scheduler/binpack.go:12-41 | The loop returns the candidate no other is preferred to, which is on a Worker in use if any is, there with the fewest free Slots, and then least by Worker name and Slot ID, or reports that there is none |
| Scheduler.UpdateKeepsInv | internal/scheduler/scheduler.go:31-50 | After any report no assigned visible Slot is Free, even if the Worker reports it so |
| Scheduler.RemoveKeepsInv | internal/scheduler/scheduler.go:52-56 | Forgetting a Worker keeps the invariant |
| Scheduler.AssignKeepsInv | internal/scheduler/scheduler.go:58-118 | Assign never gives out a Slot twice |
| Scheduler.ReleaseKeepsInv | internal/scheduler/scheduler.go:149-174 | Release frees no Slot that another sandbox is assigned |
| Scheduler.RestoreKeepsInvIff | internal/scheduler/scheduler.go:120-147 | An accepted Restore keeps the invariant iff it repeats what is recorded or no other sandbox holds the Slot |
| Scheduler.UnseenRestoreUnchecked | internal/scheduler/scheduler.go:131-145 | A Restore into an unseen Slot that another sandbox holds is accepted and breaks the invariant |
| Scheduler.UnseenRestoreExample | internal/scheduler/scheduler.go:131-145 | A concrete state where that happens |
| Scheduler.NoCapacityIff | internal/scheduler/scheduler.go:69-95 | For a new sandbox with a profile, no capacity iff no healthy Worker of the namespace and pool has a matching Free Slot |
| Scheduler.NewAssignmentTakesOneSlot | internal/scheduler/scheduler.go:97-118 | A new assignment turns exactly one matching Free Slot into Reserved by the sandbox and changes nothing else |
| Scheduler.AssignPacks | internal/scheduler/binpack.go:26-36 | An idle Worker is opened only if no Worker in use has a matching Free Slot; among those in use a tightest fit is taken |
| Scheduler.AssignDetermined | internal/scheduler/scheduler.go:70-100 | The chosen candidate is the only best one |
| Scheduler.AssignTakesIff | internal/scheduler/scheduler.go:58-118 | A new sandbox with a profile gets a Slot iff, before the call, it is free and matching, its Worker is in use if one with such a Slot is and then has the least room, and of the Workers left it has the least name and of its Slots the least ID |
| Scheduler.ReleaseUndoesAssignIff | internal/scheduler/scheduler.go:149-174 | Release right after a new assignment restores the Scheduler's state iff the Free Slot was shown without an owner |
| SchedulerOutcomes.RestoreOutcome | internal/scheduler/scheduler.go:120-147 | A recorded sandbox can only repeat its assignment; another is recorded iff its Slot is not seen taken by somebody else, and a seen Slot is then Reserved for it under the profile of the assignment, with all other Slots as before |
| SchedulerOutcomes.ReleaseOutcome | internal/scheduler/scheduler.go:149-174 | The assignment goes and its Slot becomes Free without an owner iff it was shown as this sandbox's; everything else stays |
| SchedulerOutcomes.ReportOutcome | internal/scheduler/scheduler.go:31-50 | A report replaces the view of its Worker only; a Slot it calls Free is shown Reserved for the sandbox it is assigned to and every other one as reported |
| MemoryScheduler.Memory.UpdateWorker | internal/scheduler/scheduler.go:31-50 | The loop over assignments, in any order, shows each reported Slot as specified |
| MemoryScheduler.Memory.Assign | internal/scheduler/scheduler.go:58-118 | Filtering, counting and selecting give the specified assignment and state |
| MemoryScheduler.Memory.CollectCandidates | internal/scheduler/scheduler.go:69-92 | The candidates are exactly the matching Free Slots of healthy Workers with their counts |
| MemoryScheduler.Memory.CountWorkerSlots | internal/scheduler/scheduler.go:205-216 | The counters are the numbers of Free matching and of non-Free Slots |
| MemoryScheduler.Memory.Restore | internal/scheduler/scheduler.go:120-147 | The imperative Restore is the specified one, conflict cases included |
| MemoryScheduler.Memory.Release | internal/scheduler/scheduler.go:149-174 | The imperative Release is the specified one |
| SchedulerRuns.RunKeepsInv | internal/scheduler/scheduler.go:31-174 | Over every sequence of calls without a Restore into another's Slot, assignments are injective and every visible assigned Slot is taken |
| SchedulerRuns.RestartRecovers | internal/scheduler/scheduler.go:120-147 | Distinct persisted assignments restored in any order between reports that attribute them rightly all succeed, and at the end the Scheduler holds exactly them |
| SchedulerRuns.UnattributedReportConflicts | internal/scheduler/scheduler.go:134-137 | A report that shows a persisted Slot as someone else's makes its Restore fail |
| Ownership.NextKeeps | internal/controller/sandbox_controller.go:33-224 | Every step of the protocol keeps: a Slot's owner is an API object with the finalizer placed there; an assignment of the Scheduler equals what is persisted |
| Ownership.FinalizerSafety | internal/controller/sandbox_controller.go:173-209 | In every run, restarts, lost replies and failed writes included, a sandbox without finalizer owns no Worker Slot and has no assignment |
| OwnershipRuns.NextSettled | internal/controller/sandbox_controller.go:76-209 | Every step but a restart keeps that live placed sandboxes, and owners of Slots, are known to the Scheduler |
| OwnershipRuns.NoDoublePlacement | internal/controller/sandbox_controller.go:76-171 | Between restarts no two sandboxes that are not being deleted are placed on the same Slot of the same Worker |
| OwnershipRuns.RestoreNeverConflicts | internal/controller/sandbox_controller.go:124-127 | Between restarts the persisted assignment of a live sandbox is the Scheduler's and the Restore before a start never conflicts |
| OwnershipRuns.RunNeverPlacesTwice | internal/controller/sandbox_controller.go:76-171 | In every state of every run from the empty system without a restart assignments are injective and what is persisted for live sandboxes is the Scheduler's; no start finds a conflict |
| OwnershipRestart.NextRecovers | internal/controller/sandbox_controller.go:33-224 | Every step, a further restart included, keeps that placements still to be restored are apart from each other and from all assignments and not shown as someone else's; a new assignment must not take one and a report must not show one occupied by another |
| OwnershipRestart.RestartRecovery | internal/controller/sandbox_controller.go:124-127 | Over any number of restarts, in the middle of a recovery or while deletions are unfinished, every start restores its placement without conflict, live sandboxes stay on different Slots, and once all are restored the state is settled |
| OwnershipRestart.NewAssignmentPlacesTwiceIff | internal/controller/sandbox_controller.go:90-121 | A new assignment during a recovery places two live sandboxes on one Slot iff, before the call, the sandbox is unknown to the Scheduler and the best Slot free for it is one still to be restored |
| OwnershipExamples.EarlyAssignmentPlacesTwice | internal/controller/sandbox_controller.go:90-121 | A run from the empty system, with a truthful report, in which that happens |
| OwnershipRestart.UndisputedKept | internal/controller/sandbox_controller.go:90-171 | A Slot on which a sandbox is placed stays without another owner unless a sandbox is placed on a Slot somebody still owns |
| OwnershipRestart.TrueReportAttributed | internal/worker/manager.go:378-403 | While that is so, a Worker that lists its Slots as they are attributes every placement still to be restored rightly |
| OwnershipAccounting.RuntimeBelongsToSandbox | internal/controller/sandbox_controller.go:139-162 | In every run each live runtime object that is no orphan sits in the one Slot its sandbox is placed on, and that sandbox exists with its finalizer |
| DeletionBlocked.DeletionWaits | internal/controller/sandbox_controller.go:183-195 | While the Worker of a deleting sandbox is gone, does not know its Slot or has another sandbox in it, no run gets the deletion past its Stop call |
| DeletionBlocked.DeletionGoesThroughIff | internal/controller/sandbox_controller.go:173-209 | One delivered, fault-free reconcile of a deleting sandbox removes it iff it is placed nowhere, or its Worker is there, knows its Slot and has no other sandbox in it |
| DeletionBlocked.FailedWriteLeadsToBlocked | internal/controller/sandbox_controller.go:199-207 | One failed finalizer write and one ordinary placement get from every contended state to one in which the deletion waits |
| OwnershipExamples.BlockedReached | internal/controller/sandbox_controller.go:199-207 | A run from the empty system that ends there |
| OwnershipExamples.UnknownSlotReached | internal/controller/sandbox_controller.go:187-194 | A run from the empty system in which a pushed layout drops the Free Slot of a placed sandbox and its deletion is at a Stop call for a Slot its Worker does not know, while no Slot has an owner |
| OwnershipExamples.MissingWorkerReached | internal/controller/sandbox_controller.go:183-186 | The same with a Worker Pod that is gone |
| SandboxReconciler.Reconciler.Reconcile | internal/controller/sandbox_controller.go:33-209 | One reconcile is a run of the protocol. With no fault a live placed sandbox runs afterwards, on a live object of its own in its Slot, iff it ran before or its assignment can be recorded and its Slot is Free or its own and can be started; an unplaced one gets the Slot that suits it best, or none iff none is free for it; a deleting one is gone iff it is placed nowhere or its Slot is nobody else's. Whatever fails, a sandbox is gone only with its calls answered, its Slot Free and its assignment forgotten |
| SandboxReconciler.Reconciler.FetchSandbox | internal/controller/sandbox_controller.go:33-61 | Reading the object and the pool decides the phase the reconcile goes on in |
| SandboxReconciler.Reconciler.SyncAssign | internal/controller/sandbox_controller.go:76-121 | The Scheduler then has the sandbox on the Slot that suits it best under its own name, pool and profile, and its status has that place unless the write fails; without a free Slot nothing changes |
| SandboxReconciler.Reconciler.SyncStart | internal/controller/sandbox_controller.go:124-171 | The assignment is recorded iff the Scheduler does not see the Slot taken by another; then, with no fault, the sandbox runs iff it ran or its Slot could be started |
| SandboxReconciler.Reconciler.SyncDelete | internal/controller/sandbox_controller.go:173-209 | The finalizer goes only after the Slot is Free and the assignment forgotten; with no fault it goes iff the Slot is nobody else's |
| ReconcileOutcomes.StartsIff | internal/controller/sandbox_controller.go:124-171 | A reserve and a start that nothing fails leave the sandbox running in its Slot iff it ran before, or the Slot is Free, or its own and Reserved, or its own and, for a cold start, dead or its object, with its full identity as owner of a Slot that was Free |
| ReconcileOutcomes.AssignPlacesRight | internal/controller/sandbox_controller.go:90-105 | An assignment gives a sandbox the place the Scheduler has for it, or else the Slot that suits it best, and none iff it has no profile or no Slot is free for it |
| ReconcileOutcomes.DeletedSlotIsFree | internal/controller/sandbox_controller.go:187-197 | A stop and a release that nothing fails free the Slot of a sandbox whose Slot is nobody else's |
| SparseMerge.CopyRegion | internal/runtime/kata/ch/merge.go:157-182 | Copies one stored region buffer by buffer; stopped early it has copied a prefix |
| SparseMerge.CopySparseRegions | internal/runtime/kata/ch/merge.go:138-186 | Terminates, writes exactly the stored bytes, returns their number, touches no hole; a failure leaves a prefix of that |
| SparseMerge.OverlayAgain | internal/runtime/kata/ch/merge.go:138-186 | Overlaying again after an interruption gives the complete overlay |
| MergeFiles.Host.MergeSparseOverlay | internal/runtime/kata/ch/merge.go:45-82 | Leaves base overlaid with delta at the output path and removes its copy; failures change at most the temporary copy, which a size mismatch leaves behind |
| MergeFiles.Host.MergeDeltaIntoBase | internal/runtime/kata/ch/merge.go:90-134 | By either route leaves base overlaid with delta at the delta path; a size mismatch changes nothing; after any other failure the image is still determined |
| MergeFiles.RecoverableDeterminesImage | internal/runtime/kata/ch/merge.go:103-134 | From what a failed merge leaves, the complete image can be computed |
| KataLineage.CarrierSurvives | internal/snapshotter/kata.go:125-145 | The carrier directory recorded for an overlay workload is its own whatever the request says, and a restore finds it |
| KataLineage.CarrierRecorded | internal/snapshotter/kata.go:125-145 | A checkpoint records the container of the micro-VM, or else of the request, and as carrier what stands before the suffix _ovl of its ID, or else the name in the request |
| KataLineage.LoadedIff | internal/snapshotter/kata_restore_linux.go:202-245 | A restore finds its identity iff the snapshot names a container, a base ID in its file or its metadata, an image there or in the request, and a carrier; the first of each counts |
| KataLineage.MergeIsMemory | internal/snapshotter/kata_restore_linux.go:68-82 | A dump with every byte changed since the restore, overlaid on the restore image, is the guest's memory |
| KataLineage.RawDumpIff | internal/snapshotter/kata_restore_linux.go:73-82 | Saved without the merge, the dump is the memory iff the restore image was zero in its holes |
| KataLineage.RawDumpExample | internal/snapshotter/kata_restore_linux.go:73-82 | A one-byte VM whose raw dump is not its memory |
| KataLineage.CheckpointIsMemoryIff | internal/snapshotter/kata_restore_linux.go:60-82 | The checkpoint of a restored VM is its memory iff the restore image was seen or was zero in the holes of the dump |
| KataLineage.Lineage | internal/snapshotter/kata_restore_linux.go:35-119 | Over chains of any depth and any child names every saved image is the guest's memory at its pause, and base ID and carrier stay those of the cold boot |
| KataLineage.ImageOfLineage | internal/snapshotter/kata_restore_linux.go:95-106 | Over a chain the recorded image is the latest one a checkpoint request named, or that of the cold boot, whatever the restores ask for |
| KataLineage.RestoreFindsIdentity | internal/snapshotter/kata_restore_linux.go:202-250 | No restore of such a chain fails for want of base ID, image or carrier |
| KataHost.Kata.SaveSelfManagedSnapshot | internal/snapshotter/kata_restore_linux.go:35-119 | A successful checkpoint is the specified one and takes the VM's directory with the restore image away; it succeeds when every step works; once the merge has moved the restore image it is gone even if a later write fails |
| KataHost.Kata.WriteDump | internal/snapshotter/kata_restore_linux.go:60-83 | Leaves at the destination the dump, completed with the restore image if that is seen |
| KataHost.Kata.TeardownInstance | internal/snapshotter/kata_restore_linux.go:411-430 | Removes the restored snapshot with the VM's directory and nothing else |
| KataHost.CheckpointTwice | internal/snapshotter/kata_restore_linux.go:60-119 | A checkpoint that fails after its merge and is asked for again then succeeds with the raw dump, which is the memory iff the lost restore image was zero in its holes |
| KataHost.Kata.LoadSnapshot | internal/snapshotter/kata_restore_linux.go:202-390 | A restore succeeds iff the snapshot offers an identity and every step works, and is then the next link of the chain |
| SnapshotLayout.NormalizeStableIff | internal/snapshotstore/store.go:170-177 | Normalizing twice is normalizing once iff the path, trimmed and without one slash, does not start with a slash or space |
| SnapshotLayout.NormalizeNotIdempotent | internal/snapshotstore/store.go:170-177 | The path //a is a counterexample |
| SnapshotLayout.KeySplit | internal/snapshotstore/store.go:66-91 | A key splits in one way into a normalized path and a name without slashes |
| SnapshotKeys.NormalizeForms | internal/snapshotstore/store.go:170-177 | A path with spaces around it, a slash in front or one at the end is stored under the same prefix, the path and a slash |
| SnapshotKeys.UploadedIs | internal/snapshotstore/store.go:65-97 | An upload writes each file under its name and .zstd, the manifest under manifest.json, and no other key |
| SnapshotKeys.FetchIs | internal/snapshotstore/store.go:100-124 | A reader gets a snapshot iff the manifest is there and names a file, and every name it lists is not empty, has no slash and no two dots in a row, and has its object; then it gets the contents of those |
| SnapshotKeys.DeletedIs | internal/snapshotstore/store.go:147-168 | A delete goes by the names it is given, or else by a manifest it can read; it removes the plain names' objects and the manifest, whose own delete takes effect, whatever failed before |
| SnapshotStore.NothingBeforeManifest | internal/snapshotstore/store.go:63-97 | Before its last put an upload to a prefix without manifest is invisible |
| SnapshotStore.AllOrNothing | internal/snapshotstore/store.go:63-97 | In every state an upload to a prefix without manifest can stop in, a reader gets nothing or exactly the local files |
| SnapshotStore.UploadThenFetch | internal/snapshotstore/store.go:100-124 | After the upload a reader gets exactly the local files iff the path is stable and every name is accepted |
| SnapshotStore.UploadThenDelete | internal/snapshotstore/store.go:147-168 | Upload and then delete, by the list or by an empty one, leaves the other objects as they were and none of its own |
| SnapshotStore.DeleteSparesOthers | internal/snapshotstore/store.go:147-168 | A delete touches no key of a snapshot at another normalized path |
| SnapshotReupload.ReuploadSeen | internal/snapshotstore/store.go:63-124 | An upload over any objects, stopped before its manifest, shows the files of the manifest that is there, new if put and old otherwise, and nothing if one is neither |
| SnapshotReupload.OldSnapshotSeenIff | internal/snapshotstore/store.go:63-124 | Readers of an older snapshot still get it iff no file put so far differs from theirs |
| SnapshotReupload.MixedRead | internal/snapshotstore/store.go:63-97 | At every stable path, a two-file snapshot over which a second upload stops after one file reads as new first file and old second |
| SnapshotReupload.HalfUploadStaysIff | internal/worker/snapshot.go:100-103 | A file that was put survives the delete after a failed upload iff the manifest there does not list it as an accepted name |
| SnapshotReupload.OlderSnapshotDeleted | internal/worker/snapshot.go:100-103 | That delete removes a complete older snapshot at the path |
| SnapshotStore.SnapshotStorage.Upload | internal/snapshotstore/store.go:65-97 | Succeeds iff there is a file and every put succeeds; stops in one of the specified states |
| SnapshotStore.SnapshotStorage.Download | internal/snapshotstore/store.go:100-124 | Returns exactly what the layout offers, or nothing |
| SnapshotStore.SnapshotStorage.Delete | internal/snapshotstore/store.go:147-168 | Removes exactly the keys of accepted names, and the manifest, whose own delete takes effect, whatever failed before; succeeds iff each of these deletes does |
| OverlayLowerdir.ThreePassesEscape | internal/snapshotter/gvisor_image_linux.go:246-250 | The three replacement passes come to one character-wise escape |
| OverlayLowerdir.LowerdirOption | internal/snapshotter/gvisor_image_linux.go:244-252 | Rewriting the array pass by pass and joining it prints the escaped list |
| OverlayLowerdir.SplitOverlayLowerdirs | internal/snapshotter/gvisor_image_linux.go:161-186 | The loop computes the specified split, a dangling escape being dropped |
| OverlayLowerdir.SplitInvertsRender | internal/snapshotter/gvisor_image_linux.go:161-186 | Splitting inverts printing for every list except the one that holds a single empty path |
| OverlayLowerdir.RenderedSeparators | internal/snapshotter/gvisor_image_linux.go:244-252 | The printed value has no unescaped comma and one unescaped colon less than paths, so it stays one mount option with as many directories |

## Left out

- Ownership.FinalizerSafety: assumes that calls to Workers never take effect after their reply was given up, that reconciles of sandboxes are serialized (the controller's default), that nobody removes a finalizer by hand, and that each reconcile reads the current API object, not a stale copy from a cache. A Worker process that restarts inside its Pod is the Pod vanishing and starting again without Slots, which is what it comes to (WorkerRecovery.RestartServesIff).
- OwnershipRuns.NoDoublePlacement: identifies a Worker by namespace, pool and name, as the Scheduler does.
- OwnershipRestart.RestartRecovery: assumes of reports and new assignments only what NextRecovers names; the source enforces neither, and what follows otherwise is NewAssignmentPlacesTwiceIff and SchedulerRuns.UnattributedReportConflicts.
- OwnershipRestart.UndisputedKept: assumes that a Pod belongs to one pool.
- OwnershipAccounting.RuntimeBelongsToSandbox: assumes that runtime IDs are not given out twice while in use and that UIDs are never reused.
- WorkerSlots.RunKeeps: operations on one Worker are atomic; ApplySlots racing with an operation that already holds a Slot pointer is not modelled. A backend delete that reports success has removed the object, and a failed Create or LoadSnapshot leaves none.
- WorkerOutcomes.RestoreFailed: a snapshot made by another runtime handler counts as one that cannot be downloaded; that its error is reported as an invalid request is not modelled.
- WorkerRecovery.RecoverRestoresInvariant: assumes that the runtime lists exactly what is alive and lists cold-started objects only as created.
- PoolCapacity.NeverOvercommitted: profile resources stay fixed and non-negative, pushes succeed and no ID crosses profiles; a failed push, or a status write that fails after the StatefulSet was written, is the subject of FailedPushKeepsPromiseIff.
- PoolReconciler.TemplateReconciler.SyncTemplate: requires the recorded layout to have distinct IDs, which every layout it records has; scaling the StatefulSet down is not modelled, and a StatefulSet write that reports an error has not taken effect.
- Topology.PlanMeetsSpec: sort.Slice is modelled by one stable sort, which is the same for distinct IDs.
- MemoryScheduler.Memory.CollectCandidates: the sorting of Workers and Slots is left out, because the selected candidate does not depend on the order (Scheduler.AssignDetermined); the random and stable strategies, which do, are not modelled.
- MergeFiles.Host.MergeDeltaIntoBase: requires the base path to differ from the delta path and its two temporary names, as every caller's does.
- KataHost.Kata.TeardownInstance: of what it releases only the files of the restored snapshot are modelled, not the VMM, its host state and its image bundle.
- KataHost.Kata.LoadSnapshot: starting the VMM, network devices, the agent and the root file system are one answer; what a VMM restored from an image has as memory is taken to be that image. File names of children are taken as given.
- SnapshotStore.SnapshotStorage.Upload: compression and JSON are exact inverses; the byte counts it returns are not modelled.
- OverlayLowerdir.SplitOverlayLowerdirs: strings are sequences of characters; bytes that are not valid UTF-8 are not modelled.
- The texts of conditions and reasons, phases, timestamps, timeouts and logging.
- Kubernetes client calls other than those named above, StatefulSet and Service construction, HTTP, S3, containerd, CRI, runsc, Cloud Hypervisor, cgroups, network setup.
- SnapshotReconciler, pool status counting, exec, the file API of sandboxes and the finite name and address builders: they would add only easy members.
