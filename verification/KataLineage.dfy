/** internal/snapshotter/kata.go and the identity part of kata_restore_linux.go: what a chain of
    checkpoints and restores carries from one micro-VM to the next. */
module KataLineage {
  import opened Base
  import opened GoStrings
  import opened SparseMerge

  const OVERLAY_SUFFIX := "_ovl"

  // ---------------------------------------------------------------- identities

  function OverlayWorkloadID(carrier: string): string {
    carrier + OVERLAY_SUFFIX
  }

  /** The directory a restore lays the root file system back at. */
  function CarrierID(meta: Meta): string {
    if meta.appContainerName != "" then meta.appContainerName else TrimSuffix(meta.containerID, OVERLAY_SUFFIX)
  }

  /** The directory name written into a snapshot: the overlay workload's own carrier always wins
      over the name in the request. */
  function StableCarrierName(containerID: string, requested: string): string {
    var carrier := TrimSuffix(containerID, OVERLAY_SUFFIX);
    if carrier != "" && carrier != containerID then carrier else FirstNonEmpty(requested, containerID)
  }

  /** The base-id file wins over the metadata. */
  function ReadBaseID(file: Option<string>, meta: Meta): string {
    if file.Some? && TrimSpace(file.value) != "" then TrimSpace(file.value) else meta.baseID
  }

  datatype Meta = Meta(containerID: string, appImage: string, appContainerName: string, baseID: string)

  /** The record of one micro-VM. A restored one remembers the directory it was restored from. */
  datatype Instance = Instance(name: string, containerID: string, baseID: string, appImage: string, snapshotDir: string)

  datatype SaveRequest = SaveRequest(containerID: string, appContainerName: string, appImage: string)

  /** What a checkpoint records. */
  function SavedBaseID(inst: Instance): string {
    FirstNonEmpty(inst.baseID, inst.name)
  }

  function SavedMeta(inst: Instance, req: SaveRequest): Meta {
    var containerID := FirstNonEmpty(inst.containerID, req.containerID);
    Meta(containerID, FirstNonEmpty(req.appImage, inst.appImage), StableCarrierName(containerID, req.appContainerName),
      SavedBaseID(inst))
  }

  datatype Loaded = Loaded(containerID: string, baseID: string, appImage: string, carrier: string) | LoadFails

  /** What a restore takes over, or why it cannot. */
  function LoadedFrom(meta: Meta, file: Option<string>, appImage: string): Loaded {
    var baseID, image, carrier := ReadBaseID(file, meta), FirstNonEmpty(meta.appImage, appImage), CarrierID(meta);
    if meta.containerID == "" || baseID == "" || image == "" || carrier == "" then LoadFails
    else Loaded(meta.containerID, baseID, image, carrier)
  }

  lemma CarrierOfWorkload(carrier: string)
    ensures TrimSuffix(OverlayWorkloadID(carrier), OVERLAY_SUFFIX) == carrier
  {
    var s := OverlayWorkloadID(carrier);
    assert s[|s| - |OVERLAY_SUFFIX|..] == OVERLAY_SUFFIX;
    assert s[..|s| - |OVERLAY_SUFFIX|] == carrier;
  }

  /** A checkpoint of an overlay workload records its carrier, whatever the request says, and a
      restore finds it. */
  lemma CarrierSurvives(inst: Instance, req: SaveRequest, carrier: string)
    requires carrier != "" && inst.containerID == OverlayWorkloadID(carrier)
    ensures CarrierID(SavedMeta(inst, req)) == carrier
    ensures SavedMeta(inst, req).containerID == inst.containerID
  {
    CarrierOfWorkload(carrier);
  }

  /** What is recorded of the container and its carrier: the micro-VM's own container, or else the one in
      the request; and for a workload named after its carrier that carrier, else the name in the request. */
  lemma CarrierRecorded(inst: Instance, req: SaveRequest)
    ensures var meta := SavedMeta(inst, req); var id := meta.containerID;
      && id == (if inst.containerID != "" then inst.containerID else req.containerID)
      && (forall x :: x != "" && id == x + "_ovl" ==> meta.appContainerName == x)
      && ((forall x :: x != "" ==> id != x + "_ovl") ==>
            meta.appContainerName == if req.appContainerName != "" then req.appContainerName else id)
  {
    var id := SavedMeta(inst, req).containerID;
    forall x | x != "" && id == x + "_ovl" ensures SavedMeta(inst, req).appContainerName == x {
      CarrierOfWorkload(x);
    }
    if HasSuffix(id, OVERLAY_SUFFIX) {
      var x := TrimSuffix(id, OVERLAY_SUFFIX);
      assert id == x + "_ovl";
    }
  }

  /** A restore finds its identity exactly when the snapshot names a container, a base ID, in its file or in
      the metadata, an image, in the metadata or in the request, and a carrier. The first of each counts. */
  lemma LoadedIff(meta: Meta, file: Option<string>, appImage: string)
    ensures var loaded := LoadedFrom(meta, file, appImage);
      var fileNames := file.Some? && !Blank(file.value);
      && (loaded.Loaded? <==>
            && meta.containerID != "" && (fileNames || meta.baseID != "") && (meta.appImage != "" || appImage != "")
            && (meta.appContainerName != "" || meta.containerID != "_ovl"))
      && (loaded.Loaded? ==>
            && loaded.containerID == meta.containerID
            && loaded.baseID == (if fileNames then TrimSpace(file.value) else meta.baseID)
            && loaded.appImage == (if meta.appImage != "" then meta.appImage else appImage)
            && (meta.appContainerName != "" ==> loaded.carrier == meta.appContainerName)
            && (meta.appContainerName == "" ==>
                  loaded.carrier + "_ovl" == meta.containerID || loaded.carrier == meta.containerID))
  {
    if file.Some? {
      BlankIff(file.value);
    }
    hide TrimSpace;
    if HasSuffix(meta.containerID, OVERLAY_SUFFIX) {
      var x := TrimSuffix(meta.containerID, OVERLAY_SUFFIX);
      assert meta.containerID == x + "_ovl";
    }
  }

  /** Without the suffix the request decides: the recorded carrier is the container's own name
      exactly when the request names no other. */
  lemma LegacyCarrierIff(containerID: string, requested: string)
    requires containerID != "" && (!HasSuffix(containerID, OVERLAY_SUFFIX) || containerID == OVERLAY_SUFFIX)
    ensures StableCarrierName(containerID, requested) == containerID <==> requested == "" || requested == containerID
  {
    if containerID == OVERLAY_SUFFIX {
      assert TrimSuffix(containerID, OVERLAY_SUFFIX) == "";
    }
  }

  /** A recorded base ID is read back unless it has spaces around something. */
  lemma BaseIDRoundTrip(inst: Instance, req: SaveRequest)
    ensures ReadBaseID(Some(SavedBaseID(inst)), SavedMeta(inst, req)) == SavedBaseID(inst) <==>
      TrimSpace(SavedBaseID(inst)) == SavedBaseID(inst) || TrimSpace(SavedBaseID(inst)) == ""
  {
  }

  // ---------------------------------------------------------------- memory images

  /** A dump of a restored VM is sparse: it stores every byte that changed since the restore. */
  predicate DumpSince(dump: File, restored: seq<byte>, memory: seq<byte>) {
    && Wellformed(dump) && |dump.bytes| == |restored| == |memory|
    && forall i :: 0 <= i < |memory| ==> if dump.data[i] then dump.bytes[i] == memory[i] else memory[i] == restored[i]
  }

  /** A dump of a VM that was booted is complete. */
  predicate CompleteDump(dump: File, memory: seq<byte>) {
    Wellformed(dump) && dump.bytes == memory
  }

  /** Overlaying such a dump onto the image the VM was restored from gives its memory. */
  lemma MergeIsMemory(dump: File, restored: seq<byte>, memory: seq<byte>)
    requires DumpSince(dump, restored, memory)
    ensures Overlay(restored, dump) == memory
  {
  }

  /** Saved without the merge, the dump is the memory exactly when nothing in its holes was non-zero. */
  lemma RawDumpIff(dump: File, restored: seq<byte>, memory: seq<byte>)
    requires DumpSince(dump, restored, memory)
    ensures dump.bytes == memory <==> forall i :: 0 <= i < |memory| && !dump.data[i] ==> restored[i] == 0
  {
    if forall i :: 0 <= i < |memory| && !dump.data[i] ==> restored[i] == 0 {
      forall i | 0 <= i < |memory| ensures dump.bytes[i] == memory[i] {
        assert dump.data[i] || restored[i] == 0;
      }
    } else {
      var i :| 0 <= i < |memory| && !dump.data[i] && restored[i] != 0;
      assert dump.bytes[i] != memory[i];
    }
  }

  // ---------------------------------------------------------------- chains

  /** A one-byte VM that never wrote its byte: the dump is a hole, and reads as zero. */
  lemma RawDumpExample(b: byte)
    requires b != 0
    ensures var dump := File([0], [false]);
      DumpSince(dump, [b], [b]) && Overlay([b], dump) == [b] && dump.bytes != [b]
  {
  }

  /** A snapshot as it lies in storage. */
  datatype Saved = Saved(image: seq<byte>, baseIDFile: string, meta: Meta)

  /** One generation: the guest's memory when it was paused, the dump, the request, and the name of
      the child that is restored from it. */
  datatype Generation = Generation(memory: seq<byte>, dump: File, req: SaveRequest, child: string, childImage: string)

  function Checkpoint(inst: Instance, restored: Option<seq<byte>>, g: Generation): Saved
    requires Wellformed(g.dump) && (restored.Some? ==> |restored.value| == |g.dump.bytes|)
  {
    var image := if restored.Some? then Overlay(restored.value, g.dump) else g.dump.bytes;
    Saved(image, SavedBaseID(inst), SavedMeta(inst, g.req))
  }

  /** A checkpoint of a restored VM has its memory exactly when the restore image was seen, or was zero
      wherever the guest had not written. */
  lemma CheckpointIsMemoryIff(inst: Instance, seen: bool, restored: seq<byte>, g: Generation)
    requires DumpSince(g.dump, restored, g.memory)
    ensures Checkpoint(inst, if seen then Some(restored) else None, g).image == g.memory <==>
      seen || forall i :: 0 <= i < |g.memory| && !g.dump.data[i] ==> restored[i] == 0
  {
    MergeIsMemory(g.dump, restored, g.memory);
    RawDumpIff(g.dump, restored, g.memory);
  }

  function ColdBooted(name: string, restoredName: string, uid: string, image: string): Instance {
    Instance(restoredName, OverlayWorkloadID(name), uid, image, "")
  }

  function Restored(saved: Saved, child: string, loaded: Loaded): Instance
    requires loaded.Loaded?
  {
    Instance(child, loaded.containerID, loaded.baseID, loaded.appImage, child + "/snapshot")
  }

  /** `saved[k]` is the checkpoint of the k-th micro-VM `vms[k]`; the first was booted, each later one
      was restored from the checkpoint before. */
  ghost predicate Chain(vms: seq<Instance>, gens: seq<Generation>, saved: seq<Saved>) {
    && |vms| == |gens| == |saved|
    && (forall k :: 0 <= k < |gens| ==> Wellformed(gens[k].dump))
    && (|gens| > 0 ==> CompleteDump(gens[0].dump, gens[0].memory) && saved[0] == Checkpoint(vms[0], None, gens[0]))
    && forall k :: 0 < k < |gens| ==> RestoredLink(vms[k], gens[k], saved[k], saved[k - 1], gens[k - 1])
  }

  ghost predicate RestoredLink(vm: Instance, g: Generation, now: Saved, before: Saved, gBefore: Generation) {
    var loaded := LoadedFrom(before.meta, Some(before.baseIDFile), gBefore.childImage);
    && loaded.Loaded? && vm == Restored(before, gBefore.child, loaded)
    && DumpSince(g.dump, before.image, g.memory)
    && now == Checkpoint(vm, Some(before.image), g)
  }

  /** Lineage over any depth and any child names: every saved image is the guest's memory at its
      pause, and base ID and carrier directory stay those of the first boot. */
  lemma {:induction false} Lineage(vms: seq<Instance>, gens: seq<Generation>, saved: seq<Saved>, n: nat,
                                   name: string, first: string, uid: string, image: string)
    requires Chain(vms, gens, saved) && n < |gens|
    requires vms[0] == ColdBooted(name, first, uid, image)
    requires name != "" && uid != "" && image != "" && TrimSpace(uid) == uid
    ensures saved[n].image == gens[n].memory
    ensures saved[n].baseIDFile == uid && saved[n].meta.baseID == uid && CarrierID(saved[n].meta) == name
    ensures saved[n].meta.containerID == vms[n].containerID == name + "_ovl" && vms[n].baseID == uid
    ensures n > 0 ==> vms[n].name == gens[n - 1].child && vms[n].snapshotDir == gens[n - 1].child + "/snapshot"
    decreases n
  {
    CarrierOfWorkload(name);
    if n > 0 {
      Lineage(vms, gens, saved, n - 1, name, first, uid, image);
      assert RestoredLink(vms[n], gens[n], saved[n], saved[n - 1], gens[n - 1]);
      MergeIsMemory(gens[n].dump, saved[n - 1].image, gens[n].memory);
    }
    CarrierSurvives(vms[n], gens[n].req, name);
    hide TrimSuffix, TrimSpace, CarrierID, StableCarrierName, OverlayUpTo;
    AppImageKept(vms, gens, saved, n);
  }

  /** Such a restore never fails for want of identity: the next link of the chain always exists. */
  lemma RestoreFindsIdentity(vms: seq<Instance>, gens: seq<Generation>, saved: seq<Saved>, n: nat,
                             name: string, first: string, uid: string, image: string)
    requires Chain(vms, gens, saved) && n < |gens| && vms[0] == ColdBooted(name, first, uid, image)
    requires name != "" && uid != "" && image != "" && TrimSpace(uid) == uid
    ensures var loaded := LoadedFrom(saved[n].meta, Some(saved[n].baseIDFile), gens[n].childImage);
      loaded.Loaded? && loaded.carrier == name && loaded.baseID == uid && loaded.containerID == name + "_ovl"
  {
    Lineage(vms, gens, saved, n, name, first, uid, image);
    CarrierSurvives(vms[n], gens[n].req, name);
    AppImageKept(vms, gens, saved, n);
  }

  /** `x` is the image of the latest of the first n + 1 requests that names one, or else `image`. */
  ghost predicate LatestImage(gens: seq<Generation>, n: nat, image: string, x: string)
    requires n < |gens|
  {
    && ((forall k :: 0 <= k <= n ==> gens[k].req.appImage == "") ==> x == image)
    && forall k :: 0 <= k <= n && gens[k].req.appImage != "" && (forall j :: k < j <= n ==> gens[j].req.appImage == "")
         ==> x == gens[k].req.appImage
  }

  /** The root file system is rebuilt from the latest image a checkpoint named, or that of the first boot; what
      a restore asks for does not matter. */
  lemma {:induction false} ImageOfLineage(vms: seq<Instance>, gens: seq<Generation>, saved: seq<Saved>, n: nat)
    requires Chain(vms, gens, saved) && n < |gens| && vms[0].appImage != ""
    ensures LatestImage(gens, n, vms[0].appImage, saved[n].meta.appImage)
    ensures n > 0 ==> vms[n].appImage == saved[n - 1].meta.appImage
  {
    AppImageKept(vms, gens, saved, n);
    if n > 0 {
      ImageOfLineage(vms, gens, saved, n - 1);
      AppImageKept(vms, gens, saved, n - 1);
      assert RestoredLink(vms[n], gens[n], saved[n], saved[n - 1], gens[n - 1]);
    }
  }

  lemma AppImageKept(vms: seq<Instance>, gens: seq<Generation>, saved: seq<Saved>, n: nat)
    requires Chain(vms, gens, saved) && n < |gens| && vms[0].appImage != ""
    ensures saved[n].meta.appImage != ""
    ensures saved[n].meta == SavedMeta(vms[n], gens[n].req)
  {
    if n > 0 {
      assert RestoredLink(vms[n], gens[n], saved[n], saved[n - 1], gens[n - 1]);
    }
  }
}
