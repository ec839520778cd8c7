/** The checkpoint and the restore of kata_restore_linux.go, step by step on the Worker's files and
    instance records. Pausing, dumping and starting a VMM are answers from outside. */
module KataHost {
  import opened Base
  import opened GoStrings
  import opened SparseMerge
  import opened MergeFiles
  import opened KataLineage

  function MemoryPath(dir: string): string {
    dir + "/memory-ranges"
  }

  lemma MemoryPathsApart(a: string, b: string)
    ensures MemoryPath(a) == MemoryPath(b) <==> a == b
    ensures MemoryPath(a) != MemoryPath(b) + ".merged.tmp" && MemoryPath(a) != MemoryPath(b) + ".merge.tmp"
  {
    var x, y, suffix := MemoryPath(a), MemoryPath(b), "/memory-ranges";
    assert x[..|x| - |suffix|] == a && y[..|y| - |suffix|] == b;
    assert x[|x| - 1] == 's';
    assert (y + ".merged.tmp")[|y + ".merged.tmp"| - 1] == 'p' && (y + ".merge.tmp")[|y + ".merge.tmp"| - 1] == 'p';
  }

  datatype SaveAnswers = SaveAnswers(dirMade: bool, paused: bool, dump: Option<File>, baseSeen: bool,
                                     merge: MergeAnswers, baseIDWritten: bool, metaWritten: bool, dirRemoved: bool)

  datatype Placing = PlacedByRename | PlacedByCopy | NotPlaced

  datatype LoadAnswers = LoadAnswers(dirMade: bool, placing: Placing, started: bool, recorded: bool,
                                     agentAnswered: bool)

  class Kata {
    const host: Host
    var instances: map<string, Instance>
    var metas: map<string, Meta>
    var baseIDs: map<string, string>

    constructor (host: Host)
      ensures Valid() && this.host == host && instances == map[] && metas == map[] && baseIDs == map[]
    {
      this.host := host;
      instances, metas, baseIDs := map[], map[], map[];
    }

    /** A record is stored under its own name. */
    ghost predicate Valid()
      reads this
    {
      forall name :: name in instances ==> instances[name].name == name
    }

    /** The snapshot that lies in a directory. */
    ghost function SnapshotAt(dir: string): Saved
      requires MemoryPath(dir) in host.files && dir in baseIDs && dir in metas
      reads this, host
    {
      Saved(host.files[MemoryPath(dir)].bytes, baseIDs[dir], metas[dir])
    }

    /** The image a micro-VM was restored from, as far as it is still there. */
    ghost function RestoreImage(inst: Instance): Option<seq<byte>>
      reads this, host
    {
      if inst.snapshotDir != "" && MemoryPath(inst.snapshotDir) in host.files
      then Some(host.files[MemoryPath(inst.snapshotDir)].bytes)
      else None
    }

    /** Pauses and dumps the VM, completes a restored VM's dump with its restore image, writes the base
        ID and the metadata, then tears the VM down. */
    method SaveSelfManagedSnapshot(name: string, req: SaveRequest, dest: string, ans: SaveAnswers) returns (ok: bool)
      requires Valid() && WellformedDisk(host.files) && (ans.dump.Some? ==> Wellformed(ans.dump.value))
      requires name in instances ==> instances[name].snapshotDir != dest
      modifies this`metas, this`baseIDs, host
      ensures WellformedDisk(host.files)
      // A success is the checkpoint of the lineage; the restore image counts only if it was seen.
      ensures ok ==>
        name in instances && ans.dump.Some? && MemoryPath(dest) in host.files && dest in baseIDs && dest in metas
      ensures ok ==> var seen := old(SeenImage(name, ans));
        (seen.Some? ==> |seen.value| == |ans.dump.value.bytes|)
        && SnapshotAt(dest) == Checkpoint(instances[name], seen, Generation([], ans.dump.value, req, "", ""))
      // It takes the restore image with it, and the record stays.
      ensures ok && ans.dirRemoved ==> RestoreImage(instances[name]) == None
      // It succeeds whenever every step works.
      ensures SaveAnswered(name, req, ans) && old(MergeSucceeds(name, ans)) && ans.baseIDWritten && ans.metaWritten
        ==> ok
      // Once the merge has moved the restore image away it is gone, even if a later write fails.
      ensures SaveAnswered(name, req, ans) && old(SeenImage(name, ans)).Some? && old(MergeSucceeds(name, ans)) &&
        ans.merge.rename.Renamed?
        ==> RestoreImage(instances[name]) == None && ok == (ans.baseIDWritten && ans.metaWritten)
    {
      if name !in instances {
        return false;
      }
      var inst := instances[name];
      var containerID := FirstNonEmpty(inst.containerID, req.containerID);
      if containerID == "" {
        return false;
      }
      var baseID := FirstNonEmpty(inst.baseID, name);
      if !ans.dirMade || !ans.paused || ans.dump.None? {
        return false;
      }
      var dumped := WriteDump(inst, dest, ans.dump.value, ans.baseSeen, ans.merge);
      if !dumped {
        return false;
      }
      if !ans.baseIDWritten {
        return false;
      }
      baseIDs := baseIDs[dest := baseID];
      if !ans.metaWritten {
        return false;
      }
      var carrier := StableCarrierName(containerID, req.appContainerName);
      var meta := Meta(containerID, FirstNonEmpty(req.appImage, inst.appImage), carrier, baseID);
      metas := metas[dest := meta];
      MemoryPathsApart(inst.snapshotDir, dest);
      TeardownInstance(inst, ans.dirRemoved);
      return true;
    }

    /** Writes the dump and, for a restored VM, merges it into the restore image. */
    method WriteDump(inst: Instance, dest: string, dump: File, baseSeen: bool, merge: MergeAnswers) returns (ok: bool)
      requires WellformedDisk(host.files) && Wellformed(dump) && inst.snapshotDir != dest
      modifies host
      ensures WellformedDisk(host.files)
      ensures var seen := old(if baseSeen then RestoreImage(inst) else None);
        && (ok && seen.Some? ==> |seen.value| == |dump.bytes|)
        && (ok ==> MemoryPath(dest) in host.files)
        && (ok ==> host.files[MemoryPath(dest)].bytes == if seen.Some? then Overlay(seen.value, dump) else dump.bytes)
        && ((seen.Some? ==> |seen.value| == |dump.bytes| && MergeWorks(merge)) ==> ok)
        && (seen.Some? && ok && merge.rename.Renamed? ==> RestoreImage(inst) == None)
    {
      var delta := MemoryPath(dest);
      host.files := host.files[delta := dump];
      if inst.snapshotDir != "" {
        var base := MemoryPath(inst.snapshotDir);
        MemoryPathsApart(inst.snapshotDir, dest);
        if baseSeen && base in host.files {
          ok := host.MergeDeltaIntoBase(base, delta, merge);
          return;
        }
      }
      return true;
    }

    /** Of the files modelled here a VM's directory holds the snapshot it was restored from. */
    method TeardownInstance(inst: Instance, dirRemoved: bool)
      requires WellformedDisk(host.files)
      modifies this`metas, this`baseIDs, host
      ensures WellformedDisk(host.files)
      ensures var gone := if inst.snapshotDir != "" && dirRemoved then {inst.snapshotDir} else {};
        && metas == old(metas) - gone && baseIDs == old(baseIDs) - gone
        && host.files == old(host.files) - set dir | dir in gone :: MemoryPath(dir)
    {
      if inst.snapshotDir != "" && dirRemoved {
        Clear(inst.snapshotDir);
      }
    }

    /** Everything up to the dump works. */
    ghost predicate SaveAnswered(name: string, req: SaveRequest, ans: SaveAnswers)
      reads this
    {
      ans.dirMade && ans.paused && ans.dump.Some? && HasContainer(name, req)
    }

    /** There is nothing to merge, or the sizes match and every step of the merge works. */
    ghost predicate MergeSucceeds(name: string, ans: SaveAnswers)
      reads this, host
    {
      var seen := SeenImage(name, ans);
      seen.Some? ==> ans.dump.Some? && |seen.value| == |ans.dump.value.bytes| && MergeWorks(ans.merge)
    }

    /** The restore image, unless looking for it fails. */
    ghost function SeenImage(name: string, ans: SaveAnswers): Option<seq<byte>>
      reads this, host
    {
      if name in instances && ans.baseSeen then RestoreImage(instances[name]) else None
    }

    ghost predicate HasContainer(name: string, req: SaveRequest)
      reads this
    {
      name in instances && FirstNonEmpty(instances[name].containerID, req.containerID) != ""
    }

    /** What the snapshot in a directory offers to a restore. */
    ghost function Offered(dir: string, appImage: string): Loaded
      reads this
    {
      if dir in metas then LoadedFrom(metas[dir], if dir in baseIDs then Some(baseIDs[dir]) else None, appImage)
        else LoadFails
    }

    /** Takes a downloaded snapshot into the child's own directory, checks what it needs to come back
        to life, starts the VMM and records the child. */
    method LoadSnapshot(source: string, name: string, appImage: string, ans: LoadAnswers) returns (ok: bool)
      requires Valid() && WellformedDisk(host.files) && source != name + "/snapshot"
      requires MemoryPath(source) in host.files
      modifies this, host
      ensures Valid() && WellformedDisk(host.files)
      // A success is the next link of the lineage, with the snapshot's image as its restore image.
      ensures ok ==> var loaded := old(Offered(source, appImage));
        && loaded.Loaded? && name in instances
        && instances == old(instances)[
             name := Instance(name, loaded.containerID, loaded.baseID, loaded.appImage, name + "/snapshot")]
        && RestoreImage(instances[name]) == Some(old(host.files)[MemoryPath(source)].bytes)
      ensures !ok ==> instances == old(instances) || instances == old(instances) - {name}
      ensures ok == (old(Offered(source, appImage)).Loaded? && ans.dirMade && !ans.placing.NotPlaced? && ans.started
                     && ans.recorded && ans.agentAnswered)
    {
      if source !in metas {
        return false;
      }
      hide TrimSuffix, TrimSpace, HasSuffix;
      var meta := metas[source];
      if meta.containerID == "" {
        return false;
      }
      var snapDir := name + "/snapshot";
      MemoryPathsApart(source, snapDir);
      Clear(snapDir);
      if !ans.dirMade {
        return false;
      }
      if ans.placing.NotPlaced? {
        return false;
      }
      Place(source, snapDir, ans.placing);
      var baseID := ReadBaseID(if snapDir in baseIDs then Some(baseIDs[snapDir]) else None, meta);
      if baseID == "" {
        Clear(snapDir);
        return false;
      }
      var image := FirstNonEmpty(meta.appImage, appImage);
      if image == "" {
        Clear(snapDir);
        return false;
      }
      var carrier := CarrierID(meta);
      if carrier == "" {
        Clear(snapDir);
        return false;
      }
      if !ans.started || !ans.recorded {
        Clear(snapDir);
        return false;
      }
      instances := instances[name := Instance(name, meta.containerID, baseID, image, snapDir)];
      if !ans.agentAnswered {
        Clear(snapDir);
        instances := instances - {name};
        return false;
      }
      return true;
    }

    /** Removes a snapshot directory. */
    method Clear(dir: string)
      requires WellformedDisk(host.files)
      modifies this`metas, this`baseIDs, host
      ensures WellformedDisk(host.files) && host.files == old(host.files) - {MemoryPath(dir)}
      ensures metas == old(metas) - {dir} && baseIDs == old(baseIDs) - {dir}
    {
      host.files := host.files - {MemoryPath(dir)};
      metas, baseIDs := metas - {dir}, baseIDs - {dir};
    }

    /** placeSnapshotDir: a rename if possible, otherwise a copy. */
    method Place(source: string, dir: string, placing: Placing)
      requires WellformedDisk(host.files) && source != dir && MemoryPath(source) in host.files && source in metas
      requires dir !in metas && dir !in baseIDs && !placing.NotPlaced?
      modifies this`metas, this`baseIDs, host
      ensures WellformedDisk(host.files)
      ensures MemoryPath(dir) in host.files && host.files[MemoryPath(dir)] == old(host.files)[MemoryPath(source)]
      ensures dir in metas && metas[dir] == old(metas)[source]
      ensures dir in baseIDs <==> source in old(baseIDs)
      ensures dir in baseIDs ==> baseIDs[dir] == old(baseIDs)[source]
    {
      MemoryPathsApart(source, dir);
      host.files := host.files[MemoryPath(dir) := host.files[MemoryPath(source)]];
      metas := metas[dir := metas[source]];
      if source in baseIDs {
        baseIDs := baseIDs[dir := baseIDs[source]];
      }
      if placing.PlacedByRename? {
        host.files := host.files - {MemoryPath(source)};
        metas, baseIDs := metas - {source}, baseIDs - {source};
      }
    }
  }

  /** A checkpoint that fails after its merge and is then asked for again, which a paused VM accepts:
      the second one succeeds with the raw dump, and that is the guest's memory exactly when the
      restore image, gone by now, was zero wherever the guest had not written. */
  method CheckpointTwice(kata: Kata, name: string, req: SaveRequest, dest: string, ans: SaveAnswers, dest2: string,
                         ans2: SaveAnswers, ghost memory: seq<byte>) returns (ok: bool, ok2: bool)
    requires kata.Valid() && WellformedDisk(kata.host.files) && name in kata.instances
    requires kata.instances[name].snapshotDir != dest && kata.instances[name].snapshotDir != dest2
    requires kata.RestoreImage(kata.instances[name]).Some? && ans.baseSeen
    requires kata.SaveAnswered(name, req, ans) && kata.SaveAnswered(name, req, ans2)
    requires DumpSince(ans.dump.value, kata.RestoreImage(kata.instances[name]).value, memory)
    requires DumpSince(ans2.dump.value, kata.RestoreImage(kata.instances[name]).value, memory)
    requires MergeWorks(ans.merge) && ans.merge.rename.Renamed? && !(ans.baseIDWritten && ans.metaWritten)
    requires ans2.baseIDWritten && ans2.metaWritten
    modifies kata`metas, kata`baseIDs, kata.host
    ensures !ok && ok2
    ensures MemoryPath(dest2) in kata.host.files && dest2 in kata.baseIDs && dest2 in kata.metas
    ensures kata.SnapshotAt(dest2).image == ans2.dump.value.bytes
    ensures var restored := old(kata.RestoreImage(kata.instances[name]).value);
      kata.SnapshotAt(dest2).image == memory <==>
      forall i :: 0 <= i < |memory| && !ans2.dump.value.data[i] ==> restored[i] == 0
  {
    ghost var restored := kata.RestoreImage(kata.instances[name]).value;
    ok := kata.SaveSelfManagedSnapshot(name, req, dest, ans);
    ok2 := kata.SaveSelfManagedSnapshot(name, req, dest2, ans2);
    RawDumpIff(ans2.dump.value, restored, memory);
  }
}
