/** The two routes of internal/runtime/kata/ch/merge.go from a base image and a delta to a complete
    image at the delta's path, on a map of files, with every system call free to fail. */
module MergeFiles {
  import opened Base
  import opened SparseMerge

  datatype Renaming = Renamed | CrossDevice | RenameFails

  /** cp --sparse=always may store the zero bytes of the copy or not. */
  datatype Copying = Copied(layout: seq<bool>) | CopyFails(partial: Option<File>)

  datatype OverlayAnswers = OverlayAnswers(statBase: bool, cp: Copying, openDelta: bool, statDelta: bool, openTmp: bool,
                                           copy: Answers, closed: bool, renamed: bool)

  datatype MergeAnswers = MergeAnswers(statBase: bool, statDelta: bool, rename: Renaming, openDelta: bool,
                                       openMerged: bool, copy: Answers, closed: bool, removed: bool,
                                       renamed: bool, overlay: OverlayAnswers)

  ghost predicate CopyWorks(ans: Answers) {
    ans.statOk && (forall n :: ans.seekOk(n)) && (forall n :: ans.transfer(n) == Complete)
  }

  ghost predicate OverlayWorks(ans: OverlayAnswers) {
    ans.statBase && ans.cp.Copied? && ans.openDelta && ans.statDelta && ans.openTmp && CopyWorks(ans.copy) &&
      ans.closed && ans.renamed
  }

  ghost predicate MergeWorks(ans: MergeAnswers) {
    && ans.statBase && ans.statDelta
    && (ans.rename.Renamed? ==>
          ans.openDelta && ans.openMerged && CopyWorks(ans.copy) && ans.closed && ans.removed && ans.renamed)
    && (ans.rename.CrossDevice? ==> OverlayWorks(ans.overlay))
    && !ans.rename.RenameFails?
  }

  function CopyLayout(f: File, layout: seq<bool>): (r: File)
    requires Wellformed(f)
    ensures Wellformed(r) && r.bytes == f.bytes
  {
    File(f.bytes, seq(|f.bytes|, i requires 0 <= i < |f.bytes| => f.bytes[i] != 0 || (i < |layout| && layout[i])))
  }

  type Disk = map<string, File>

  ghost predicate WellformedDisk(files: Disk) {
    forall path :: path in files ==> Wellformed(files[path])
  }

  /** Nothing but the paths in `touched` differs. */
  ghost predicate SameElsewhere(was: Disk, now: Disk, touched: set<string>) {
    forall path :: path !in touched ==>
      (path in now <==> path in was) && (path in now && path in was ==> now[path] == was[path])
  }

  ghost predicate BothPresent(files: Disk, base: string, delta: string) {
    base in files && delta in files
  }

  ghost predicate Mergeable(files: Disk, base: string, delta: string) {
    BothPresent(files, base, delta) && |files[base].bytes| == |files[delta].bytes|
  }

  /** The complete image. */
  ghost function Merged(files: Disk, base: string, delta: string): seq<byte>
    requires WellformedDisk(files) && Mergeable(files, base, delta)
  {
    Overlay(files[base].bytes, files[delta])
  }

  class Host {
    var files: Disk

    constructor (files: Disk)
      ensures this.files == files
    {
      this.files := files;
    }

    /** Writes the stored regions of `from` into the file at `path`. */
    method CopyInto(delta: File, path: string, ans: Answers) returns (ok: bool, ghost cut: nat)
      requires WellformedDisk(files) && Wellformed(delta) && path in files && |files[path].bytes| == |delta.bytes|
      modifies this
      ensures WellformedDisk(files) && files.Keys == old(files).Keys && SameElsewhere(old(files), files, {path})
      ensures files[path].bytes == OverlayUpTo(old(files)[path].bytes, delta, cut)
      ensures ok ==> files[path].bytes == Overlay(old(files)[path].bytes, delta)
      ensures CopyWorks(ans) ==> ok
    {
      var f := files[path];
      var a := new byte[|f.bytes|](i requires 0 <= i < |f.bytes| => f.bytes[i]);
      assert a[..] == f.bytes;
      var copied;
      ok, copied, cut := CopySparseRegions(delta, a, ans);
      files := files[path := File(a[..], seq(|f.bytes|, i requires 0 <= i < |f.bytes| => f.data[i] || delta.data[i]))];
    }

    /** Copies the base, overlays the delta onto the copy and renames the copy to `out`. The base and
        the delta are read only; a failure leaves at most the temporary copy behind. */
    method MergeSparseOverlay(base: string, delta: string, out: string, ans: OverlayAnswers) returns (ok: bool)
      requires WellformedDisk(files) && base != out + ".merge.tmp" && delta != out + ".merge.tmp"
      modifies this
      ensures WellformedDisk(files)
      ensures ok ==> Mergeable(old(files), base, delta)
      ensures ok ==> files.Keys == old(files).Keys - {out + ".merge.tmp"} + {out}
      ensures ok ==> files[out].bytes == Merged(old(files), base, delta)
      ensures SameElsewhere(old(files), files, {out, out + ".merge.tmp"})
      ensures !ok ==> SameElsewhere(old(files), files, {out + ".merge.tmp"})
      ensures OverlayWorks(ans) && Mergeable(old(files), base, delta) ==> ok
      // A size mismatch is noticed only after the copy, and leaves it behind.
      ensures OverlayWorks(ans) && BothPresent(old(files), base, delta) && !Mergeable(old(files), base, delta) ==>
        !ok && out + ".merge.tmp" in files && files[out + ".merge.tmp"].bytes == old(files)[base].bytes
    {
      if !ans.statBase || base !in files {
        return false;
      }
      var size := |files[base].bytes|;
      var tmp := out + ".merge.tmp";
      files := files - {tmp};
      if ans.cp.CopyFails? {
        if ans.cp.partial.Some? {
          files := files[tmp := CopyPartial(ans.cp.partial.value)];
        }
        return false;
      }
      files := files[tmp := CopyLayout(files[base], ans.cp.layout)];
      if !ans.openDelta || delta !in files {
        return false;
      }
      if !ans.statDelta || |files[delta].bytes| != size {
        return false;
      }
      if !ans.openTmp {
        return false;
      }
      ghost var cut;
      ok, cut := CopyInto(files[delta], tmp, ans.copy);
      if !ok || !ans.closed || !ans.renamed {
        return false;
      }
      TmpDiffers(out, ".merge.tmp");
      files := files[out := files[tmp]] - {tmp};
    }

    /** Whatever cp got done before it failed. */
    static function CopyPartial(f: File): (r: File)
      ensures Wellformed(r)
    {
      File(f.bytes, seq(|f.bytes|, i => true))
    }

    /** Renames the base next to the delta, overlays it in place and renames the result to the
        delta's path; across devices it falls back to the copying route. Either way the delta's path
        ends up with the complete image. */
    method MergeDeltaIntoBase(base: string, delta: string, ans: MergeAnswers) returns (ok: bool)
      requires WellformedDisk(files)
      requires base != delta && base != delta + ".merged.tmp" && base != delta + ".merge.tmp"
      modifies this
      ensures WellformedDisk(files)
      ensures ok ==>
        Mergeable(old(files), base, delta) && delta in files && files[delta].bytes == Merged(old(files), base, delta)
      ensures ok ==> files.Keys == old(files).Keys - {delta + ".merged.tmp"}
                                   - if ans.rename.Renamed? then {base} else {delta + ".merge.tmp"}
      ensures ok && ans.rename.CrossDevice? ==> base in files && files[base] == old(files)[base]
      ensures SameElsewhere(old(files), files, {base, delta, delta + ".merged.tmp", delta + ".merge.tmp"})
      ensures MergeWorks(ans) && Mergeable(old(files), base, delta) ==> ok
      // A size mismatch leaves everything as it was.
      ensures !Mergeable(old(files), base, delta) ==> !ok && files == old(files)
      // After a failure the complete image can still be had: from the two files, from the moved base
      // and the delta, or it is already there under the temporary name.
      ensures !ok && Mergeable(old(files), base, delta) ==> Recoverable(old(files), files, base, delta)
    {
      if !ans.statBase || base !in files {
        return false;
      }
      if !ans.statDelta || delta !in files {
        return false;
      }
      if |files[delta].bytes| != |files[base].bytes| {
        return false;
      }
      var merged := delta + ".merged.tmp";
      TmpDiffers(delta, ".merged.tmp");
      TmpDiffers(delta, ".merge.tmp");
      files := files - {merged};
      if ans.rename.CrossDevice? {
        ok := MergeSparseOverlay(base, delta, delta, ans.overlay);
        return;
      }
      if ans.rename.RenameFails? {
        return false;
      }
      ok := MergeRenamed(base, delta, ans);
    }

    /** The route on one file system, from the rename on. */
    method MergeRenamed(base: string, delta: string, ans: MergeAnswers) returns (ok: bool)
      requires WellformedDisk(files) && Mergeable(files, base, delta)
      requires base != delta && base != delta + ".merged.tmp" && delta + ".merged.tmp" !in files
      modifies this
      ensures WellformedDisk(files)
      ensures ok ==> files.Keys == old(files).Keys - {base} && files[delta].bytes == Merged(old(files), base, delta)
      ensures SameElsewhere(old(files), files, {base, delta, delta + ".merged.tmp"})
      ensures ans.openDelta && ans.openMerged && CopyWorks(ans.copy) && ans.closed && ans.removed && ans.renamed ==> ok
      ensures !ok ==> Recoverable(old(files), files, base, delta)
    {
      var merged := delta + ".merged.tmp";
      TmpDiffers(delta, ".merged.tmp");
      ghost var was := files;
      files := files[merged := files[base]] - {base};
      assert files[merged].bytes == OverlayUpTo(was[base].bytes, was[delta], 0);
      if !ans.openDelta || !ans.openMerged {
        return false;
      }
      ghost var cut;
      ok, cut := CopyInto(files[delta], merged, ans.copy);
      if !ok || !ans.closed || !ans.removed {
        return false;
      }
      files := files - {delta};
      if !ans.renamed {
        return false;
      }
      files := files[delta := files[merged]] - {merged};
    }
  }

  /** The base and the delta are both untouched, or the base is under the temporary name, overlaid up
      to some offset, with the delta still there unless the overlay is complete. */
  ghost predicate Recoverable(was: Disk, now: Disk, base: string, delta: string)
    requires WellformedDisk(was) && Mergeable(was, base, delta)
  {
    || (base in now && now[base] == was[base] && delta in now && now[delta] == was[delta])
    || (delta + ".merged.tmp" in now && exists cut: nat ::
          && now[delta + ".merged.tmp"].bytes == OverlayUpTo(was[base].bytes, was[delta], cut)
          && (delta in now ==> now[delta] == was[delta])
          && (delta !in now ==> now[delta + ".merged.tmp"].bytes == Merged(was, base, delta)))
  }

  lemma TmpDiffers(path: string, suffix: string)
    requires suffix != ""
    ensures path + suffix != path
  {
    assert |path + suffix| > |path|;
  }

  /** From a recoverable state the complete image can be computed. */
  lemma RecoverableDeterminesImage(was: Disk, now: Disk, base: string, delta: string)
    requires WellformedDisk(was) && WellformedDisk(now) && Mergeable(was, base, delta) &&
      Recoverable(was, now, base, delta)
    ensures
      var tmp := delta + ".merged.tmp";
      || (Mergeable(now, base, delta) && Merged(now, base, delta) == Merged(was, base, delta))
      || (Mergeable(now, tmp, delta) && Merged(now, tmp, delta) == Merged(was, base, delta))
      || (tmp in now && now[tmp].bytes == Merged(was, base, delta))
  {
    var tmp := delta + ".merged.tmp";
    if !(base in now && now[base] == was[base] && delta in now && now[delta] == was[delta]) && delta in now {
      var cut: nat :| now[tmp].bytes == OverlayUpTo(was[base].bytes, was[delta], cut) && now[delta] == was[delta];
      OverlayAgain(was[base].bytes, was[delta], cut);
    }
  }
}
