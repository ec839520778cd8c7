/** internal/runtime/kata/ch/merge.go: overlaying the populated pages of a sparse memory image onto a
    complete one. What lseek answers for data and holes is the model of a sparse file. */
module SparseMerge {
  import opened Base

  /** The bytes of a file and which of them are stored. A hole reads as zero. */
  datatype File = File(bytes: seq<byte>, data: seq<bool>)

  predicate Wellformed(f: File) {
    |f.data| == |f.bytes| && forall i :: 0 <= i < |f.bytes| && !f.data[i] ==> f.bytes[i] == 0
  }

  /** SEEK_DATA and SEEK_HOLE: the next offset of that kind, or the size. */
  function Seek(f: File, off: nat, kind: bool): (r: nat)
    requires Wellformed(f) && off <= |f.bytes|
    ensures off <= r <= |f.bytes|
    ensures r < |f.bytes| ==> f.data[r] == kind
    ensures forall i :: off <= i < r ==> f.data[i] != kind
    decreases |f.bytes| - off
  {
    if off == |f.bytes| || f.data[off] == kind then off else Seek(f, off + 1, kind)
  }

  /** `base` with the stored bytes of `f` below `cut` in place of its own. */
  function OverlayUpTo(base: seq<byte>, f: File, cut: nat): (r: seq<byte>)
    requires Wellformed(f) && |base| == |f.bytes|
    ensures |r| == |base|
  {
    seq(|base|, i requires 0 <= i < |base| => if i < cut && f.data[i] then f.bytes[i] else base[i])
  }

  function Overlay(base: seq<byte>, f: File): seq<byte>
    requires Wellformed(f) && |base| == |f.bytes|
  {
    OverlayUpTo(base, f, |base|)
  }

  /** How many bytes below `n` are stored. */
  function DataBelow(f: File, n: nat): (r: nat)
    requires n <= |f.data|
    ensures r <= n
  {
    if n == 0 then 0 else DataBelow(f, n - 1) + if f.data[n - 1] then 1 else 0
  }

  lemma {:induction false} DataOfRun(f: File, start: nat, end: nat, kind: bool)
    requires start <= end <= |f.data| && forall i :: start <= i < end ==> f.data[i] == kind
    ensures DataBelow(f, end) == DataBelow(f, start) + if kind then end - start else 0
    decreases end - start
  {
    if start < end {
      DataOfRun(f, start, end - 1, kind);
    }
  }

  // ---------------------------------------------------------------- copySparseRegions

  const BUFFER: nat := 0x10_0000

  /** One read into the buffer and one write out of it; either can stop short with an error. */
  datatype Transfer = Complete | ReadStops(read: nat) | WriteStops(written: nat)

  /** What the file system answers during one copy: the seeks of the n-th region and the transfer of
      the n-th buffer. */
  datatype Answers = Answers(statOk: bool, seekOk: nat -> bool, transfer: nat -> Transfer)

  method Write(src: File, dst: array<byte>, at: nat, n: nat)
    requires Wellformed(src) && dst.Length == |src.bytes| && at + n <= dst.Length
    modifies dst
    ensures dst[at..at + n] == src.bytes[at..at + n]
    ensures forall i :: 0 <= i < dst.Length && !(at <= i < at + n) ==> dst[i] == old(dst[i])
  {
    forall i | at <= i < at + n {
      dst[i] := src.bytes[i];
    }
  }

  /** The destination as it is when everything below `cut` has been copied. */
  ghost predicate CopiedUpTo(now: seq<byte>, was: seq<byte>, src: File, cut: nat)
    requires Wellformed(src)
  {
    |was| == |now| == |src.bytes| && now == OverlayUpTo(was, src, cut)
  }

  /** Writing a run of stored bytes right after the cut moves the cut. */
  lemma CutMoves(before: seq<byte>, now: seq<byte>, was: seq<byte>, src: File, cut: nat, n: nat)
    requires Wellformed(src) && CopiedUpTo(before, was, src, cut) && |now| == |before| && cut + n <= |was|
    requires forall i :: cut <= i < cut + n ==> src.data[i] && now[i] == src.bytes[i]
    requires forall i :: 0 <= i < |now| && !(cut <= i < cut + n) ==> now[i] == before[i]
    ensures CopiedUpTo(now, was, src, cut + n)
  {
  }

  /** Skipping a hole moves the cut. */
  lemma HoleSkipped(now: seq<byte>, was: seq<byte>, src: File, cut: nat, to: nat)
    requires Wellformed(src) && CopiedUpTo(now, was, src, cut) && cut <= to <= |was|
    requires forall i :: cut <= i < to ==> !src.data[i]
    ensures CopiedUpTo(now, was, src, to)
  {
  }

  /** Copies one stored region buffer by buffer. */
  method CopyRegion(src: File, dst: array<byte>, ds: nat, de: nat, done: nat, transfer: nat -> Transfer,
                    ghost was: seq<byte>)
    returns (ok: bool, copied: nat, buffers: nat, ghost cut: nat)
    requires Wellformed(src) && dst.Length == |src.bytes| && ds <= de <= |src.bytes|
    requires forall i :: ds <= i < de ==> src.data[i]
    requires CopiedUpTo(dst[..], was, src, ds)
    modifies dst
    ensures ds <= cut <= de && CopiedUpTo(dst[..], was, src, cut)
    ensures ok ==> cut == de && copied == de - ds
    ensures copied <= cut - ds
    ensures (forall n :: transfer(n) == Complete) ==> ok
  {
    copied, buffers, cut := 0, done, ds;
    var pos, remaining := ds, de - ds;
    while remaining > 0
      invariant 0 <= remaining <= de - ds && pos == cut == de - remaining && copied == cut - ds
      invariant CopiedUpTo(dst[..], was, src, cut)
    {
      var n := if BUFFER > remaining then remaining else BUFFER;
      var t := transfer(buffers);
      var r := if t.ReadStops? && t.read < n then t.read else n;
      var w := if t.WriteStops? && t.written < r then t.written else r;
      ghost var before := dst[..];
      Write(src, dst, pos, w);
      WrittenBytes(src, dst[..], cut, w);
      CutMoves(before, dst[..], was, src, cut, w);
      pos, cut := pos + w, cut + w;
      if w < r {
        return false, copied, buffers, cut;
      }
      copied := copied + r;
      if r < n {
        return false, copied, buffers, cut;
      }
      remaining := remaining - r;
      buffers := buffers + 1;
    }
    ok := true;
  }

  lemma WrittenBytes(src: File, now: seq<byte>, at: nat, n: nat)
    requires at + n <= |now| == |src.bytes| && now[at..at + n] == src.bytes[at..at + n]
    ensures forall i :: at <= i < at + n ==> now[i] == src.bytes[i]
  {
    forall i | at <= i < at + n ensures now[i] == src.bytes[i] {
      assert now[at..at + n][i - at] == src.bytes[at..at + n][i - at];
    }
  }

  /** Overwrites `dst` with every stored region of `src` at the same offsets. It terminates, touches
      nothing in the holes, and returns the number of stored bytes; a failure leaves a prefix of the
      work done. */
  method CopySparseRegions(src: File, dst: array<byte>, ans: Answers) returns (ok: bool, copied: nat, ghost cut: nat)
    requires Wellformed(src) && dst.Length == |src.bytes|
    modifies dst
    ensures cut <= dst.Length && dst[..] == OverlayUpTo(old(dst[..]), src, cut)
    ensures ok ==> dst[..] == Overlay(old(dst[..]), src) && copied == DataBelow(src, |src.bytes|)
    ensures copied <= DataBelow(src, cut)
    ensures ans.statOk && (forall n :: ans.seekOk(n)) && (forall n :: ans.transfer(n) == Complete) ==> ok
  {
    ghost var was := dst[..];
    copied, cut := 0, 0;
    assert dst[..] == OverlayUpTo(was, src, 0);
    if !ans.statOk {
      return false, 0, 0;
    }
    var size := |src.bytes|;
    var off, regions, buffers := 0, 0, 0;
    while off < size
      invariant 0 <= off <= size && cut == off
      invariant CopiedUpTo(dst[..], was, src, off) && copied == DataBelow(src, off)
      decreases size - off
    {
      if !ans.seekOk(regions) {
        return false, copied, cut;
      }
      var ds := Seek(src, off, true);
      HoleSkipped(dst[..], was, src, off, ds);
      DataOfRun(src, off, ds, false);
      if ds == size {
        cut := size;
        break;
      }
      var de := Seek(src, ds, false);
      var more;
      ok, more, buffers, cut := CopyRegion(src, dst, ds, de, buffers, ans.transfer, was);
      DataOfRun(src, ds, cut, true);
      copied := copied + more;
      if !ok {
        return false, copied, cut;
      }
      off := de;
      regions := regions + 1;
    }
    ok := true;
  }

  // ---------------------------------------------------------------- what an overlay means

  /** An interrupted overlay loses nothing: overlaying again completes it. */
  lemma OverlayAgain(base: seq<byte>, f: File, cut: nat)
    requires Wellformed(f) && |base| == |f.bytes|
    ensures Overlay(OverlayUpTo(base, f, cut), f) == Overlay(base, f)
  {
    var once := OverlayUpTo(base, f, cut);
    assert forall i :: 0 <= i < |base| ==> Overlay(once, f)[i] == Overlay(base, f)[i];
  }
}
