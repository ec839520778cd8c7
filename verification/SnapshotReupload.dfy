/** Uploading over an older snapshot at the same path (internal/snapshotstore/store.go): until the new
    manifest is put, readers go by the old one, and so does the clean-up of a failed upload
    (internal/worker/snapshot.go). */
module SnapshotReupload {
  import opened Base
  import opened GoStrings
  import opened SnapshotLayout
  import opened SnapshotStore

  // ---------------------------------------------------------------- what a reader sees

  /** What one file name gives after `k` puts: the new file once it was put, before that the old object. */
  function NewOrOld(was: Objects, prefix: string, local: Local, names: seq<string>, k: nat, name: string): Content
    requires k <= |names| && (forall x :: x in names ==> x in local)
    requires name in names[..k] || FileThere(was, prefix, name)
  {
    if name in names[..k] then local[name] else was[FileKey(prefix, name)].content
  }

  lemma FileAfterPuts(was: Objects, path: string, local: Local, names: seq<string>, k: nat, name: string)
    requires IsListing(names, local) && FileNames(local) && k <= |names| && ValidFileName(name)
    ensures var prefix := Normalize(path); var half := FilesPut(was, prefix, local, names, k);
      var key := FileKey(prefix, name);
      if name in names[..k] then key in half && half[key] == Packed(local[name]) else SameAt(half, was, key)
  {
    var prefix := Normalize(path);
    if name in names[..k] {
      var j :| 0 <= j < k && names[j] == name;
      FilesPutAt(was, path, local, names, k, j);
    } else {
      NormalizeIsPrefix(path);
      forall j | 0 <= j < k ensures FileKey(prefix, name) != FileKey(prefix, names[j]) {
        assert names[j] in names && names[j] in names[..k];
        FileKeysApart(prefix, name, prefix, names[j]);
      }
      FilesPutElsewhere(was, prefix, local, names, k, FileKey(prefix, name));
    }
  }

  lemma ManifestAfterPuts(was: Objects, path: string, local: Local, names: seq<string>, k: nat)
    requires IsListing(names, local) && FileNames(local) && k <= |names|
    ensures ManifestAt(FilesPut(was, Normalize(path), local, names, k), Normalize(path)) ==
      ManifestAt(was, Normalize(path))
  {
    NormalizeIsPrefix(Normalize(path));
    ManifestUntouched(was, path, Normalize(Normalize(path)), local, names, k);
  }

  /** What a reader gets from an upload that stopped before its manifest: the files of the manifest
      that is there, each new if it was already put and old otherwise; and nothing if one is neither. */
  lemma ReuploadSeen(was: Objects, path: string, local: Local, names: seq<string>, k: nat)
    requires IsListing(names, local) && FileNames(local) && k <= |names|
    ensures var prefix := Normalize(path); var m := ManifestAt(was, prefix);
      var got := Fetch(FilesPut(was, prefix, local, names, k), path);
      && (got.Fetched? <==>
           m.Some? && m.value.files != [] &&
           forall name :: name in m.value.files ==>
             ValidFileName(name) && (name in names[..k] || FileThere(was, prefix, name)))
      && (got.Fetched? ==>
           got == Fetched(m.value, map name | name in m.value.files :: NewOrOld(was, prefix, local, names, k, name)))
  {
    hide Normalize, FileKey, ValidFileName, FilesPut;
    var prefix := Normalize(path);
    var half := FilesPut(was, prefix, local, names, k);
    ManifestAfterPuts(was, path, local, names, k);
    forall name | ValidFileName(name)
      ensures FileThere(half, prefix, name) <==> name in names[..k] || FileThere(was, prefix, name)
      ensures FileThere(half, prefix, name) ==>
        half[FileKey(prefix, name)].content == NewOrOld(was, prefix, local, names, k, name)
    {
      FileAfterPuts(was, path, local, names, k, name);
    }
    hide ManifestAt;
  }

  /** Readers of an older snapshot still see it while a new one is uploaded over it exactly as long as
      no file that was put differs from the one of that name they had. */
  lemma OldSnapshotSeenIff(was: Objects, path: string, local: Local, names: seq<string>, k: nat)
    requires IsListing(names, local) && FileNames(local) && k <= |names| && Fetch(was, path).Fetched?
    ensures var prior := Fetch(was, path);
      Fetch(FilesPut(was, Normalize(path), local, names, k), path) == prior <==>
      forall name :: name in names[..k] && name in prior.files ==> local[name] == prior.files[name]
  {
    ReuploadSeen(was, path, local, names, k);
    hide Normalize, FileKey, FilesPut;
    var prior, now := Fetch(was, path), Fetch(FilesPut(was, Normalize(path), local, names, k), path);
    assert now.Fetched? && now.manifest == prior.manifest && now.files.Keys == prior.files.Keys;
    hide Fetch, ManifestAt;
    if now.files != prior.files {
      var name :| name in now.files && now.files[name] != prior.files[name];
      assert name in names[..k];
    }
  }

  const TWO_FILES := ["a", "b"]

  lemma TwoFiles(local: Local)
    requires local.Keys == {"a", "b"}
    ensures IsListing(TWO_FILES, local) && FileNames(local) && forall name :: name in TWO_FILES ==> ValidFileName(name)
  {
    assert !Contains("a", "..") && !Contains("b", "..") by {
      assert "a"[1..] == "" && "b"[1..] == "";
    }
  }

  lemma FirstOfTwo(was: Objects, path: string, older: Local, newer: Local, rest: string)
    requires older.Keys == newer.Keys == {"a", "b"} && IsListing(TWO_FILES, newer) && FileNames(newer)
    requires Fetch(was, path) == Fetched(Manifest(TWO_FILES, rest), older)
    ensures Fetch(FilesPut(was, Normalize(path), newer, TWO_FILES, 1), path) ==
      Fetched(Manifest(TWO_FILES, rest), map["a" := newer["a"], "b" := older["b"]])
  {
    ReuploadSeen(was, path, newer, TWO_FILES, 1);
    hide Normalize, FilesPut, FileKey, ValidFileName, IsListing, FileNames;
    var got := Fetch(FilesPut(was, Normalize(path), newer, TWO_FILES, 1), path);
    assert TWO_FILES[..1] == ["a"];
    assert got.Fetched? && got.files.Keys == {"a", "b"};
    assert "a" in older && "b" in older && "b" !in ["a"];
    assert got.files["a"] == newer["a"] && got.files["b"] == older["b"];
  }

  /** The memory of one checkpoint next to the disk of another: the path holds a complete snapshot of
      two files, a second upload to it stops after the first one, and a reader gets the new "a" with
      the old "b". */
  lemma MixedRead(path: string, older: Local, newer: Local, rest: string)
    requires Stable(path) && older.Keys == newer.Keys == {"a", "b"} && older["a"] != newer["a"]
    requires older["b"] != newer["b"]
    ensures IsListing(TWO_FILES, older) && IsListing(TWO_FILES, newer)
    ensures var was := Uploaded(map[], Normalize(path), older, TWO_FILES, rest);
      var now := FilesPut(was, Normalize(path), newer, TWO_FILES, 1);
      && Fetch(was, path) == Fetched(Manifest(TWO_FILES, rest), older)
      && Stopped(was, now, path, newer, TWO_FILES, rest)
      && Fetch(now, path) == Fetched(Manifest(TWO_FILES, rest), map["a" := newer["a"], "b" := older["b"]])
  {
    TwoFiles(older);
    TwoFiles(newer);
    hide Normalize, FilesPut, Uploaded, FileKey, ValidFileName, Fetch, IsListing, FileNames;
    var was := Uploaded(map[], Normalize(path), older, TWO_FILES, rest);
    UploadThenFetch(map[], path, older, TWO_FILES, rest);
    assert older - {MANIFEST_FILE} == older;
    FirstOfTwo(was, path, older, newer, rest);
  }

  // ---------------------------------------------------------------- the clean-up of a failed upload

  /** After a failed upload everything at the path is deleted by an empty list, which goes by the
      manifest that is there. A file that was put survives exactly when that manifest does not list
      its name as an accepted one; with no manifest, every file survives. */
  lemma HalfUploadStaysIff(objects: Objects, path: string, local: Local, names: seq<string>, k: nat, j: nat)
    requires IsListing(names, local) && FileNames(local) && j < k <= |names|
    ensures var prefix := Normalize(path); var half := FilesPut(objects, prefix, local, names, k);
      var m := ManifestAt(objects, prefix);
      FileKey(prefix, names[j]) in half - KeysToDelete(half, path, []) <==>
      !(m.Some? && names[j] in m.value.files && ValidFileName(names[j]))
  {
    var prefix := Normalize(path);
    var half := FilesPut(objects, prefix, local, names, k);
    ManifestAfterPuts(objects, path, local, names, k);
    FilesPutAt(objects, path, local, names, k, j);
    NormalizeIsPrefix(path);
    assert names[j] in names;
    FileKeysApart(prefix, names[j], prefix, "");
    forall x | ValidFileName(x) && FileKey(prefix, x) == FileKey(prefix, names[j]) ensures x == names[j] {
      FileKeysApart(prefix, x, prefix, names[j]);
    }
    hide Normalize, FileKey, ValidFileName, FilesPut, ManifestAt, ManifestKey;
  }

  /** And it also removes what that manifest lists although this upload never touched it, together with
      the manifest: the older snapshot is gone. */
  lemma OlderSnapshotDeleted(objects: Objects, path: string, local: Local, names: seq<string>, k: nat)
    requires IsListing(names, local) && FileNames(local) && k <= |names| && Stable(path) &&
      Fetch(objects, path).Fetched?
    ensures var prefix := Normalize(path); var half := FilesPut(objects, prefix, local, names, k);
      && Fetch(half - KeysToDelete(half, path, []), path) == NotFetched
      && forall name :: name in Fetch(objects, path).files ==>
           FileKey(prefix, name) !in half - KeysToDelete(half, path, [])
  {
    var prefix := Normalize(path);
    var half := FilesPut(objects, prefix, local, names, k);
    ManifestAfterPuts(objects, path, local, names, k);
    hide Normalize, FileKey, ValidFileName, FilesPut;
    forall name | name in Fetch(objects, path).files ensures FileKey(prefix, name) in KeysToDelete(half, path, []) {
      assert FileThere(objects, prefix, name);
    }
  }
}
