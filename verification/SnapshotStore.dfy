/** internal/snapshotstore/store.go on a map of objects: an upload that can stop after any object, a
    download, a delete; and what readers see at every stop. */
module SnapshotStore {
  import opened Base
  import opened GoStrings
  import opened SnapshotLayout

  type Local = map<string, Content>

  /** The regular files of the directory by name, without a manifest. */
  ghost predicate IsListing(names: seq<string>, local: Local) {
    && SortedStrings(names) && NoRepeats(names)
    && forall name :: name in names <==> name in local && name != MANIFEST_FILE
  }

  /** A file name has no slash. */
  predicate FileNames(local: Local) {
    forall name :: name in local ==> '/' !in name
  }

  /** The objects after the first `k` files were put. */
  function FilesPut(objects: Objects, prefix: string, local: Local, names: seq<string>, k: nat): Objects
    requires k <= |names| && forall name :: name in names ==> name in local
  {
    if k == 0 then objects
    else
      var before := FilesPut(objects, prefix, local, names, k - 1);
      before[FileKey(prefix, names[k - 1]) := Packed(local[names[k - 1]])]
  }

  /** The objects after a whole upload. */
  function Uploaded(objects: Objects, prefix: string, local: Local, names: seq<string>, rest: string): Objects
    requires forall name :: name in names ==> name in local
  {
    FilesPut(objects, prefix, local, names, |names|)[ManifestKey(prefix) := ManifestJson(Manifest(names, rest))]
  }

  function ManifestAt(objects: Objects, path: string): Option<Manifest> {
    var key := ManifestKey(Normalize(path));
    if key in objects && objects[key].ManifestJson? then Some(objects[key].manifest) else None
  }

  predicate FileThere(objects: Objects, prefix: string, name: string) {
    ValidFileName(name) && FileKey(prefix, name) in objects && objects[FileKey(prefix, name)].Packed?
  }

  datatype Fetched = Fetched(manifest: Manifest, files: Local) | NotFetched

  /** What a reader gets. The manifest is looked up under the normalized path normalized again. */
  function Fetch(objects: Objects, path: string): Fetched {
    var prefix := Normalize(path);
    var m := ManifestAt(objects, prefix);
    if m.None? || m.value.files == [] then NotFetched
    else if exists name :: name in m.value.files && !FileThere(objects, prefix, name) then NotFetched
    else Fetched(m.value, map name | name in m.value.files :: objects[FileKey(prefix, name)].content)
  }

  predicate Stable(path: string) {
    Normalize(Normalize(path)) == Normalize(path)
  }

  // ---------------------------------------------------------------- what is where after k puts

  /** `key` holds the same in both. */
  predicate SameAt(a: Objects, b: Objects, key: string) {
    (key in a <==> key in b) && (key in a && key in b ==> a[key] == b[key])
  }

  lemma NamesApart(path: string, local: Local, names: seq<string>, j: nat, k: nat)
    requires j < k < |names| && FileNames(local) && NoRepeats(names) && forall name :: name in names ==> name in local
    ensures FileKey(Normalize(path), names[j]) != FileKey(Normalize(path), names[k])
  {
    NormalizeIsPrefix(path);
    assert names[j] in names && names[k] in names;
    FileKeysApart(Normalize(path), names[j], Normalize(path), names[k]);
  }

  /** A key that is not among the first `k` written is as it was. */
  lemma {:induction false} FilesPutElsewhere(objects: Objects, prefix: string, local: Local, names: seq<string>,
                                             k: nat, key: string)
    requires k <= |names| && forall name :: name in names ==> name in local
    requires forall j :: 0 <= j < k ==> key != FileKey(prefix, names[j])
    ensures SameAt(FilesPut(objects, prefix, local, names, k), objects, key)
  {
    hide FileKey;
    if k > 0 {
      FilesPutElsewhere(objects, prefix, local, names, k - 1, key);
    }
  }

  /** A key among the first `k` written holds its file. */
  lemma {:induction false} FilesPutAt(objects: Objects, path: string, local: Local, names: seq<string>, k: nat, j: nat)
    requires j < k <= |names| && FileNames(local) && NoRepeats(names) && forall name :: name in names ==> name in local
    ensures var after := FilesPut(objects, Normalize(path), local, names, k);
      var key := FileKey(Normalize(path), names[j]);
      key in after && after[key] == Packed(local[names[j]])
  {
    hide FileKey, Normalize;
    if j < k - 1 {
      FilesPutAt(objects, path, local, names, k - 1, j);
      NamesApart(path, local, names, j, k - 1);
    }
  }

  lemma ManifestUntouched(objects: Objects, path: string, other: string, local: Local, names: seq<string>, k: nat)
    requires k <= |names| && FileNames(local) && forall name :: name in names ==> name in local
    requires IsPrefix(other)
    ensures SameAt(FilesPut(objects, Normalize(path), local, names, k), objects, ManifestKey(other))
  {
    NormalizeIsPrefix(path);
    forall j | 0 <= j < k ensures ManifestKey(other) != FileKey(Normalize(path), names[j]) {
      assert names[j] in names;
      FileKeysApart(Normalize(path), names[j], other, "");
    }
    FilesPutElsewhere(objects, Normalize(path), local, names, k, ManifestKey(other));
  }

  // ---------------------------------------------------------------- main results

  /** Nothing before the last put is visible: a reader of a prefix without a manifest fails at every
      point where an upload to it can stop. */
  lemma NothingBeforeManifest(objects: Objects, path: string, local: Local, names: seq<string>, k: nat)
    requires IsListing(names, local) && FileNames(local) && k <= |names|
    requires ManifestKey(Normalize(Normalize(path))) !in objects
    ensures Fetch(FilesPut(objects, Normalize(path), local, names, k), path) == NotFetched
  {
    NormalizeIsPrefix(Normalize(path));
    ManifestUntouched(objects, path, Normalize(Normalize(path)), local, names, k);
  }

  /** After the last put a reader gets exactly the local files, provided that the path is stable under
      normalizing and every name is accepted; otherwise it gets nothing. */
  lemma UploadThenFetch(objects: Objects, path: string, local: Local, names: seq<string>, rest: string)
    requires IsListing(names, local) && FileNames(local) && names != []
    requires ManifestKey(Normalize(Normalize(path))) !in objects
    ensures var got := Fetch(Uploaded(objects, Normalize(path), local, names, rest), path);
      && (got.Fetched? <==> Stable(path) && forall name :: name in names ==> ValidFileName(name))
      && (got.Fetched? ==> got == Fetched(Manifest(names, rest), local - {MANIFEST_FILE}))
  {
    var prefix := Normalize(path);
    var after := Uploaded(objects, prefix, local, names, rest);
    NormalizeIsPrefix(path);
    NormalizeIsPrefix(prefix);
    if !Stable(path) {
      ManifestUntouched(objects, path, Normalize(prefix), local, names, |names|);
      FileKeysApart(prefix, "", Normalize(prefix), "");
    } else {
      forall name | name in names
        ensures FileKey(prefix, name) in after && after[FileKey(prefix, name)] == Packed(local[name])
      {
        UploadedFile(objects, path, local, names, rest, name);
      }
      assert ManifestAt(after, prefix) == Some(Manifest(names, rest));
      if forall name :: name in names ==> ValidFileName(name) {
        assert Fetch(after, path).files == local - {MANIFEST_FILE};
      }
    }
  }

  lemma UploadedFile(objects: Objects, path: string, local: Local, names: seq<string>, rest: string, name: string)
    requires IsListing(names, local) && FileNames(local) && name in names
    ensures var prefix := Normalize(path); var after := Uploaded(objects, prefix, local, names, rest);
      FileKey(prefix, name) in after && after[FileKey(prefix, name)] == Packed(local[name])
  {
    var prefix := Normalize(path);
    NormalizeIsPrefix(path);
    var j :| 0 <= j < |names| && names[j] == name;
    FilesPutAt(objects, path, local, names, |names|, j);
    FileKeysApart(prefix, name, prefix, "");
  }

  /** Every state an upload can stop in is nothing or everything to a reader. */
  ghost predicate Stopped(was: Objects, now: Objects, path: string, local: Local, names: seq<string>, rest: string)
    requires forall name :: name in names ==> name in local
  {
    || now == Uploaded(was, Normalize(path), local, names, rest)
    || exists k: nat :: k <= |names| && now == FilesPut(was, Normalize(path), local, names, k)
  }

  lemma AllOrNothing(was: Objects, now: Objects, path: string, local: Local, names: seq<string>, rest: string)
    requires IsListing(names, local) && FileNames(local) && names != []
    requires Stopped(was, now, path, local, names, rest) && ManifestKey(Normalize(Normalize(path))) !in was
    ensures Fetch(now, path) == NotFetched ||
      Fetch(now, path) == Fetched(Manifest(names, rest), local - {MANIFEST_FILE})
  {
    if now == Uploaded(was, Normalize(path), local, names, rest) {
      UploadThenFetch(was, path, local, names, rest);
    } else {
      var k: nat :| k <= |names| && now == FilesPut(was, Normalize(path), local, names, k);
      NothingBeforeManifest(was, path, local, names, k);
    }
  }

  // ---------------------------------------------------------------- deleting

  /** The names a delete goes by: the ones it is given, or those of the manifest it finds. */
  function NamesToDelete(objects: Objects, path: string, given: seq<string>): seq<string> {
    if given != [] then given
    else
      var m := ManifestAt(objects, Normalize(path));
      if m.Some? then m.value.files else []
  }

  function KeysToDelete(objects: Objects, path: string, given: seq<string>): set<string> {
    ValidKeys(Normalize(path), NamesToDelete(objects, path, given)) + {ManifestKey(Normalize(path))}
  }

  /** The keys an upload writes. */
  function WrittenKeys(path: string, names: seq<string>): set<string> {
    (set name | name in names :: FileKey(Normalize(path), name)) + {ManifestKey(Normalize(path))}
  }

  /** Deleting a complete upload by its list removes exactly the keys that were written, when every
      name is accepted; by an empty list it does so when the path is stable as well. */
  lemma DeleteUndoesUpload(objects: Objects, path: string, local: Local, names: seq<string>, rest: string,
                           given: seq<string>)
    requires IsListing(names, local) && FileNames(local) && names != []
    requires forall name :: name in names ==> ValidFileName(name)
    requires given == names || (given == [] && Stable(path))
    ensures KeysToDelete(Uploaded(objects, Normalize(path), local, names, rest), path, given) ==
      WrittenKeys(path, names)
  {
    var after := Uploaded(objects, Normalize(path), local, names, rest);
    if given == [] {
      assert ManifestAt(after, Normalize(path)) == Some(Manifest(names, rest));
    }
  }

  /** So upload and delete together leave the other objects as they were and none of their own. */
  lemma UploadThenDelete(objects: Objects, path: string, local: Local, names: seq<string>, rest: string,
                         given: seq<string>)
    requires IsListing(names, local) && FileNames(local) && names != []
    requires forall name :: name in names ==> ValidFileName(name)
    requires given == names || (given == [] && Stable(path))
    ensures var after := Uploaded(objects, Normalize(path), local, names, rest);
      after - KeysToDelete(after, path, given) == objects - WrittenKeys(path, names)
  {
    DeleteUndoesUpload(objects, path, local, names, rest, given);
    var after := Uploaded(objects, Normalize(path), local, names, rest);
    var written := WrittenKeys(path, names);
    forall key | key !in written
      ensures (key in after <==> key in objects) && (key in after && key in objects ==> after[key] == objects[key])
    {
      forall j | 0 <= j < |names| ensures key != FileKey(Normalize(path), names[j]) {
        assert names[j] in names;
      }
      FilesPutElsewhere(objects, Normalize(path), local, names, |names|, key);
    }
    assert (after - written).Keys == (objects - written).Keys;
  }

  /** A delete touches no key of a snapshot at another normalized path. */
  lemma DeleteSparesOthers(objects: Objects, path: string, given: seq<string>, other: string, name: string)
    requires Normalize(other) != Normalize(path) && '/' !in name
    ensures FileKey(Normalize(other), name) !in KeysToDelete(objects, path, given)
    ensures ManifestKey(Normalize(other)) !in KeysToDelete(objects, path, given)
  {
    NormalizeIsPrefix(path);
    NormalizeIsPrefix(other);
    forall x | ValidFileName(x)
      ensures FileKey(Normalize(path), x) != FileKey(Normalize(other), name) &&
        FileKey(Normalize(path), x) != ManifestKey(Normalize(other))
    {
      FileKeysApart(Normalize(path), x, Normalize(other), name);
    }
    FileKeysApart(Normalize(other), name, Normalize(path), "");
  }

  /** The keys of the first `n` names whose delete takes effect. */
  function Gone(prefix: string, files: seq<string>, deletes: nat -> Outcome, n: nat): set<string>
    requires n <= |files|
  {
    if n == 0 then {}
    else
      Gone(prefix, files, deletes, n - 1) +
      if ValidFileName(files[n - 1]) then Taken(FileKey(prefix, files[n - 1]), deletes(n - 1)) else {}
  }

  function Taken(key: string, outcome: Outcome): set<string> {
    if outcome.Fails? then {} else {key}
  }

  /** The names a delete goes by when the manifest may not be readable. */
  function NamesUsed(objects: Objects, path: string, given: seq<string>, got: bool): seq<string> {
    if given == [] && !got then [] else NamesToDelete(objects, path, given)
  }

  /** A named key is gone if a delete of it takes effect, whatever errors came before. */
  lemma {:induction false} GoneElements(prefix: string, files: seq<string>, deletes: nat -> Outcome, n: nat)
    requires n <= |files|
    ensures Gone(prefix, files, deletes, n) <= ValidKeys(prefix, files)
    ensures forall i :: 0 <= i < n && ValidFileName(files[i]) && !deletes(i).Fails? ==>
      FileKey(prefix, files[i]) in Gone(prefix, files, deletes, n)
  {
    hide FileKey, ValidFileName;
    if n > 0 {
      GoneElements(prefix, files, deletes, n - 1);
      assert files[n - 1] in files;
    }
  }

  /** What a delete removes, by outcome of its single deletes. */
  function Deleted(objects: Objects, path: string, given: seq<string>, got: bool,
                   deletes: nat -> Outcome): set<string> {
    var prefix := Normalize(path);
    var files := NamesUsed(objects, path, given, got);
    Gone(prefix, files, deletes, |files|) + Taken(ManifestKey(prefix), deletes(|files|))
  }

  lemma DeleteSummary(objects: Objects, path: string, given: seq<string>, got: bool, deletes: nat -> Outcome)
    ensures OnlyRemoved(objects, objects - Deleted(objects, path, given, got, deletes),
      KeysToDelete(objects, path, given))
    ensures got && (forall n :: deletes(n).Succeeds?) ==>
      Deleted(objects, path, given, got, deletes) == KeysToDelete(objects, path, given)
  {
    var prefix := Normalize(path);
    var files := NamesUsed(objects, path, given, got);
    GoneElements(prefix, files, deletes, |files|);
    if forall n :: deletes(n).Succeeds? {
      AllGone(prefix, files, deletes);
      assert deletes(|files|).Succeeds?;
    }
    hide Gone, FileKey, ValidFileName, ManifestKey, Normalize;
  }

  lemma AllGone(prefix: string, files: seq<string>, deletes: nat -> Outcome)
    requires forall n :: deletes(n).Succeeds?
    ensures Gone(prefix, files, deletes, |files|) == ValidKeys(prefix, files)
  {
    GoneElements(prefix, files, deletes, |files|);
    hide Gone, FileKey, ValidFileName;
    forall key | key in ValidKeys(prefix, files) ensures key in Gone(prefix, files, deletes, |files|) {
      var name :| name in files && ValidFileName(name) && key == FileKey(prefix, name);
      var i :| 0 <= i < |files| && files[i] == name;
      assert deletes(i).Succeeds?;
    }
  }

  // ---------------------------------------------------------------- the calls

  /** A put or delete can take effect although it reports an error. */
  datatype Outcome = Succeeds | TakesEffectOnly | Fails

  class SnapshotStorage {
    var objects: Objects

    constructor (objects: Objects)
      ensures this.objects == objects
    {
      this.objects := objects;
    }

    method Put(key: string, blob: Blob, outcome: Outcome) returns (ok: bool)
      modifies this
      ensures ok == outcome.Succeeds? && objects == if outcome.Fails? then old(objects) else old(objects)[key := blob]
    {
      if !outcome.Fails? {
        objects := objects[key := blob];
      }
      ok := outcome.Succeeds?;
    }

    method DeleteObject(key: string, outcome: Outcome) returns (ok: bool)
      modifies this
      ensures ok == outcome.Succeeds? && objects == old(objects) - Taken(key, outcome)
    {
      if !outcome.Fails? {
        objects := objects - {key};
      }
      ok := outcome.Succeeds?;
    }

    static method ListRegularFiles(local: Local) returns (files: seq<string>)
      ensures IsListing(files, local)
    {
      files := [];
      var todo := local.Keys;
      while todo != {}
        invariant todo <= local.Keys && NoRepeats(files)
        invariant forall name :: name in files <==> name in local && name !in todo && name != MANIFEST_FILE
        decreases |todo|
      {
        var name := Pick(todo);
        todo := todo - {name};
        if name != MANIFEST_FILE {
          files := files + [name];
        }
      }
      ghost var unsorted := files;
      files := SortStrings(files);
      SortStringsSorted(unsorted);
      SameElements(unsorted, files);
    }

    /** Puts the files one by one, the manifest last, and stops at the first error. */
    method Upload(storagePath: string, local: Local, rest: string, puts: nat -> Outcome)
      returns (ok: bool, ghost names: seq<string>)
      requires FileNames(local)
      modifies this
      ensures IsListing(names, local)
      ensures Stopped(old(objects), objects, storagePath, local, names, rest)
      ensures ok ==> names != [] && objects == Uploaded(old(objects), Normalize(storagePath), local, names, rest)
      ensures ok <==> names != [] && forall n :: 0 <= n <= |names| ==> puts(n).Succeeds?
    {
      var prefix := Normalize(storagePath);
      var files := ListRegularFiles(local);
      names := files;
      assert objects == FilesPut(old(objects), prefix, local, names, 0);
      if |files| == 0 {
        return false, names;
      }
      for i := 0 to |files|
        invariant objects == FilesPut(old(objects), prefix, local, names, i)
        invariant forall n :: 0 <= n < i ==> puts(n).Succeeds?
      {
        assert files[i] in files;
        var put := Put(FileKey(prefix, files[i]), Packed(local[files[i]]), puts(i));
        if !put {
          assert objects == FilesPut(old(objects), prefix, local, names, if puts(i).Fails? then i else i + 1);
          return false, names;
        }
      }
      ok := Put(ManifestKey(prefix), ManifestJson(Manifest(files, rest)), puts(|files|));
    }

    method GetManifest(storagePath: string, got: bool) returns (m: Option<Manifest>)
      ensures m == if got then ManifestAt(objects, storagePath) else None
    {
      var key := ManifestKey(Normalize(storagePath));
      if !got || key !in objects || !objects[key].ManifestJson? {
        return None;
      }
      return Some(objects[key].manifest);
    }

    /** Reads the manifest, then each listed file. */
    method Download(storagePath: string, gets: nat -> bool) returns (r: Fetched)
      ensures r.Fetched? ==> r == Fetch(objects, storagePath)
      ensures (forall n :: gets(n)) ==> r == Fetch(objects, storagePath)
    {
      var prefix := Normalize(storagePath);
      var m := GetManifest(prefix, gets(0));
      if m.None? || |m.value.files| == 0 {
        return NotFetched;
      }
      var names := m.value.files;
      var files: Local := map[];
      for i := 0 to |names|
        invariant forall j :: 0 <= j < i ==> FileThere(objects, prefix, names[j]) && names[j] in files
        invariant forall name :: name in files ==>
          name in names[..i] && files[name] == objects[FileKey(prefix, name)].content
      {
        var key := FileKey(prefix, names[i]);
        if !ValidFileName(names[i]) || !gets(i + 1) || key !in objects || !objects[key].Packed? {
          assert names[i] in names;
          return NotFetched;
        }
        files := files[names[i] := objects[key].content];
      }
      assert files == map name | name in names :: objects[FileKey(prefix, name)].content;
      return Fetched(m.value, files);
    }

    /** Goes on after an error and reports the first. */
    method Delete(storagePath: string, snapshotFiles: seq<string>, got: bool, deletes: nat -> Outcome)
      returns (ok: bool)
      modifies this
      ensures objects == old(objects) - Deleted(old(objects), storagePath, snapshotFiles, got, deletes)
      ensures var files := NamesUsed(old(objects), storagePath, snapshotFiles, got);
        ok <==> deletes(|files|).Succeeds? && NoError(files, deletes, |files|)
      ensures got && (forall n :: deletes(n).Succeeds?) ==>
        ok && objects == old(objects) - KeysToDelete(old(objects), storagePath, snapshotFiles)
      ensures OnlyRemoved(old(objects), objects, KeysToDelete(old(objects), storagePath, snapshotFiles))
    {
      var prefix := Normalize(storagePath);
      var files := snapshotFiles;
      if |files| == 0 {
        var m := GetManifest(prefix, got);
        if m.Some? {
          files := m.value.files;
        }
      }
      assert files == NamesUsed(objects, storagePath, snapshotFiles, got);
      DeleteSummary(objects, storagePath, snapshotFiles, got, deletes);
      hide FileKey, ValidFileName, ManifestKey, Normalize, KeysToDelete, NamesUsed, OnlyRemoved, NoError, Taken;
      ok := true;
      assert NoError(files, deletes, 0) by { NoErrorStart(files, deletes); }
      ghost var was := objects;
      for i := 0 to |files|
        invariant objects == was - Gone(prefix, files, deletes, i)
        invariant ok <==> NoError(files, deletes, i)
      {
        NoErrorStep(files, deletes, i);
        if !ValidFileName(files[i]) {
          assert Gone(prefix, files, deletes, i) + {} == Gone(prefix, files, deletes, i);
          continue;
        }
        MinusMore(was, Gone(prefix, files, deletes, i), Taken(FileKey(prefix, files[i]), deletes(i)));
        var gone := DeleteObject(FileKey(prefix, files[i]), deletes(i));
        ok := ok && gone;
      }
      MinusMore(was, Gone(prefix, files, deletes, |files|), Taken(ManifestKey(prefix), deletes(|files|)));
      var gone := DeleteObject(ManifestKey(prefix), deletes(|files|));
      ok := ok && gone;
    }
  }

  /** Some of the `keys` are gone and everything else is as it was. */
  ghost predicate OnlyRemoved(was: Objects, now: Objects, keys: set<string>) {
    && now.Keys <= was.Keys && was.Keys - now.Keys <= keys
    && forall key :: key in now ==> now[key] == was[key]
  }

  /** The deletes of the first `n` names reported no error. */
  ghost predicate NoError(files: seq<string>, deletes: nat -> Outcome, n: nat)
    requires n <= |files|
  {
    forall i :: 0 <= i < n && ValidFileName(files[i]) ==> deletes(i).Succeeds?
  }

  lemma NoErrorStart(files: seq<string>, deletes: nat -> Outcome)
    ensures NoError(files, deletes, 0)
  {
  }

  lemma NoErrorStep(files: seq<string>, deletes: nat -> Outcome, i: nat)
    requires i < |files|
    ensures NoError(files, deletes, i + 1) <==>
      NoError(files, deletes, i) && (ValidFileName(files[i]) ==> deletes(i).Succeeds?)
  {
  }

  lemma MinusMore(was: Objects, keys: set<string>, more: set<string>)
    ensures was - keys - more == was - (keys + more)
  {
  }

  function ValidKeys(prefix: string, files: seq<string>): set<string> {
    set name | name in files && ValidFileName(name) :: FileKey(prefix, name)
  }

  lemma SameElements(a: seq<string>, b: seq<string>)
    requires multiset(a) == multiset(b) && NoRepeats(a)
    ensures NoRepeats(b) && forall x :: x in a <==> x in b
  {
    forall x ensures x in a <==> x in b {
      assert x in multiset(a) <==> x in multiset(b);
    }
    forall x ensures multiset(a)[x] <= 1 {
      OnceEach(a, x);
    }
    MultisetNoRepeats(b);
  }

  lemma {:induction false} OnceEach(a: seq<string>, x: string)
    requires NoRepeats(a)
    ensures multiset(a)[x] <= 1
  {
    if a != [] {
      var front := a[..|a| - 1];
      assert a == front + [a[|a| - 1]];
      OnceEach(front, x);
      if x == a[|a| - 1] {
        assert x !in front;
      }
    }
  }
}
