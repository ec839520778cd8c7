/** The layout of a snapshot in object storage as other tools see it (internal/snapshotstore/store.go): the
    path it is stored under, its keys, and what a reader accepts, without the functions that compute them. */
module SnapshotKeys {
  import opened Base
  import opened GoStrings
  import opened SnapshotLayout
  import opened SnapshotStore

  function Slash(there: bool): string {
    if there then "/" else ""
  }

  lemma SlashFront(front: bool, t: string)
    requires t != "" && t[0] != '/'
    ensures TrimPrefix(Slash(front) + t, "/") == t
  {
    SlashPrefix(Slash(front) + t);
    if front {
      assert ("/" + t)[1..] == t;
    } else {
      assert "" + t == t;
    }
  }

  lemma SlashBack(a: string, back: bool)
    requires a != "" && a[|a| - 1] != '/'
    ensures HasSuffix(a + Slash(back), "/") <==> back
  {
    SlashSuffix(a + Slash(back));
    if !back {
      assert a + "" == a;
    }
  }

  lemma NormalizeTrimmed(path: string, m: string)
    requires TrimSpace(path) == m
    ensures var p := TrimPrefix(m, "/"); Normalize(path) == if p != "" && !HasSuffix(p, "/") then p + "/" else p
  {
  }

  /** Spaces around a path, one slash in front and one at the end make no difference. */
  lemma NormalizeForms(l: string, front: bool, a: string, back: bool, r: string)
    requires Blank(l) && Blank(r) && a != "" && !IsSpace(a[0]) && a[0] != '/'
    requires !IsSpace(a[|a| - 1]) && a[|a| - 1] != '/'
    ensures Normalize(l + (Slash(front) + a + Slash(back)) + r) == a + "/"
  {
    var m := Slash(front) + a + Slash(back);
    assert m[0] == (if front then '/' else a[0]) && m[|m| - 1] == (if back then '/' else a[|a| - 1]);
    assert !IsSpace('/');
    TrimSpaceOf(l, m, r);
    NormalizeTrimmed(l + m + r, m);
    assert m == Slash(front) + (a + Slash(back));
    SlashFront(front, a + Slash(back));
    SlashBack(a, back);
    hide TrimSpace, IsSpace, Normalize, TrimPrefix, HasSuffix;
    assert a + "" == a;
  }

  /** Spaces and one slash are the root of the bucket. */
  lemma NormalizeRoot(l: string, r: string)
    requires Blank(l) && Blank(r)
    ensures Normalize(l + "" + r) == "" && Normalize(l + "/" + r) == ""
  {
    assert !IsSpace('/');
    TrimSpaceOf(l, "", r);
    TrimSpaceOf(l, "/", r);
    hide TrimSpace, IsSpace;
    SlashPrefix("/");
  }

  lemma KeyForms(prefix: string, name: string)
    ensures FileKey(prefix, name) == prefix + name + ".zstd" && ManifestKey(prefix) == prefix + "manifest.json"
  {
  }

  /** An upload writes each file under its name with ".zstd" added and the manifest under "manifest.json", and
      leaves every other key alone. */
  lemma UploadedIs(objects: Objects, path: string, local: Local, names: seq<string>, rest: string)
    requires IsListing(names, local) && FileNames(local)
    ensures var prefix := Normalize(path); var after := Uploaded(objects, prefix, local, names, rest);
      && (forall name :: name in names ==>
            prefix + name + ".zstd" in after && after[prefix + name + ".zstd"] == Packed(local[name]))
      && prefix + "manifest.json" in after
      && after[prefix + "manifest.json"] == ManifestJson(Manifest(names, rest))
      && (forall key ::
            key != prefix + "manifest.json" && (forall name :: name in names ==> key != prefix + name + ".zstd") ==>
              SameAt(after, objects, key))
  {
    var prefix := Normalize(path);
    var after := Uploaded(objects, prefix, local, names, rest);
    forall name | name in names
      ensures prefix + name + ".zstd" in after && after[prefix + name + ".zstd"] == Packed(local[name])
    {
      KeyForms(prefix, name);
      UploadedFile(objects, path, local, names, rest, name);
    }
    KeyForms(prefix, "");
    forall key | key != prefix + "manifest.json" && (forall name :: name in names ==> key != prefix + name + ".zstd")
      ensures SameAt(after, objects, key)
    {
      forall j | 0 <= j < |names| ensures key != FileKey(prefix, names[j]) {
        assert names[j] in names;
        KeyForms(prefix, names[j]);
      }
      FilesPutElsewhere(objects, prefix, local, names, |names|, key);
    }
  }

  predicate TwoDots(name: string) {
    exists i :: 0 <= i < |name| - 1 && name[i] == '.' && name[i + 1] == '.'
  }

  lemma {:induction false} ContainsTwoDots(name: string)
    ensures Contains(name, "..") <==> TwoDots(name)
  {
    if name != "" {
      ContainsTwoDots(name[1..]);
      if |name| >= 2 {
        assert name[..2] == [name[0], name[1]];
      }
      if TwoDots(name[1..]) {
        var i :| 0 <= i < |name[1..]| - 1 && name[1..][i] == '.' && name[1..][i + 1] == '.';
        assert name[i + 1] == '.' && name[i + 1 + 1] == '.';
      }
      if TwoDots(name) {
        var i :| 0 <= i < |name| - 1 && name[i] == '.' && name[i + 1] == '.';
        if i > 0 {
          assert name[1..][i - 1] == '.' && name[1..][i - 1 + 1] == '.';
        }
      }
    }
  }

  /** A name that stays in the directory. */
  predicate Plain(name: string) {
    name != "" && '/' !in name && !TwoDots(name)
  }

  /** A file a reader can have: its name is plain, and its object is there. */
  predicate Readable(objects: Objects, prefix: string, name: string) {
    Plain(name) && prefix + name + ".zstd" in objects && objects[prefix + name + ".zstd"].Packed?
  }

  lemma ReadableIff(objects: Objects, prefix: string, name: string)
    ensures Readable(objects, prefix, name) <==> FileThere(objects, prefix, name)
  {
    ContainsTwoDots(name);
    KeyForms(prefix, name);
  }

  /** A reader gets a snapshot exactly when the manifest is there, names a file, and every file it names can be
      had; then it gets the contents of those. */
  lemma FetchIs(objects: Objects, path: string)
    ensures var got, prefix := Fetch(objects, path), Normalize(path); var key := Normalize(prefix) + "manifest.json";
      && (got.Fetched? <==>
            && key in objects && objects[key].ManifestJson? && objects[key].manifest.files != []
            && forall name :: name in objects[key].manifest.files ==> Readable(objects, prefix, name))
      && (got.Fetched? ==>
            && got.manifest == objects[key].manifest
            && (forall name :: name in got.files <==> name in got.manifest.files)
            && forall name :: name in got.files ==> got.files[name] == objects[prefix + name + ".zstd"].content)
  {
    var prefix := Normalize(path);
    KeyForms(Normalize(prefix), "");
    forall name ensures Readable(objects, prefix, name) <==> FileThere(objects, prefix, name) {
      ReadableIff(objects, prefix, name);
    }
    forall name ensures FileKey(prefix, name) == prefix + name + ".zstd" {
      KeyForms(prefix, name);
    }
    hide Normalize, Readable, FileThere;
  }

  lemma {:induction false} GoneIff(prefix: string, files: seq<string>, deletes: nat -> Outcome, n: nat, key: string)
    requires n <= |files|
    ensures key in Gone(prefix, files, deletes, n) <==>
      exists i :: 0 <= i < n && ValidFileName(files[i]) && !deletes(i).Fails? && key == FileKey(prefix, files[i])
  {
    hide FileKey, ValidFileName;
    if n > 0 {
      GoneIff(prefix, files, deletes, n - 1, key);
    }
  }

  /** A delete goes by the names it is given, or else by the manifest if it can read one. Of these it removes
      the plain ones, and the manifest, whose own delete takes effect; no error keeps it from the rest. */
  lemma DeletedIs(objects: Objects, path: string, given: seq<string>, got: bool, deletes: nat -> Outcome)
    ensures var prefix := Normalize(path); var at := Normalize(prefix) + "manifest.json";
      var listed := if got && at in objects && objects[at].ManifestJson? then objects[at].manifest.files else [];
      var files := if given != [] then given else listed;
      forall key :: key in Deleted(objects, path, given, got, deletes) <==>
        || (key == prefix + "manifest.json" && !deletes(|files|).Fails?)
        || exists i :: 0 <= i < |files| && Plain(files[i]) && !deletes(i).Fails? && key == prefix + files[i] + ".zstd"
  {
    var prefix := Normalize(path);
    var files := NamesUsed(objects, path, given, got);
    KeyForms(prefix, "");
    KeyForms(Normalize(prefix), "");
    hide Normalize;
    forall i | 0 <= i < |files|
      ensures ValidFileName(files[i]) <==> Plain(files[i])
      ensures FileKey(prefix, files[i]) == prefix + files[i] + ".zstd"
    {
      ContainsTwoDots(files[i]);
      KeyForms(prefix, files[i]);
    }
    hide Plain, ValidFileName, FileKey;
    forall key
      ensures key in Gone(prefix, files, deletes, |files|) <==>
        exists i :: 0 <= i < |files| && Plain(files[i]) && !deletes(i).Fails? && key == prefix + files[i] + ".zstd"
    {
      GoneIff(prefix, files, deletes, |files|, key);
    }
    hide Gone;
  }
}
