/** internal/snapshotstore/store.go: the keys of a snapshot in object storage, and what an uploader, a
    reader and a deleter make of them. Compression and JSON are taken as exact inverses. */
module SnapshotLayout {
  import opened Base
  import opened GoStrings

  type Content = seq<byte>

  const MANIFEST_FILE := "manifest.json"
  const ZSTD := ".zstd"

  datatype Manifest = Manifest(files: seq<string>, rest: string)

  datatype Blob = Packed(content: Content) | ManifestJson(manifest: Manifest)

  type Objects = map<string, Blob>

  // ---------------------------------------------------------------- paths and names

  function Normalize(path: string): string {
    var p := TrimPrefix(TrimSpace(path), "/");
    if p != "" && !HasSuffix(p, "/") then p + "/" else p
  }

  predicate ValidFileName(name: string) {
    name != "" && '/' !in name && !Contains(name, "..")
  }

  /** A normal form is empty or ends with a slash. */
  predicate IsPrefix(p: string) {
    p == "" || p[|p| - 1] == '/'
  }

  lemma NormalizeIsPrefix(path: string)
    ensures IsPrefix(Normalize(path))
  {
    var p := TrimPrefix(TrimSpace(path), "/");
    if p != "" && HasSuffix(p, "/") {
      assert p[|p| - 1..] == "/";
      assert p[|p| - 1] == p[|p| - 1..][0];
    }
  }

  /** Normalizing is idempotent exactly on paths that, trimmed and without one leading slash, do not
      start with a slash or a space again. */
  lemma NormalizeStableIff(path: string)
    ensures var p := TrimPrefix(TrimSpace(path), "/");
      Normalize(Normalize(path)) == Normalize(path) <==> p == "" || (p[0] != '/' && !IsSpace(p[0]))
  {
    var p := TrimPrefix(TrimSpace(path), "/");
    var n := Normalize(path);
    NormalizeIsPrefix(path);
    if p != "" {
      assert n[0] == p[0];
      TrimSpaceFixed(n);
      assert !IsSpace('/');
      if p[0] != '/' && !IsSpace(p[0]) {
        assert !HasPrefix(n, "/") by { assert n[..1] == [n[0]]; }
        assert HasSuffix(n, "/") by { assert n[|n| - 1..] == [n[|n| - 1]]; }
      } else {
        NormalizeShrinks(n);
      }
    }
  }

  lemma SlashSuffix(p: string)
    ensures HasSuffix(p, "/") <==> p != "" && p[|p| - 1] == '/'
  {
    if p != "" {
      assert p[|p| - 1..] == [p[|p| - 1]];
    }
  }

  lemma SlashPrefix(p: string)
    ensures HasPrefix(p, "/") <==> p != "" && p[0] == '/'
  {
    if p != "" {
      assert p[..1] == [p[0]];
    }
  }

  /** Of a trimmed string that ends with a slash, normalizing removes a slash in front or nothing. */
  lemma NormalizeSlashed(n: string)
    requires TrimSpace(n) != "" && TrimSpace(n)[|TrimSpace(n)| - 1] == '/'
    ensures var t := TrimSpace(n); Normalize(n) == if t[0] == '/' then t[1..] else t
  {
    hide TrimSpace;
    var t := TrimSpace(n);
    SlashPrefix(t);
    SlashSuffix(t);
    if t[0] == '/' {
      SlashSuffix(t[1..]);
    }
  }

  lemma NormalizeShrinks(n: string)
    requires n != "" && n[|n| - 1] == '/' && (n[0] == '/' || IsSpace(n[0]))
    ensures Normalize(n) != n
  {
    TrimmedEnd(n);
    NormalizeSlashed(n);
    TrimSpaceShortens(n);
    assert !IsSpace('/');
    hide TrimSpace, Normalize, IsSpace;
    TrimSpaceFixed(n);
    assert |Normalize(n)| < |n|;
  }

  lemma TrimSpaceShortens(n: string)
    ensures |TrimSpace(n)| <= |n| && (n != "" && IsSpace(n[0]) ==> |TrimSpace(n)| < |n|)
  {
    TrimLeftFixed(n);
    TrimRightFixed(TrimLeft(n));
  }

  /** Trimming a string that ends with a slash only removes from the front. */
  lemma TrimmedEnd(n: string)
    requires n != "" && n[|n| - 1] == '/'
    ensures TrimSpace(n) != "" && TrimSpace(n)[|TrimSpace(n)| - 1] == '/'
  {
    assert !IsSpace('/');
    TrimLeftEnd(n);
    TrimRightFixed(TrimLeft(n));
  }

  lemma {:induction false} TrimLeftEnd(n: string)
    requires n != "" && n[|n| - 1] == '/'
    ensures TrimLeft(n) != "" && TrimLeft(n)[|TrimLeft(n)| - 1] == '/'
  {
    assert !IsSpace('/');
    if IsSpace(n[0]) {
      TrimLeftEnd(n[1..]);
    }
  }

  /** The path "//a" is normalized to "/a/", and that to "a/". */
  lemma NormalizeNotIdempotent()
    ensures Normalize("//a") == "/a/" && Normalize(Normalize("//a")) == "a/"
  {
    TrimSpaceFixed("//a");
    assert "//a"[..1] == "/" && "//a"[1..] == "/a" && "/a"[1..] == "a";
    TrimSpaceFixed("/a/");
    assert "/a/"[..1] == "/" && "/a/"[1..] == "a/" && "a/"[1..] == "/";
  }

  // ---------------------------------------------------------------- keys

  function FileKey(prefix: string, name: string): string {
    prefix + (name + ZSTD)
  }

  function ManifestKey(prefix: string): string {
    prefix + MANIFEST_FILE
  }

  /** Only a key without a name ends with a slash or is empty. */
  lemma LastOfKey(a: string, x: string)
    requires IsPrefix(a) && '/' !in x
    ensures IsPrefix(a + x) <==> x == ""
  {
    if x == "" {
      assert a + x == a;
    } else {
      assert (a + x)[|a + x| - 1] == x[|x| - 1] && x[|x| - 1] in x;
    }
  }

  /** A key splits in one way into a normal form and a part without slashes. */
  lemma {:induction false} KeySplit(a: string, x: string, b: string, y: string)
    requires IsPrefix(a) && IsPrefix(b) && '/' !in x && '/' !in y && a + x == b + y
    ensures a == b && x == y
    decreases |x|
  {
    var s := a + x;
    LastOfKey(a, x);
    LastOfKey(b, y);
    if x == "" {
      assert s == a && s == b;
    } else {
      var x', y' := x[..|x| - 1], y[..|y| - 1];
      assert (a + x)[..|s| - 1] == a + x' && (b + y)[..|s| - 1] == b + y';
      assert x[|x| - 1] == s[|s| - 1] == y[|y| - 1];
      KeySplit(a, x', b, y');
      assert x == x' + [x[|x| - 1]] && y == y' + [y[|y| - 1]];
    }
  }

  lemma FileKeysApart(a: string, x: string, b: string, y: string)
    requires IsPrefix(a) && IsPrefix(b) && '/' !in x && '/' !in y
    ensures FileKey(a, x) == FileKey(b, y) ==> a == b && x == y
    ensures FileKey(a, x) != ManifestKey(b)
    ensures ManifestKey(a) == ManifestKey(b) ==> a == b
  {
    if FileKey(a, x) == FileKey(b, y) {
      KeySplit(a, x + ZSTD, b, y + ZSTD);
      assert (x + ZSTD)[..|x|] == x && (y + ZSTD)[..|y|] == y;
    }
    assert FileKey(a, x)[|FileKey(a, x)| - 1] == 'd' && ManifestKey(b)[|ManifestKey(b)| - 1] == 'n';
    if ManifestKey(a) == ManifestKey(b) {
      KeySplit(a, MANIFEST_FILE, b, MANIFEST_FILE);
    }
  }
}
