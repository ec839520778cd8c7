/** internal/snapshotter/gvisor_image_linux.go: printing a list of overlay lower directories with
    escapes, and splitting such a value again. */
module OverlayLowerdir {
  import opened Base

  // ---------------------------------------------------------------- printing

  /** strings.ReplaceAll of one character. */
  function ReplaceAll(s: string, c: char, with: string): string {
    if s == "" then "" else (if s[0] == c then with else [s[0]]) + ReplaceAll(s[1..], c, with)
  }

  /** A backslash before a character that means something in a mount option. */
  function EscapeChar(c: char): string {
    if c in {'\\', ':', ','} then ['\\', c] else [c]
  }

  function Escape(s: string): string {
    if s == "" then "" else EscapeChar(s[0]) + Escape(s[1..])
  }

  function Join(parts: seq<string>): string {
    if parts == [] then "" else if |parts| == 1 then parts[0] else parts[0] + ":" + Join(parts[1..])
  }

  function EscapeAll(paths: seq<string>): seq<string> {
    seq(|paths|, i requires 0 <= i < |paths| => Escape(paths[i]))
  }

  /** The value of the lowerdir option. */
  function Render(paths: seq<string>): string {
    Join(EscapeAll(paths))
  }

  lemma {:induction false} ReplaceAllConcat(a: string, b: string, c: char, with: string)
    ensures ReplaceAll(a + b, c, with) == ReplaceAll(a, c, with) + ReplaceAll(b, c, with)
  {
    if a == "" {
      assert a + b == b;
    } else {
      assert (a + b)[1..] == a[1..] + b;
      ReplaceAllConcat(a[1..], b, c, with);
    }
  }

  function ThreePasses(s: string): string {
    ReplaceAll(ReplaceAll(ReplaceAll(s, '\\', "\\\\"), ':', "\\:"), ',', "\\,")
  }

  lemma OneCharacter(c: char)
    ensures ThreePasses([c]) == EscapeChar(c)
  {
    ReplaceOne(c, '\\', "\\\\");
    ReplaceOne(c, ':', "\\:");
    ReplaceOne(c, ',', "\\,");
    ReplacePair('\\', c, ':', "\\:");
    ReplacePair('\\', c, ',', "\\,");
  }

  lemma ReplaceOne(x: char, c: char, with: string)
    ensures ReplaceAll([x], c, with) == if x == c then with else [x]
  {
    assert [x][1..] == "" && with + "" == with;
  }

  lemma ReplacePair(x: char, y: char, c: char, with: string)
    requires x != c
    ensures ReplaceAll([x, y], c, with) == [x] + if y == c then with else [y]
  {
    assert [x, y][1..] == [y];
    ReplaceOne(y, c, with);
  }

  /** The three passes one after the other come to one character-wise escape: no pass touches what an
      earlier one put in. */
  lemma {:induction false} ThreePassesEscape(s: string)
    ensures ThreePasses(s) == Escape(s)
  {
    if s != "" {
      assert s == [s[0]] + s[1..];
      ReplaceAllConcat([s[0]], s[1..], '\\', "\\\\");
      var a, b := ReplaceAll([s[0]], '\\', "\\\\"), ReplaceAll(s[1..], '\\', "\\\\");
      ReplaceAllConcat(a, b, ':', "\\:");
      ReplaceAllConcat(ReplaceAll(a, ':', "\\:"), ReplaceAll(b, ':', "\\:"), ',', "\\,");
      OneCharacter(s[0]);
      ThreePassesEscape(s[1..]);
    }
  }

  method Joined(parts: array<string>) returns (v: string)
    ensures v == Join(parts[..])
  {
    v := "";
    var i := parts.Length;
    while i > 0
      invariant 0 <= i <= parts.Length && v == Join(parts[i..])
    {
      i := i - 1;
      assert parts[i..][1..] == parts[i + 1..];
      v := if i + 1 == parts.Length then parts[i] else parts[i] + ":" + v;
    }
    assert parts[0..] == parts[..];
  }

  /** Escapes each path in place, pass by pass, and joins them. */
  method LowerdirOption(lowers: seq<string>) returns (v: string)
    ensures v == Render(lowers)
  {
    var escaped := new string[|lowers|](i => "");
    for i := 0 to |lowers|
      invariant forall j :: 0 <= j < i ==> escaped[j] == Escape(lowers[j])
    {
      escaped[i] := ReplaceAll(lowers[i], '\\', "\\\\");
      escaped[i] := ReplaceAll(escaped[i], ':', "\\:");
      escaped[i] := ReplaceAll(escaped[i], ',', "\\,");
      ThreePassesEscape(lowers[i]);
    }
    assert escaped[..] == EscapeAll(lowers);
    v := Joined(escaped);
  }

  // ---------------------------------------------------------------- splitting

  /** The splitter in the middle of a value. */
  datatype Scanner = Scanner(out: seq<string>, current: string, escaped: bool)

  const START := Scanner([], "", false)

  function Advance(s: Scanner, r: char): Scanner {
    if s.escaped then Scanner(s.out, s.current + [r], false)
    else if r == '\\' then s.(escaped := true)
    else if r == ':' then Scanner(s.out + [s.current], "", false)
    else s.(current := s.current + [r])
  }

  function Scan(s: Scanner, v: string): Scanner
    decreases |v|
  {
    if v == "" then s else Scan(Advance(s, v[0]), v[1..])
  }

  function Split(v: string): seq<string> {
    var s := Scan(START, v);
    if s.current != "" || (v != "" && v[|v| - 1] == ':') then s.out + [s.current] else s.out
  }

  method SplitOverlayLowerdirs(v: string) returns (out: seq<string>)
    ensures out == Split(v)
  {
    out := [];
    var b := "";
    var escaped := false;
    for i := 0 to |v|
      invariant Scan(Scanner(out, b, escaped), v[i..]) == Scan(START, v)
    {
      var r := v[i];
      assert v[i..][0] == r && v[i..][1..] == v[i + 1..];
      if escaped {
        b := b + [r];
        escaped := false;
        continue;
      }
      if r == '\\' {
        escaped := true;
        continue;
      }
      if r == ':' {
        out := out + [b];
        b := "";
        continue;
      }
      b := b + [r];
    }
    assert v[|v|..] == "";
    if |b| > 0 || (v != "" && v[|v| - 1] == ':') {
      out := out + [b];
    }
  }

  // ---------------------------------------------------------------- round trip

  lemma ScanCons(s: Scanner, c: char, t: string)
    ensures Scan(s, [c] + t) == Scan(Advance(s, c), t)
  {
    assert ([c] + t)[1..] == t;
  }

  lemma ScanOneEscaped(s: Scanner, c: char, t: string)
    requires !s.escaped
    ensures Scan(s, EscapeChar(c) + t) == Scan(s.(current := s.current + [c]), t)
  {
    if c in {'\\', ':', ','} {
      assert ['\\', c] + t == ['\\'] + ([c] + t);
      ScanCons(s, '\\', [c] + t);
      ScanCons(s.(escaped := true), c, t);
    } else {
      ScanCons(s, c, t);
    }
  }

  lemma AppendFront(a: string, path: string)
    requires path != ""
    ensures a + [path[0]] + path[1..] == a + path
  {
  }

  lemma EscapedFront(path: string, rest: string)
    requires path != ""
    ensures Escape(path) + rest == EscapeChar(path[0]) + (Escape(path[1..]) + rest)
  {
  }

  lemma ScanNothing(s: Scanner, path: string, rest: string)
    requires path == ""
    ensures Scan(s, Escape(path) + rest) == Scan(s.(current := s.current + path), rest)
  {
    assert s.current + path == s.current && Escape(path) + rest == rest;
  }

  /** Scanning an escaped path adds the path itself. */
  lemma {:induction false} ScanEscaped(s: Scanner, path: string, rest: string)
    requires !s.escaped
    ensures Scan(s, Escape(path) + rest) == Scan(s.(current := s.current + path), rest)
    decreases |path|
  {
    if path == "" {
      ScanNothing(s, path, rest);
    } else {
      var c, tail := path[0], path[1..];
      hide Scan, Escape, EscapeChar;
      EscapedFront(path, rest);
      ScanOneEscaped(s, c, Escape(tail) + rest);
      ScanEscaped(s.(current := s.current + [c]), tail, rest);
      AppendFront(s.current, path);
    }
  }

  lemma {:induction false} ScanRendered(out: seq<string>, paths: seq<string>)
    requires paths != []
    ensures Scan(Scanner(out, "", false), Render(paths)) ==
      Scanner(out + paths[..|paths| - 1], paths[|paths| - 1], false)
    decreases |paths|
  {
    var parts := EscapeAll(paths);
    var s := Scanner(out, "", false);
    if |paths| == 1 {
      assert Render(paths) == Escape(paths[0]) + "";
      ScanEscaped(s, paths[0], "");
      assert "" + paths[0] == paths[0] && out + [] == out;
    } else {
      assert parts[1..] == EscapeAll(paths[1..]);
      var rest := ":" + Render(paths[1..]);
      assert Render(paths) == Escape(paths[0]) + rest;
      ScanEscaped(s, paths[0], rest);
      assert rest[0] == ':' && rest[1..] == Render(paths[1..]);
      assert "" + paths[0] == paths[0];
      ScanRendered(out + [paths[0]], paths[1..]);
      assert out + [paths[0]] + paths[1..][..|paths| - 2] == out + paths[..|paths| - 1];
    }
  }

  lemma {:induction false} RenderedEnd(paths: seq<string>)
    requires |paths| > 1 && paths[|paths| - 1] == ""
    ensures Render(paths) != "" && Render(paths)[|Render(paths)| - 1] == ':'
    decreases |paths|
  {
    var parts := EscapeAll(paths);
    assert parts[1..] == EscapeAll(paths[1..]);
    assert Render(paths) == Escape(paths[0]) + ":" + Render(paths[1..]);
    if |paths| == 2 {
      assert Render(paths[1..]) == "";
    } else {
      RenderedEnd(paths[1..]);
    }
  }

  /** Splitting inverts printing for every list of paths but the one that holds a single empty path. */
  lemma SplitInvertsRender(paths: seq<string>)
    ensures Split(Render(paths)) == paths <==> paths != [""]
  {
    var v := Render(paths);
    if paths != [] {
      ScanRendered([], paths);
      var last := paths[|paths| - 1];
      assert [] + paths[..|paths| - 1] + [last] == paths;
      if last == "" {
        if |paths| > 1 {
          RenderedEnd(paths);
        } else {
          assert paths == [""];
          assert Escape("") == "" && v == "";
        }
      } else {
        assert paths != [""];
      }
    }
  }

  // ---------------------------------------------------------------- what the kernel sees

  /** How often `c` occurs without a backslash before it that is not itself escaped. */
  function Bare(s: string, c: char): nat {
    if s == "" then 0
    else if s[0] == '\\' then if |s| == 1 then 0 else Bare(s[2..], c)
    else Bare(s[1..], c) + if s[0] == c then 1 else 0
  }

  lemma {:induction false} EscapedIsNotBare(path: string, rest: string, c: char)
    requires c in {':', ','}
    ensures Bare(Escape(path) + rest, c) == Bare(rest, c)
  {
    if path == "" {
      assert Escape(path) + rest == rest;
    } else {
      EscapedFront(path, rest);
      EscapedIsNotBare(path[1..], rest, c);
      var tail := Escape(path[1..]) + rest;
      var v := EscapeChar(path[0]) + tail;
      if path[0] in {'\\', ':', ','} {
        assert v[0] == '\\' && v[2..] == tail;
      } else {
        assert v[0] == path[0] && v[1..] == tail;
      }
    }
  }

  /** Nothing in a path ends the mount option or adds a directory: the value has no bare comma, and one bare
      colon less than paths. */
  lemma {:induction false} RenderedSeparators(paths: seq<string>)
    requires paths != []
    ensures Bare(Render(paths), ',') == 0 && Bare(Render(paths), ':') == |paths| - 1
    decreases |paths|
  {
    if |paths| == 1 {
      assert Render(paths) == Escape(paths[0]) + "";
      EscapedIsNotBare(paths[0], "", ',');
      EscapedIsNotBare(paths[0], "", ':');
    } else {
      assert EscapeAll(paths)[1..] == EscapeAll(paths[1..]);
      var rest := ":" + Render(paths[1..]);
      assert Render(paths) == Escape(paths[0]) + rest;
      assert rest[1..] == Render(paths[1..]);
      RenderedSeparators(paths[1..]);
      EscapedIsNotBare(paths[0], rest, ',');
      EscapedIsNotBare(paths[0], rest, ':');
    }
  }
}
