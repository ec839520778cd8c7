/** The string operations that the repository relies on, most of them from Go's strings package. */
module GoStrings {
  import opened Base

  function FirstNonEmpty(a: string, b: string): string {
    if a != "" then a else b
  }

  predicate HasSuffix(s: string, suffix: string) {
    |suffix| <= |s| && s[|s| - |suffix|..] == suffix
  }

  function TrimSuffix(s: string, suffix: string): string {
    if HasSuffix(s, suffix) then s[..|s| - |suffix|] else s
  }

  /** unicode.IsSpace. */
  predicate IsSpace(c: char) {
    || c in {'\t', '\n', '\U{0B}', '\U{0C}', '\r', ' ', '\U{85}', '\U{A0}', '\U{1680}', '\U{2028}', '\U{2029}',
         '\U{202F}', '\U{205F}', '\U{3000}'}
    || '\U{2000}' <= c <= '\U{200A}'
  }

  function TrimLeft(s: string): string {
    if s != "" && IsSpace(s[0]) then TrimLeft(s[1..]) else s
  }

  function TrimRight(s: string): string {
    if s != "" && IsSpace(s[|s| - 1]) then TrimRight(s[..|s| - 1]) else s
  }

  function TrimSpace(s: string): string {
    TrimRight(TrimLeft(s))
  }

  lemma {:induction false} TrimLeftFixed(s: string)
    ensures |TrimLeft(s)| <= |s| && (s != "" && IsSpace(s[0]) ==> |TrimLeft(s)| < |s|)
    ensures TrimLeft(s) == s <==> s == "" || !IsSpace(s[0])
  {
    if s != "" && IsSpace(s[0]) {
      TrimLeftFixed(s[1..]);
    }
  }

  lemma {:induction false} TrimRightFixed(s: string)
    ensures |TrimRight(s)| <= |s| && (s != "" && IsSpace(s[|s| - 1]) ==> |TrimRight(s)| < |s|)
    ensures TrimRight(s) == s <==> s == "" || !IsSpace(s[|s| - 1])
  {
    if s != "" && IsSpace(s[|s| - 1]) {
      TrimRightFixed(s[..|s| - 1]);
    }
  }

  /** Trimming changes nothing exactly when there is no space at either end. */
  lemma TrimSpaceFixed(s: string)
    ensures TrimSpace(s) == s <==> s == "" || (!IsSpace(s[0]) && !IsSpace(s[|s| - 1]))
  {
    TrimLeftFixed(s);
    TrimRightFixed(TrimLeft(s));
  }

  predicate Blank(s: string) {
    forall i :: 0 <= i < |s| ==> IsSpace(s[i])
  }

  lemma {:induction false} TrimLeftOf(l: string, t: string)
    requires Blank(l) && (t == "" || !IsSpace(t[0]))
    ensures TrimLeft(l + t) == t
  {
    if l == "" {
      assert l + t == t;
    } else {
      assert (l + t)[1..] == l[1..] + t;
      TrimLeftOf(l[1..], t);
    }
  }

  lemma {:induction false} TrimRightOf(t: string, r: string)
    requires Blank(r) && (t == "" || !IsSpace(t[|t| - 1]))
    ensures TrimRight(t + r) == t
  {
    if r == "" {
      assert t + r == t;
    } else {
      assert (t + r)[..|t + r| - 1] == t + r[..|r| - 1];
      TrimRightOf(t, r[..|r| - 1]);
    }
  }

  /** Trimming takes the spaces off both ends and nothing else. */
  lemma TrimSpaceOf(l: string, m: string, r: string)
    requires Blank(l) && Blank(r) && (m == "" || (!IsSpace(m[0]) && !IsSpace(m[|m| - 1])))
    ensures TrimSpace(l + m + r) == m
  {
    if m == "" {
      assert l + m + r == (l + r) + "";
      TrimLeftOf(l + r, "");
    } else {
      assert l + m + r == l + (m + r);
      TrimLeftOf(l, m + r);
      TrimRightOf(m, r);
    }
  }

  lemma {:induction false} SpacesAround(s: string) returns (l: string, m: string, r: string)
    ensures s == l + m + r && Blank(l) && Blank(r) && (m == "" || (!IsSpace(m[0]) && !IsSpace(m[|m| - 1])))
    decreases |s|
  {
    if s == "" {
      l, m, r := "", "", "";
    } else if IsSpace(s[0]) {
      l, m, r := SpacesAround(s[1..]);
      l := [s[0]] + l;
    } else if IsSpace(s[|s| - 1]) {
      l, m, r := SpacesAround(s[..|s| - 1]);
      r := r + [s[|s| - 1]];
    } else {
      l, m, r := "", s, "";
    }
  }

  lemma BlankIff(s: string)
    ensures TrimSpace(s) == "" <==> Blank(s)
  {
    var l, m, r := SpacesAround(s);
    TrimSpaceOf(l, m, r);
    if m != "" {
      assert s[|l|] == m[0];
    }
  }

  predicate HasPrefix(s: string, prefix: string) {
    |prefix| <= |s| && s[..|prefix|] == prefix
  }

  function TrimPrefix(s: string, prefix: string): string {
    if HasPrefix(s, prefix) then s[|prefix|..] else s
  }

  predicate Contains(s: string, part: string) {
    HasPrefix(s, part) || (s != "" && Contains(s[1..], part))
  }

  // ---------------------------------------------------------------- lists of strings

  predicate NoRepeats(names: seq<string>) {
    forall i, j :: 0 <= i < j < |names| ==> names[i] != names[j]
  }

  predicate SortedStrings(s: seq<string>) {
    forall i, j :: 0 <= i < j < |s| ==> !StrLess(s[j], s[i])
  }

  function InsertString(x: string, s: seq<string>): seq<string> {
    if s == [] || StrLess(x, s[0]) then [x] + s else [s[0]] + InsertString(x, s[1..])
  }

  function SortStrings(s: seq<string>): seq<string> {
    if s == [] then [] else InsertString(s[0], SortStrings(s[1..]))
  }

  lemma {:induction false} InsertStringSorted(x: string, s: seq<string>)
    requires SortedStrings(s)
    ensures SortedStrings(InsertString(x, s)) && multiset(InsertString(x, s)) == multiset(s) + multiset{x}
  {
    if s == [] {
    } else if StrLess(x, s[0]) {
      StrLessTrichotomy(x, s[0]);
      forall j | 0 <= j < |s| ensures !StrLess(s[j], x) {
        StrLessTrichotomy(s[0], s[j]);
        if StrLess(s[j], x) { StrLessTransitive(s[j], x, s[0]); }
      }
    } else {
      assert s == [s[0]] + s[1..];
      InsertStringSorted(x, s[1..]);
      var rest := InsertString(x, s[1..]);
      forall y | y in rest ensures !StrLess(y, s[0]) {
        assert y in multiset(rest);
        if y != x { assert y in s[1..]; }
      }
    }
  }

  lemma {:induction false} SortStringsSorted(s: seq<string>)
    ensures SortedStrings(SortStrings(s)) && multiset(SortStrings(s)) == multiset(s)
  {
    if s != [] {
      SortStringsSorted(s[1..]);
      InsertStringSorted(s[0], SortStrings(s[1..]));
      assert s == [s[0]] + s[1..];
    }
  }

  lemma {:induction false} MultisetNoRepeats(s: seq<string>)
    requires forall x :: multiset(s)[x] <= 1
    ensures NoRepeats(s)
  {
    if s != [] {
      var front := s[..|s| - 1];
      assert s == front + [s[|s| - 1]];
      forall x ensures multiset(front)[x] <= 1 { assert multiset(s)[x] <= 1; }
      MultisetNoRepeats(front);
      assert multiset(s)[s[|s| - 1]] <= 1;
      assert s[|s| - 1] !in multiset(front);
    }
  }
}
