/** Shared vocabulary: optional values, results, 32-bit identifiers and Go's string order. */
module Base {

  datatype Option<+T> = None | Some(value: T)

  type UID = string

  newtype byte = x | 0 <= x < 256

  /** Slot IDs are int32 in the source and unbounded here; see FitsInt32. */
  type SlotID = int

  predicate FitsInt32(x: int) {
    -0x8000_0000 <= x < 0x8000_0000
  }

  /** Go compares strings byte by byte; on UTF-8 that is the order of their code points. */
  predicate StrLess(a: string, b: string)
    decreases |a|
  {
    if b == "" then false
    else if a == "" then true
    else if a[0] != b[0] then a[0] < b[0]
    else StrLess(a[1..], b[1..])
  }

  /** The first place where the strings differ decides, and a proper prefix comes first. */
  ghost predicate FirstDifference(a: string, b: string, i: nat) {
    i <= |a| && i < |b| && a[..i] == b[..i] && (i == |a| || a[i] < b[i])
  }

  lemma {:induction false} StrLessIff(a: string, b: string)
    ensures StrLess(a, b) <==> exists i: nat :: FirstDifference(a, b, i)
    decreases |a|
  {
    if a != "" && b != "" && a[0] == b[0] {
      StrLessIff(a[1..], b[1..]);
      forall i: nat ensures FirstDifference(a[1..], b[1..], i) <==> FirstDifference(a, b, i + 1) {
        if i <= |a| - 1 && i < |b| - 1 {
          assert a[..i + 1] == [a[0]] + a[1..][..i] && b[..i + 1] == [b[0]] + b[1..][..i];
          assert a[1..][..i] == a[..i + 1][1..] && b[1..][..i] == b[..i + 1][1..];
        }
      }
      if i: nat :| FirstDifference(a, b, i) {
        assert i > 0 && FirstDifference(a[1..], b[1..], i - 1);
      }
    } else if StrLess(a, b) {
      assert FirstDifference(a, b, 0);
    } else {
      forall i: nat ensures !FirstDifference(a, b, i) {
        assert 0 < i <= |a| && i < |b| ==> a[..i][0] == a[0] && b[..i][0] == b[0];
      }
    }
  }

  lemma {:induction false} StrLessTransitive(a: string, b: string, c: string)
    requires StrLess(a, b) && StrLess(b, c)
    ensures StrLess(a, c)
    decreases |a|
  {
    if a != "" && a[0] == b[0] == c[0] {
      StrLessTransitive(a[1..], b[1..], c[1..]);
    }
  }

  /** Exactly one of a < b, a == b, b < a. */
  lemma {:induction false} StrLessTrichotomy(a: string, b: string)
    ensures a == b <==> !StrLess(a, b) && !StrLess(b, a)
    ensures !(StrLess(a, b) && StrLess(b, a))
    decreases |a|
  {
    if a != "" && b != "" && a[0] == b[0] {
      StrLessTrichotomy(a[1..], b[1..]);
      assert a == [a[0]] + a[1..] && b == [b[0]] + b[1..];
    }
  }

  /** An element of a set: Go ranges over a map in any order. */
  method Pick<T(==)>(s: set<T>) returns (x: T)
    requires s != {}
    ensures x in s
  {
    x :| x in s;
  }

  /** A finite set that covers 0, ..., n - 1 has at least n elements. */
  lemma {:induction false} Pigeonhole(s: set<int>, n: nat)
    requires forall i: int :: 0 <= i < n ==> i in s
    ensures n <= |s|
    decreases n
  {
    if n > 0 {
      Pigeonhole(s - {n - 1}, n - 1);
    }
  }
}
