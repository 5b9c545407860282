/** Small shared vocabulary: optional values and facts about ascending sequences. */
module Common {

  datatype Option<+T> = None | Some(value: T)

  function Min(a: int, b: int): int { if a <= b then a else b }

  function Max(a: int, b: int): int { if a >= b then a else b }

  /** The consecutive numbers lo+1, lo+2, ..., hi. */
  function Span(lo: nat, hi: nat): (s: seq<nat>)
    ensures |s| == if lo <= hi then hi - lo else 0
    ensures forall i :: 0 <= i < |s| ==> s[i] == lo + 1 + i
  {
    if lo <= hi then seq(hi - lo, i requires 0 <= i => lo + 1 + i) else []
  }

  predicate Ascending(s: seq<nat>) {
    forall i, j :: 0 <= i < j < |s| ==> s[i] < s[j]
  }

  /** Every element of s lies in the half-open interval (lo, hi]. */
  predicate Within(s: seq<nat>, lo: nat, hi: nat) {
    forall i :: 0 <= i < |s| ==> lo < s[i] <= hi
  }

  /** Position i of an ascending sequence above lo is at least lo+1+i. */
  lemma {:induction false} AscendingFloor(s: seq<nat>, lo: nat, hi: nat, i: nat)
    requires Ascending(s) && Within(s, lo, hi) && i < |s|
    ensures s[i] >= lo + 1 + i
  {
    if i > 0 {
      AscendingFloor(s, lo, hi, i - 1);
    }
  }

  lemma AscendingLength(s: seq<nat>, lo: nat, hi: nat)
    requires lo <= hi && Ascending(s) && Within(s, lo, hi)
    ensures |s| <= hi - lo
  {
    if |s| > 0 {
      AscendingFloor(s, lo, hi, |s| - 1);
    }
  }

  /** An ascending sequence that covers a whole interval has no gap and no repeat. */
  lemma {:induction false} AscendingCoverIsSpan(s: seq<nat>, lo: nat, hi: nat)
    requires lo <= hi && Ascending(s) && Within(s, lo, hi)
    requires forall n :: lo < n <= hi ==> n in s
    ensures s == Span(lo, hi)
    decreases hi
  {
    if lo == hi {
      AscendingLength(s, lo, hi);
    } else {
      assert hi in s;
      var k :| 0 <= k < |s| && s[k] == hi;
      assert s[|s| - 1] <= hi;
      assert k == |s| - 1;
      var t := s[..k];
      assert forall n :: lo < n <= hi - 1 ==> n in t by {
        forall n: nat | lo < n <= hi - 1 ensures n in t {
          assert n in s;
          var j :| 0 <= j < |s| && s[j] == n;
          assert t[j] == n;
        }
      }
      AscendingCoverIsSpan(t, lo, hi - 1);
      assert s == t + [hi];
      assert Span(lo, hi) == Span(lo, hi - 1) + [hi];
    }
  }

  /** The position of the first occurrence of c, or the length if there is none. */
  function IndexOf(s: string, c: char): (i: nat)
    ensures i <= |s| && (forall j :: 0 <= j < i ==> s[j] != c) && (i < |s| ==> s[i] == c)
  {
    if s == [] || s[0] == c then 0 else 1 + IndexOf(s[1..], c)
  }

  lemma {:induction false} IndexOfSeparator(a: string, sep: char, b: string)
    requires sep !in a
    ensures IndexOf(a + [sep] + b, sep) == |a|
  {
    if a != [] {
      assert (a + [sep] + b)[1..] == a[1..] + [sep] + b;
      IndexOfSeparator(a[1..], sep, b);
    }
  }

  /** A string splits at its first separator in one way only. */
  lemma SplitUnique(a: string, b: string, c: string, d: string, sep: char)
    requires sep !in a && sep !in c && a + [sep] + b == c + [sep] + d
    ensures a == c && b == d
  {
    IndexOfSeparator(a, sep, b);
    IndexOfSeparator(c, sep, d);
    var whole := a + [sep] + b;
    assert a == whole[..|a|] && c == (c + [sep] + d)[..|c|];
    assert b == whole[|a| + 1..] && d == (c + [sep] + d)[|c| + 1..];
  }
}
