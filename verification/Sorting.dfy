/** Sorted lists of strings: a list's sorted form depends on its elements alone. */
module Sorting {

  /** Lexicographic order. */
  predicate Precedes(a: string, b: string) {
    a == "" || (b != "" && (a[0] < b[0] || (a[0] == b[0] && Precedes(a[1..], b[1..]))))
  }

  /** One string comes before another if the other continues it, or if it has the lesser
      character where they first differ. */
  lemma {:induction false} PrecedesExactly(a: string, b: string)
    ensures Precedes(a, b) <==>
              a <= b || exists i :: 0 <= i < |a| && i < |b| && a[..i] == b[..i] && a[i] < b[i]
  {
    if a != "" && b != "" {
      assert a == [a[0]] + a[1..] && b == [b[0]] + b[1..];
      PrecedesExactly(a[1..], b[1..]);
      if a[0] == b[0] {
        if i :| 0 <= i < |a| && i < |b| && a[..i] == b[..i] && a[i] < b[i] {
          assert i > 0 && a[1..][..i - 1] == a[..i][1..] && b[1..][..i - 1] == b[..i][1..];
        }
        if i :| 0 <= i < |a| - 1 && i < |b| - 1 && a[1..][..i] == b[1..][..i] && a[1..][i] < b[1..][i] {
          assert a[..i + 1] == [a[0]] + a[1..][..i] && b[..i + 1] == [b[0]] + b[1..][..i];
          assert a[i + 1] < b[i + 1];
        }
      } else if a[0] < b[0] {
        assert a[..0] == b[..0] && a[0] < b[0];
      } else {
        FirstDiffers(a, b);
      }
    }
  }

  lemma FirstDiffers(a: string, b: string)
    requires a != "" && b != "" && a[0] > b[0]
    ensures !(a <= b) && forall i :: 0 <= i < |a| && i < |b| && a[..i] == b[..i] ==> a[i] >= b[i]
  {
    forall i | 0 < i < |a| && i < |b| ensures a[..i] != b[..i] {
      assert a[..i][0] == a[0] && b[..i][0] == b[0];
    }
  }

  lemma {:induction false} Total(a: string, b: string)
    ensures Precedes(a, b) || Precedes(b, a)
  {
    if a != "" && b != "" && a[0] == b[0] {
      Total(a[1..], b[1..]);
    }
  }

  lemma {:induction false} Antisymmetric(a: string, b: string)
    requires Precedes(a, b) && Precedes(b, a)
    ensures a == b
  {
    if a != "" {
      Antisymmetric(a[1..], b[1..]);
      assert a == [a[0]] + a[1..] && b == [b[0]] + b[1..];
    }
  }

  lemma {:induction false} Transitive(a: string, b: string, c: string)
    requires Precedes(a, b) && Precedes(b, c)
    ensures Precedes(a, c)
  {
    if a != "" && a[0] == b[0] == c[0] {
      Transitive(a[1..], b[1..], c[1..]);
    }
  }

  predicate Sorted(s: seq<string>) {
    forall i, j :: 0 <= i < j < |s| ==> Precedes(s[i], s[j])
  }

  lemma HeadsAgree(a: seq<string>, b: seq<string>)
    requires Sorted(a) && Sorted(b) && multiset(a) == multiset(b) && a != [] && b != []
    ensures a[0] == b[0]
  {
    assert a[0] in multiset(b) && b[0] in multiset(a);
    var i :| 0 <= i < |b| && b[i] == a[0];
    var j :| 0 <= j < |a| && a[j] == b[0];
    if a[0] != b[0] {
      Antisymmetric(a[0], b[0]);
    }
  }

  lemma TailElements(a: seq<string>)
    requires a != []
    ensures multiset(a[1..]) == multiset(a) - multiset{a[0]}
  {
    assert a == [a[0]] + a[1..];
  }

  lemma {:induction false} SortedUnique(a: seq<string>, b: seq<string>)
    requires Sorted(a) && Sorted(b) && multiset(a) == multiset(b)
    ensures a == b
  {
    assert |a| == |multiset(a)| == |multiset(b)| == |b|;
    if a != [] {
      HeadsAgree(a, b);
      TailElements(a);
      TailElements(b);
      SortedUnique(a[1..], b[1..]);
      assert a == [a[0]] + a[1..] && b == [b[0]] + b[1..];
    }
  }

  function Insert(s: seq<string>, x: string): (r: seq<string>) {
    if s == [] || Precedes(x, s[0]) then [x] + s else [s[0]] + Insert(s[1..], x)
  }

  lemma {:induction false} InsertSorts(s: seq<string>, x: string)
    requires Sorted(s)
    ensures Sorted(Insert(s, x)) && multiset(Insert(s, x)) == multiset(s) + multiset{x}
  {
    if s == [] || Precedes(x, s[0]) {
      forall k | 0 <= k < |s| ensures Precedes(x, s[k]) {
        if k > 0 {
          Transitive(x, s[0], s[k]);
        }
      }
    } else {
      Total(x, s[0]);
      InsertSorts(s[1..], x);
      assert s == [s[0]] + s[1..];
      HeadFirst(s[0], s[1..], x, Insert(s[1..], x));
    }
  }

  lemma HeadFirst(head: string, tail: seq<string>, x: string, t: seq<string>)
    requires Precedes(head, x) && Sorted([head] + tail) && multiset(t) == multiset(tail) + multiset{x}
    requires Sorted(t)
    ensures Sorted([head] + t)
  {
    forall k | 0 <= k < |t| ensures Precedes(head, t[k]) {
      assert t[k] in multiset(t);
      if t[k] != x {
        assert t[k] in multiset(tail);
        var i :| 0 <= i < |tail| && tail[i] == t[k];
        assert ([head] + tail)[0] == head && ([head] + tail)[i + 1] == t[k];
      }
    }
  }

  function Sort(s: seq<string>): seq<string> {
    if s == [] then [] else Insert(Sort(s[1..]), s[0])
  }

  lemma {:induction false} SortSorts(s: seq<string>)
    ensures Sorted(Sort(s)) && multiset(Sort(s)) == multiset(s)
  {
    if s != [] {
      SortSorts(s[1..]);
      InsertSorts(Sort(s[1..]), s[0]);
      assert s == [s[0]] + s[1..];
    }
  }

  lemma {:induction false} SortedExists(m: multiset<string>) returns (q: seq<string>)
    ensures Sorted(q) && multiset(q) == m
    decreases |m|
  {
    if m == multiset{} {
      q := [];
    } else {
      var x :| x in m;
      var rest := SortedExists(m - multiset{x});
      InsertSorts(rest, x);
      q := Insert(rest, x);
    }
  }

  /** The one sorted list with the given elements. */
  ghost function SortedOf(m: multiset<string>): (q: seq<string>)
    ensures Sorted(q) && multiset(q) == m
  {
    assert exists q :: Sorted(q) && multiset(q) == m by {
      var q := SortedExists(m);
    }
    var q :| Sorted(q) && multiset(q) == m;
    q
  }

  lemma SortIsSortedOf(s: seq<string>)
    ensures Sort(s) == SortedOf(multiset(s))
  {
    SortSorts(s);
    SortedUnique(Sort(s), SortedOf(multiset(s)));
  }

  lemma WithoutOne(s: seq<string>, i: nat)
    requires i < |s|
    ensures multiset(s[..i] + s[i + 1..]) == multiset(s) - multiset{s[i]}
  {
    assert s == s[..i] + [s[i]] + s[i + 1..];
  }
}
