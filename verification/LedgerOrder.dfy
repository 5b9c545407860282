/**
 The verifier gathers a ledger's rows file by file, in no fixed order, and lists the
 first ten that are missing as examples. Exactly when that list is the same in every
 order: of the rows, and of the files as the verifier visits them.
 */
module LedgerOrder {
  import opened Sorting
  import opened Reconcile

  // --------------------------------------------------------------------- any order

  /** The expected identifiers that were not seen, with their number. */
  ghost function Unseen(expected: multiset<string>, seen: multiset<string>): (r: multiset<string>)
    ensures forall id :: r[id] == if id in seen then 0 else expected[id]
    decreases |expected|
  {
    if id :| id in expected && id in seen then Unseen(expected[id := 0], seen) else expected
  }

  /** All missing identifiers fit among the examples, or they are all the same. */
  ghost predicate Settled(unseen: multiset<string>) {
    |unseen| <= EXAMPLES || forall p, q :: p in unseen && q in unseen ==> p == q
  }

  lemma MissingIsUnseen(expected: seq<string>, seen: multiset<string>)
    ensures multiset(Missing(expected, seen)) == Unseen(multiset(expected), seen)
    ensures |Missing(expected, seen)| == |Unseen(multiset(expected), seen)|
  {
    MissingOnes(expected, seen);
    var m := Missing(expected, seen);
    forall id ensures multiset(m)[id] == Unseen(multiset(expected), seen)[id] {
      if id in seen {
        assert multiset(m)[id] == 0;
      }
    }
    assert multiset(m) == Unseen(multiset(expected), seen);
    assert |m| == |multiset(m)|;
  }

  /** The elements of the examples. */
  ghost function Shown(expected: seq<string>, seen: multiset<string>): multiset<string> {
    multiset(FirstOf(Missing(expected, seen), EXAMPLES))
  }

  lemma SameShown(a: seq<string>, b: seq<string>, seen: multiset<string>)
    requires multiset(a) == multiset(b)
    ensures GapOf(a, seen) == GapOf(b, seen) <==> Shown(a, seen) == Shown(b, seen)
  {
    CountsIgnoreOrder(a, b, seen);
    if GapOf(a, seen) == GapOf(b, seen) {
      assert multiset(GapOf(a, seen).examples) == Shown(a, seen) && multiset(GapOf(b, seen).examples) == Shown(b, seen);
    }
  }

  lemma {:induction false} AllOne(s: seq<string>, p: string)
    requires forall id :: id in s ==> id == p
    ensures multiset(s)[p] == |s| && forall id :: id != p ==> multiset(s)[id] == 0
  {
    if s != [] {
      assert s == [s[0]] + s[1..];
      forall id | id in s[1..] ensures id == p {
        assert id in s;
      }
      AllOne(s[1..], p);
      assert s[0] in s;
    }
  }

  /** The first ten of more than ten copies. */
  lemma FirstOfOne(s: seq<string>, p: string)
    requires |s| > EXAMPLES && forall id :: id in multiset(s) ==> id == p
    ensures multiset(FirstOf(s, EXAMPLES))[p] == EXAMPLES
    ensures forall id :: id != p ==> multiset(FirstOf(s, EXAMPLES))[id] == 0
  {
    forall id | id in s[..EXAMPLES] ensures id == p {
      assert id in s && id in multiset(s);
    }
    AllOne(s[..EXAMPLES], p);
  }

  lemma ShownOfOne(a: seq<string>, b: seq<string>, p: string)
    requires |a| > EXAMPLES && |b| > EXAMPLES
    requires (forall id :: id in multiset(a) ==> id == p) && (forall id :: id in multiset(b) ==> id == p)
    ensures multiset(FirstOf(a, EXAMPLES)) == multiset(FirstOf(b, EXAMPLES))
  {
    FirstOfOne(a, p);
    FirstOfOne(b, p);
    var x, y := multiset(FirstOf(a, EXAMPLES)), multiset(FirstOf(b, EXAMPLES));
    assert forall id :: x[id] == y[id];
  }

  lemma SettledShown(a: seq<string>, b: seq<string>, seen: multiset<string>)
    requires multiset(a) == multiset(b) && Settled(Unseen(multiset(a), seen))
    ensures Shown(a, seen) == Shown(b, seen)
  {
    MissingIsUnseen(a, seen);
    MissingIsUnseen(b, seen);
    var m, n := Missing(a, seen), Missing(b, seen);
    if |m| > EXAMPLES {
      assert m[0] in multiset(m);
      ShownOfOne(m, n, m[0]);
    }
  }

  lemma {:induction false} MissingAppend(a: seq<string>, b: seq<string>, seen: multiset<string>)
    ensures Missing(a + b, seen) == Missing(a, seen) + Missing(b, seen)
  {
    if b == [] {
      assert a + b == a;
    } else {
      var front := b[..|b| - 1];
      MissingAppend(a, front, seen);
      assert (a + b)[..|a + b| - 1] == a + front;
    }
  }

  lemma {:induction false} NoneSeen(s: seq<string>, seen: multiset<string>)
    requires forall id :: id in s ==> id !in seen
    ensures Missing(s, seen) == s
  {
    if s != [] {
      NoneSeen(s[..|s| - 1], seen);
      assert s == s[..|s| - 1] + [s[|s| - 1]];
    }
  }

  lemma {:induction false} AllSeen(s: seq<string>, seen: multiset<string>)
    requires forall id :: id in s ==> id in seen
    ensures Missing(s, seen) == []
  {
    if s != [] {
      AllSeen(s[..|s| - 1], seen);
    }
  }

  lemma InOrder(unseen: seq<string>, rest: seq<string>, seen: multiset<string>)
    requires forall id :: id in unseen ==> id !in seen
    requires forall id :: id in rest ==> id in seen
    ensures Missing(unseen + rest, seen) == unseen
  {
    MissingAppend(unseen, rest, seen);
    NoneSeen(unseen, seen);
    AllSeen(rest, seen);
  }

  /** With two different identifiers among more than ten, two orders show different
      examples: one of the two comes tenth, and then the other. */
  lemma TwoOrders(expected: multiset<string>, seen: multiset<string>) returns (a: seq<string>, b: seq<string>)
    requires !Settled(Unseen(expected, seen))
    ensures multiset(a) == multiset(b) == expected && Shown(a, seen) != Shown(b, seen)
  {
    var unseen := Unseen(expected, seen);
    var p, q :| p in unseen && q in unseen && p != q;
    var head, tail := NineAndRest(unseen, p, q);
    var rest := SortedOf(expected - unseen);
    var x, y := head + [p] + [q] + tail, head + [q] + [p] + tail;
    a, b := x + rest, y + rest;
    SplitOrder(expected, seen, x, rest);
    SplitOrder(expected, seen, y, rest);
    TenthDiffers(head, p, q, tail);
  }

  lemma NineAndRest(unseen: multiset<string>, p: string, q: string) returns (head: seq<string>, tail: seq<string>)
    requires |unseen| > EXAMPLES && p in unseen && q in unseen && p != q
    ensures |head| == EXAMPLES - 1
    ensures multiset(head + [p] + [q] + tail) == unseen == multiset(head + [q] + [p] + tail)
  {
    var others := SortedOf(unseen - multiset{p} - multiset{q});
    assert |others| == |multiset(others)| == |unseen| - 2;
    head, tail := others[..EXAMPLES - 1], others[EXAMPLES - 1..];
    assert others == head + tail;
    assert multiset(others) + multiset{p} + multiset{q} == unseen;
  }

  lemma SplitOrder(expected: multiset<string>, seen: multiset<string>, x: seq<string>, rest: seq<string>)
    requires multiset(x) == Unseen(expected, seen) && multiset(rest) == expected - Unseen(expected, seen)
    ensures multiset(x + rest) == expected && Missing(x + rest, seen) == x
  {
    forall id | id in x ensures id !in seen {
      assert id in multiset(x);
    }
    forall id | id in rest ensures id in seen {
      assert id in multiset(rest);
    }
    InOrder(x, rest, seen);
  }

  lemma TenthDiffers(head: seq<string>, p: string, q: string, tail: seq<string>)
    requires |head| == EXAMPLES - 1 && p != q
    ensures var x, y := head + [p] + [q] + tail, head + [q] + [p] + tail;
            multiset(FirstOf(x, EXAMPLES)) != multiset(FirstOf(y, EXAMPLES))
  {
    var x, y := head + [p] + [q] + tail, head + [q] + [p] + tail;
    assert x[..EXAMPLES] == head + [p] && y[..EXAMPLES] == head + [q];
    assert multiset(head + [p])[p] == multiset(head)[p] + 1 && multiset(head + [q])[p] == multiset(head)[p];
  }

  /** The gap is the same in every order of the expected rows exactly when at most
      ten of them were not seen, or all of those are the same identifier. */
  lemma OrderMatters(expected: seq<string>, seen: multiset<string>)
    ensures (forall other :: multiset(other) == multiset(expected) ==> GapOf(other, seen) == GapOf(expected, seen))
       <==> Settled(Unseen(multiset(expected), seen))
  {
    if Settled(Unseen(multiset(expected), seen)) {
      forall other | multiset(other) == multiset(expected) ensures GapOf(other, seen) == GapOf(expected, seen) {
        SettledShown(expected, other, seen);
        SameShown(expected, other, seen);
      }
    } else {
      var a, b := TwoOrders(multiset(expected), seen);
      SameShown(a, b, seen);
    }
  }

  // ----------------------------------------------------------------- order of files

  /** The missing rows of some files, file by file. */
  ghost function MissingOf(book: Book, files: seq<string>, seen: multiset<string>): seq<string> {
    Missing(Gather(book, files), seen)
  }

  function Room(n: nat): nat { if n >= EXAMPLES then 0 else EXAMPLES - n }

  /** Which of two files comes first shows in the examples, after some others. */
  ghost predicate Interchangeable(book: Book, seen: multiset<string>, before: seq<string>, f: string, g: string) {
    var room := Room(|MissingOf(book, before, seen)|);
    multiset(FirstOf(MissingOf(book, [f, g], seen), room)) == multiset(FirstOf(MissingOf(book, [g, f], seen), room))
  }

  lemma FirstOfJoin(a: seq<string>, b: seq<string>, n: nat)
    ensures FirstOf(a + b, n) == FirstOf(a, n) + FirstOf(b, if |a| >= n then 0 else n - |a|)
  {
  }

  lemma MissingJoin(book: Book, a: seq<string>, b: seq<string>, seen: multiset<string>)
    ensures MissingOf(book, a + b, seen) == MissingOf(book, a, seen) + MissingOf(book, b, seen)
  {
    GatherAppend(book, a, b);
    MissingAppend(Gather(book, a), Gather(book, b), seen);
  }

  lemma FirstOfThree(one: seq<string>, two: seq<string>, three: seq<string>)
    ensures FirstOf(one + two + three, EXAMPLES)
         == FirstOf(one, EXAMPLES) + FirstOf(two, Room(|one|)) + FirstOf(three, Room(|one| + |two|))
  {
    FirstOfJoin(one + two, three, EXAMPLES);
    FirstOfJoin(one, two, EXAMPLES);
  }

  lemma ThreeBags(a: seq<string>, b: seq<string>, c: seq<string>)
    ensures multiset(a + b + c) == multiset(a) + multiset(b) + multiset(c)
  {
  }

  /** What the first ten are made of, around two neighbouring files. */
  lemma ShownParts(book: Book, seen: multiset<string>, before: seq<string>, f: string, g: string, after: seq<string>)
    ensures var ten := Shown(Gather(book, before + [f, g] + after), seen);
            var one, two := MissingOf(book, before, seen), MissingOf(book, [f, g], seen);
            var three := MissingOf(book, after, seen);
            ten == multiset(FirstOf(one, EXAMPLES)) + multiset(FirstOf(two, Room(|one|)))
                   + multiset(FirstOf(three, Room(|one| + |two|)))
  {
    var one, two := MissingOf(book, before, seen), MissingOf(book, [f, g], seen);
    var three := MissingOf(book, after, seen);
    MissingJoin(book, before + [f, g], after, seen);
    MissingJoin(book, before, [f, g], seen);
    FirstOfThree(one, two, three);
    ThreeBags(FirstOf(one, EXAMPLES), FirstOf(two, Room(|one|)), FirstOf(three, Room(|one| + |two|)));
  }

  lemma TwoFiles(book: Book, seen: multiset<string>, f: string, g: string)
    ensures multiset(Gather(book, [f, g])) == multiset(Gather(book, [g, f]))
    ensures |MissingOf(book, [f, g], seen)| == |MissingOf(book, [g, f], seen)|
  {
    GatherAppend(book, [f], [g]);
    GatherAppend(book, [g], [f]);
    assert [f] + [g] == [f, g] && [g] + [f] == [g, f];
    CountsIgnoreOrder(Gather(book, [f, g]), Gather(book, [g, f]), seen);
    assert |MissingOf(book, [f, g], seen)| == |multiset(MissingOf(book, [f, g], seen))|;
  }

  lemma SwapShown(book: Book, seen: multiset<string>, before: seq<string>, f: string, g: string, after: seq<string>)
    ensures Shown(Gather(book, before + [f, g] + after), seen) == Shown(Gather(book, before + [g, f] + after), seen)
       <==> Interchangeable(book, seen, before, f, g)
  {
    ShownParts(book, seen, before, f, g, after);
    ShownParts(book, seen, before, g, f, after);
    TwoFiles(book, seen, f, g);
    var one, three := MissingOf(book, before, seen), MissingOf(book, after, seen);
    var fg, gf := MissingOf(book, [f, g], seen), MissingOf(book, [g, f], seen);
    SameMiddle(multiset(FirstOf(one, EXAMPLES)), multiset(FirstOf(fg, Room(|one|))), multiset(FirstOf(gf, Room(|one|))),
               multiset(FirstOf(three, Room(|one| + |fg|))));
  }

  lemma SameMiddle(a: multiset<string>, b: multiset<string>, c: multiset<string>, d: multiset<string>)
    ensures a + b + d == a + c + d <==> b == c
  {
    if a + b + d == a + c + d {
      forall id ensures b[id] == c[id] {
        assert (a + b + d)[id] == (a + c + d)[id];
      }
    }
  }

  lemma SwapRows(book: Book, before: seq<string>, f: string, g: string, after: seq<string>)
    ensures multiset(Gather(book, before + [f, g] + after)) == multiset(Gather(book, before + [g, f] + after))
  {
    TwoFiles(book, multiset{}, f, g);
    GatherAppend(book, before + [f, g], after);
    GatherAppend(book, before + [g, f], after);
    GatherAppend(book, before, [f, g]);
    GatherAppend(book, before, [g, f]);
  }

  /** Any two neighbours can change places unseen, wherever they come in an order. */
  ghost predicate AllInterchangeable(book: Book, seen: multiset<string>) {
    forall before, f, g :: multiset(before) + multiset{f, g} <= multiset(book.Keys) ==>
      Interchangeable(book, seen, before, f, g)
  }

  // Orders in general: a result that no exchange of neighbours changes.

  ghost predicate SwapHidden<T(!new)>(result: seq<string> -> T, all: multiset<string>,
                                      before: seq<string>, f: string, g: string, after: seq<string>)
  {
    multiset(before + [f, g] + after) == all ==> result(before + [f, g] + after) == result(before + [g, f] + after)
  }

  ghost predicate SwapsHidden<T(!new)>(result: seq<string> -> T, all: multiset<string>) {
    forall before, f, g, after :: SwapHidden(result, all, before, f, g, after)
  }

  lemma {:induction false} ToFront<T(!new)>(result: seq<string> -> T, all: multiset<string>,
                                            before: seq<string>, files: seq<string>, i: nat)
    requires SwapsHidden(result, all) && multiset(before + files) == all && i < |files|
    ensures result(before + files) == result(before + ([files[i]] + (files[..i] + files[i + 1..])))
    decreases i
  {
    if i == 0 {
      assert [files[0]] + (files[..0] + files[1..]) == files;
    } else {
      var next := files[..i - 1] + [files[i], files[i - 1]] + files[i + 1..];
      SwapBack(result, all, before, files, i);
      NextWithout(files, i);
      ToFront(result, all, before, next, i - 1);
    }
  }

  lemma SwapBack<T(!new)>(result: seq<string> -> T, all: multiset<string>, before: seq<string>,
                          files: seq<string>, i: nat)
    requires SwapsHidden(result, all) && multiset(before + files) == all && 0 < i < |files|
    ensures var next := files[..i - 1] + [files[i], files[i - 1]] + files[i + 1..];
            result(before + next) == result(before + files) && multiset(before + next) == all
  {
    Neighbours(before, files, i);
    assert SwapHidden(result, all, before + files[..i - 1], files[i - 1], files[i], files[i + 1..]);
  }

  lemma NextWithout(files: seq<string>, i: nat)
    requires 0 < i < |files|
    ensures var next := files[..i - 1] + [files[i], files[i - 1]] + files[i + 1..];
            && next[i - 1] == files[i]
            && next[..i - 1] + next[i - 1 + 1..] == files[..i] + files[i + 1..]
  {
    var next := files[..i - 1] + [files[i], files[i - 1]] + files[i + 1..];
    assert next[..i - 1] == files[..i - 1];
    assert next[i - 1 + 1..] == [files[i - 1]] + files[i + 1..];
    assert files[..i] == files[..i - 1] + [files[i - 1]];
  }

  lemma Neighbours(before: seq<string>, files: seq<string>, i: nat)
    requires 0 < i < |files|
    ensures var head, tail := files[..i - 1], files[i + 1..];
            && before + files == (before + head) + [files[i - 1], files[i]] + tail
            && before + (head + [files[i], files[i - 1]] + tail) == (before + head) + [files[i], files[i - 1]] + tail
            && multiset(before + (head + [files[i], files[i - 1]] + tail)) == multiset(before + files)
  {
    var head, tail := files[..i - 1], files[i + 1..];
    assert files == head + [files[i - 1], files[i]] + tail;
  }

  lemma {:induction false} AnyOrder<T(!new)>(result: seq<string> -> T, all: multiset<string>,
                                             before: seq<string>, a: seq<string>, b: seq<string>)
    requires SwapsHidden(result, all) && multiset(before + a) == all && multiset(a) == multiset(b)
    ensures result(before + a) == result(before + b)
    decreases |a|
  {
    if a == [] {
      assert |b| == |multiset(b)| == 0;
    } else {
      assert a[0] in multiset(b);
      var i :| 0 <= i < |b| && b[i] == a[0];
      Taken(before, a, b, i);
      ToFront(result, all, before, b, i);
      AnyOrder(result, all, before + [a[0]], a[1..], b[..i] + b[i + 1..]);
    }
  }

  lemma FromTheStart<T(!new)>(result: seq<string> -> T, all: multiset<string>, a: seq<string>, b: seq<string>)
    requires SwapsHidden(result, all) && multiset(a) == all == multiset(b)
    ensures result(a) == result(b)
  {
    assert [] + a == a && [] + b == b;
    AnyOrder(result, all, [], a, b);
  }

  lemma Taken(before: seq<string>, a: seq<string>, b: seq<string>, i: nat)
    requires a != [] && multiset(a) == multiset(b) && i < |b| && b[i] == a[0]
    ensures var rest := b[..i] + b[i + 1..];
            && multiset(before + b) == multiset(before + a) == multiset((before + [a[0]]) + a[1..])
            && multiset(a[1..]) == multiset(rest)
            && before + a == (before + [a[0]]) + a[1..]
            && before + ([b[i]] + rest) == (before + [a[0]]) + rest
  {
    TakenBags(a, b, i);
    SameBags(before, a, b);
    FirstMoved(before, a);
    assert before + ([b[i]] + (b[..i] + b[i + 1..])) == (before + [a[0]]) + (b[..i] + b[i + 1..]);
  }

  lemma FirstMoved(before: seq<string>, a: seq<string>)
    requires a != []
    ensures before + a == (before + [a[0]]) + a[1..]
  {
  }

  lemma SameBags(before: seq<string>, a: seq<string>, b: seq<string>)
    requires multiset(a) == multiset(b)
    ensures multiset(before + a) == multiset(before + b)
  {
  }

  lemma TakenBags(a: seq<string>, b: seq<string>, i: nat)
    requires a != [] && multiset(a) == multiset(b) && i < |b| && b[i] == a[0]
    ensures multiset(a[1..]) == multiset(b[..i] + b[i + 1..])
  {
    WithoutOne(a, 0);
    WithoutOne(b, i);
    assert a[..0] + a[1..] == a[1..];
  }

  ghost function GapBy(book: Book, seen: multiset<string>): seq<string> -> Gap {
    files => GapOf(Gather(book, files), seen)
  }

  lemma GapSwaps(book: Book, seen: multiset<string>, before: seq<string>, f: string, g: string, after: seq<string>)
    requires Interchangeable(book, seen, before, f, g)
    ensures GapOf(Gather(book, before + [f, g] + after), seen) == GapOf(Gather(book, before + [g, f] + after), seen)
  {
    SwapShown(book, seen, before, f, g, after);
    SwapRows(book, before, f, g, after);
    SameShown(Gather(book, before + [f, g] + after), Gather(book, before + [g, f] + after), seen);
  }

  lemma OutcomeSwaps(book: Book, seen: multiset<string>)
    requires AllInterchangeable(book, seen)
    ensures SwapsHidden(GapBy(book, seen), multiset(book.Keys))
  {
    forall before, f, g, after ensures SwapHidden(GapBy(book, seen), multiset(book.Keys), before, f, g, after) {
      if multiset(before + [f, g] + after) == multiset(book.Keys) {
        assert multiset(before) + multiset{f, g} <= multiset(before + [f, g] + after);
        GapSwaps(book, seen, before, f, g, after);
      }
    }
  }

  ghost predicate OrderHidden(book: Book, seen: multiset<string>) {
    forall a, b :: Visits(book, a) && Visits(book, b) ==> SameGap(book, seen, a, b)
  }

  ghost predicate SameGap(book: Book, seen: multiset<string>, a: seq<string>, b: seq<string>) {
    GapOf(Gather(book, a), seen) == GapOf(Gather(book, b), seen)
  }

  lemma HiddenBySwaps(book: Book, seen: multiset<string>)
    requires SwapsHidden(GapBy(book, seen), multiset(book.Keys))
    ensures OrderHidden(book, seen)
  {
    forall a, b | Visits(book, a) && Visits(book, b)
      ensures SameGap(book, seen, a, b)
    {
      HiddenByOrder(book, seen, a, b);
    }
  }

  lemma HiddenByOrder(book: Book, seen: multiset<string>, a: seq<string>, b: seq<string>)
    requires SwapsHidden(GapBy(book, seen), multiset(book.Keys)) && Visits(book, a) && Visits(book, b)
    ensures SameGap(book, seen, a, b)
  {
    FromTheStart(GapBy(book, seen), multiset(book.Keys), a, b);
    assert GapBy(book, seen)(a) == GapBy(book, seen)(b);
  }

  lemma SwapsByHidden(book: Book, seen: multiset<string>, before: seq<string>, f: string, g: string)
    requires OrderHidden(book, seen) && multiset(before) + multiset{f, g} <= multiset(book.Keys)
    ensures Interchangeable(book, seen, before, f, g)
  {
    var after := Remaining(book, before, f, g);
    HiddenPair(book, seen, before + [f, g] + after, before + [g, f] + after) by {
      SwapRows(book, before, f, g, after);
    }
    SwapShown(book, seen, before, f, g, after);
  }

  lemma HiddenPair(book: Book, seen: multiset<string>, a: seq<string>, b: seq<string>)
    requires OrderHidden(book, seen) && Visits(book, a) && Visits(book, b)
    requires multiset(Gather(book, a)) == multiset(Gather(book, b))
    ensures Shown(Gather(book, a), seen) == Shown(Gather(book, b), seen)
  {
    assert SameGap(book, seen, a, b);
    SameShown(Gather(book, a), Gather(book, b), seen);
  }

  lemma Remaining(book: Book, before: seq<string>, f: string, g: string) returns (after: seq<string>)
    requires multiset(before) + multiset{f, g} <= multiset(book.Keys)
    ensures Visits(book, before + [f, g] + after) && Visits(book, before + [g, f] + after)
  {
    var all, some := multiset(book.Keys), multiset(before) + multiset{f, g};
    after := SortedOf(all - some);
    assert multiset(before + [f, g] + after) == some + (all - some) == all;
    assert multiset(before + [g, f] + after) == some + (all - some);
  }

  lemma TwoGathered(book: Book, f: string, g: string)
    requires f in book && g in book
    ensures Gather(book, [f, g]) == book[f] + book[g]
  {
    assert [f, g][1..] == [g] && [g][1..] == [];
    assert Gather(book, [g]) == book[g] + [];
  }

  lemma AllInterchangeableExactly(book: Book, seen: multiset<string>)
    ensures OrderHidden(book, seen) <==> AllInterchangeable(book, seen)
  {
    if AllInterchangeable(book, seen) {
      OutcomeSwaps(book, seen);
      HiddenBySwaps(book, seen);
    }
    if OrderHidden(book, seen) {
      forall before, f, g | multiset(before) + multiset{f, g} <= multiset(book.Keys)
        ensures Interchangeable(book, seen, before, f, g)
      {
        SwapsByHidden(book, seen, before, f, g);
      }
    }
  }

  // The same without going through orders: only how many missing rows come before two
  // files matters, and that is the sum of the counts of some of the other files.

  /** The sums of any of the numbers. */
  function Sums(counts: seq<nat>): set<nat> {
    if counts == [] then {0}
    else Sums(counts[1..]) + set n | n in Sums(counts[1..]) :: n + counts[0]
  }

  ghost function CountOf(book: Book, file: string, seen: multiset<string>): nat { |MissingOf(book, [file], seen)| }

  ghost function Counts(book: Book, files: seq<string>, seen: multiset<string>): seq<nat> {
    if files == [] then [] else [CountOf(book, files[0], seen)] + Counts(book, files[1..], seen)
  }

  ghost function Others(book: Book, f: string, g: string): seq<string> { SortedOf(multiset(book.Keys - {f, g})) }

  /** Two blocks of missing rows fill the room that is left alike in either order. */
  ghost predicate BlocksAgree(a: seq<string>, b: seq<string>, room: nat) {
    multiset(FirstOf(a + b, room)) == multiset(FirstOf(b + a, room))
  }

  /** Any two files fill alike whatever room some of the others leave. */
  ghost predicate RoomsAgree(book: Book, seen: multiset<string>) {
    forall f, g, n :: f in book && g in book && f != g && n in Sums(Counts(book, Others(book, f, g), seen)) ==>
      BlocksAgree(Missing(book[f], seen), Missing(book[g], seen), Room(n))
  }

  lemma BlocksAreFiles(book: Book, seen: multiset<string>, before: seq<string>, f: string, g: string)
    requires f in book && g in book
    ensures Interchangeable(book, seen, before, f, g)
       <==> BlocksAgree(Missing(book[f], seen), Missing(book[g], seen), Room(|MissingOf(book, before, seen)|))
  {
    TwoGathered(book, f, g);
    TwoGathered(book, g, f);
    MissingAppend(book[f], book[g], seen);
    MissingAppend(book[g], book[f], seen);
  }

  lemma CountsJoin(book: Book, a: seq<string>, file: string, b: seq<string>, seen: multiset<string>)
    ensures |MissingOf(book, a + [file] + b, seen)| == |MissingOf(book, a + b, seen)| + CountOf(book, file, seen)
  {
    MissingJoin(book, a + [file], b, seen);
    MissingJoin(book, a, [file], seen);
    MissingJoin(book, a, b, seen);
  }

  lemma {:induction false} SumOfSome(book: Book, seen: multiset<string>, all: seq<string>, some: seq<string>)
    requires multiset(some) <= multiset(all)
    ensures |MissingOf(book, some, seen)| in Sums(Counts(book, all, seen))
    decreases |all|
  {
    if all == [] {
      NothingOfNothing(some);
    } else {
      var counts := Counts(book, all, seen);
      assert counts[1..] == Counts(book, all[1..], seen);
      if i :| 0 <= i < |some| && some[i] == all[0] {
        var rest := some[..i] + some[i + 1..];
        OneLess(some, all, i);
        SumOfSome(book, seen, all[1..], rest);
        CountsJoin(book, some[..i], all[0], some[i + 1..], seen);
        assert some == some[..i] + [all[0]] + some[i + 1..];
      } else {
        NotTheFirst(some, all);
        SumOfSome(book, seen, all[1..], some);
      }
    }
  }

  lemma NothingOfNothing(some: seq<string>)
    requires multiset(some) <= multiset([])
    ensures some == []
  {
    assert multiset(some) == multiset{} && |multiset(some)| == |some|;
  }

  lemma OneLess(some: seq<string>, all: seq<string>, i: nat)
    requires all != [] && i < |some| && some[i] == all[0] && multiset(some) <= multiset(all)
    ensures multiset(some[..i] + some[i + 1..]) <= multiset(all[1..])
  {
    WithoutOne(some, i);
    WithoutOne(all, 0);
    assert all[..0] + all[1..] == all[1..];
  }

  lemma NotTheFirst(some: seq<string>, all: seq<string>)
    requires all != [] && all[0] !in some && multiset(some) <= multiset(all)
    ensures multiset(some) <= multiset(all[1..])
  {
    WithoutOne(all, 0);
    assert all[..0] + all[1..] == all[1..];
    assert all[0] !in multiset(some);
  }

  lemma OneMore(some: seq<string>, all: seq<string>)
    requires all != []
    ensures multiset(some) <= multiset(all[1..]) ==>
              multiset(some) <= multiset(all) && multiset([all[0]] + some) <= multiset(all)
  {
    assert all == [all[0]] + all[1..];
  }

  lemma CountsWithFirst(book: Book, file: string, some: seq<string>, seen: multiset<string>)
    ensures |MissingOf(book, [file] + some, seen)| == |MissingOf(book, some, seen)| + CountOf(book, file, seen)
  {
    MissingJoin(book, [file], some, seen);
  }

  lemma {:induction false} SomeOfSum(book: Book, seen: multiset<string>, all: seq<string>, n: nat)
      returns (some: seq<string>)
    requires n in Sums(Counts(book, all, seen))
    ensures multiset(some) <= multiset(all) && |MissingOf(book, some, seen)| == n
    decreases |all|
  {
    if all == [] {
      some := [];
    } else {
      var counts := Counts(book, all, seen);
      assert counts[1..] == Counts(book, all[1..], seen);
      if n in Sums(counts[1..]) {
        some := SomeOfSum(book, seen, all[1..], n);
        OneMore(some, all);
      } else {
        some := SomeOfSum(book, seen, all[1..], n - counts[0]);
        CountsWithFirst(book, all[0], some, seen);
        OneMore(some, all);
        some := [all[0]] + some;
      }
    }
  }

  lemma OthersFit(book: Book, f: string, g: string, before: seq<string>)
    requires f in book && g in book && f != g
    ensures multiset(before) + multiset{f, g} <= multiset(book.Keys)
       <==> multiset(before) <= multiset(Others(book, f, g))
  {
    var all := multiset(book.Keys);
    assert multiset(book.Keys - {f, g}) == all - multiset{f, g};
  }

  lemma TwoKeys(book: Book, f: string, g: string, before: seq<string>)
    requires multiset(before) + multiset{f, g} <= multiset(book.Keys)
    ensures f in book && g in book && f != g
  {
    var some := multiset(before) + multiset{f, g};
    assert some[f] >= 1 && some[g] >= 1 && (f == g ==> some[f] >= 2);
  }

  lemma InterchangeableByRooms(book: Book, seen: multiset<string>, before: seq<string>, f: string, g: string)
    requires RoomsAgree(book, seen) && multiset(before) + multiset{f, g} <= multiset(book.Keys)
    ensures Interchangeable(book, seen, before, f, g)
  {
    TwoKeys(book, f, g, before);
    OthersFit(book, f, g, before);
    SumOfSome(book, seen, Others(book, f, g), before);
    BlocksAreFiles(book, seen, before, f, g);
  }

  lemma RoomsByInterchangeable(book: Book, seen: multiset<string>, f: string, g: string, n: nat)
    requires AllInterchangeable(book, seen) && f in book && g in book && f != g
    requires n in Sums(Counts(book, Others(book, f, g), seen))
    ensures BlocksAgree(Missing(book[f], seen), Missing(book[g], seen), Room(n))
  {
    var before := SomeOfSum(book, seen, Others(book, f, g), n);
    OthersFit(book, f, g, before);
    BlocksAreFiles(book, seen, before, f, g);
  }

  /** The gap is the same in every order of the files exactly when any two files fill
      alike whatever room some of the others, counted by their missing rows, leave. */
  lemma FileOrderMatters(book: Book, seen: multiset<string>)
    ensures OrderHidden(book, seen) <==> RoomsAgree(book, seen)
  {
    AllInterchangeableExactly(book, seen);
    if RoomsAgree(book, seen) {
      forall before, f, g | multiset(before) + multiset{f, g} <= multiset(book.Keys)
        ensures Interchangeable(book, seen, before, f, g)
      {
        InterchangeableByRooms(book, seen, before, f, g);
      }
    }
    if AllInterchangeable(book, seen) {
      forall f, g, n | f in book && g in book && f != g && n in Sums(Counts(book, Others(book, f, g), seen))
        ensures BlocksAgree(Missing(book[f], seen), Missing(book[g], seen), Room(n))
      {
        RoomsByInterchangeable(book, seen, f, g, n);
      }
    }
  }

  /** It does matter: a file with ten copies of one missing row, and a file with
      another, show that other or do not. */
  lemma TwoFilesDiffer(f: string, g: string, a: string, b: string)
    requires f != g && a != b
    ensures var book := map[f := seq(EXAMPLES, i => a), g := [b]];
            && Visits(book, [f, g]) && Visits(book, [g, f])
            && b !in GapOf(Gather(book, [f, g]), multiset{}).examples
            && b in GapOf(Gather(book, [g, f]), multiset{}).examples
  {
    var ten := seq(EXAMPLES, i => a);
    var book := map[f := ten, g := [b]];
    assert book.Keys == {f, g};
    TwoGathered(book, f, g);
    TwoGathered(book, g, f);
    TenBeforeOne(ten, a, b);
    OneBeforeTen(ten, b);
  }

  lemma TenBeforeOne(ten: seq<string>, a: string, b: string)
    requires |ten| == EXAMPLES && a != b && forall i :: 0 <= i < |ten| ==> ten[i] == a
    ensures b !in GapOf(ten + [b], multiset{}).examples
  {
    NoneSeen(ten + [b], multiset{});
    assert (ten + [b])[..EXAMPLES] == ten;
    assert b !in multiset(ten);
    assert multiset(GapOf(ten + [b], multiset{}).examples) == multiset(ten);
    assert b !in multiset(GapOf(ten + [b], multiset{}).examples);
  }

  lemma OneBeforeTen(ten: seq<string>, b: string)
    requires |ten| == EXAMPLES
    ensures b in GapOf([b] + ten, multiset{}).examples
  {
    NoneSeen([b] + ten, multiset{});
    var first := ([b] + ten)[..EXAMPLES];
    assert first[0] == b && b in multiset(first);
    assert multiset(GapOf([b] + ten, multiset{}).examples) == multiset(first);
    assert b in multiset(GapOf([b] + ten, multiset{}).examples);
  }
}
