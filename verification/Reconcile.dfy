/** Comparing what was archived with the ledger of what was sent. */
module Reconcile {
  import opened Common
  import opened Sorting
  import opened Encode
  import opened Verify
  import opened Verifying

  // ----------------------------------------------------------------- one ledger

  datatype Gap = Gap(expected: nat, archived: nat, missing: nat, duplicates: int, examples: seq<string>)

  const EXAMPLES := 10

  function Missing(expected: seq<string>, seen: multiset<string>): seq<string> {
    if expected == [] then []
    else
      var id := expected[|expected| - 1];
      Missing(expected[..|expected| - 1], seen) + if id in seen then [] else [id]
  }

  function Distinct(seen: multiset<string>): set<string> { set id | id in seen }

  function FirstOf(s: seq<string>, n: nat): seq<string> { if |s| <= n then s else s[..n] }

  ghost function GapOf(expected: seq<string>, seen: multiset<string>): Gap {
    Gap(|expected|, |Distinct(seen)|, |Missing(expected, seen)|, |seen| - |Distinct(seen)|,
        SortedOf(multiset(FirstOf(Missing(expected, seen), EXAMPLES))))
  }

  lemma {:induction false} DistinctIsFewer(seen: multiset<string>)
    ensures |Distinct(seen)| <= |seen|
    decreases |seen|
  {
    if seen != multiset{} {
      var id :| id in seen;
      var rest := seen[id := 0];
      DistinctIsFewer(rest);
      assert Distinct(seen) == Distinct(rest) + {id};
    }
  }

  /** Counts the gap between the expected identifiers and those seen; each seen
      identifier is visited once, in any order. */
  method Compare(expected: seq<string>, seen: multiset<string>) returns (g: Gap)
    ensures g == GapOf(expected, seen)
  {
    var missing, examples := CountMissing(expected, seen);
    var duplicates := CountDuplicates(seen);
    SortIsSortedOf(examples);
    g := Gap(|expected|, |Distinct(seen)|, missing, duplicates, Sort(examples));
  }

  method CountMissing(expected: seq<string>, seen: multiset<string>) returns (missing: nat, examples: seq<string>)
    ensures missing == |Missing(expected, seen)| && examples == FirstOf(Missing(expected, seen), EXAMPLES)
  {
    missing, examples := 0, [];
    for i := 0 to |expected|
      invariant missing == |Missing(expected[..i], seen)|
      invariant examples == FirstOf(Missing(expected[..i], seen), EXAMPLES)
    {
      assert expected[..i + 1][..i] == expected[..i];
      if expected[i] !in seen {
        missing := missing + 1;
        if |examples| < EXAMPLES {
          examples := examples + [expected[i]];
        }
      }
    }
    assert expected[..|expected|] == expected;
  }

  method CountDuplicates(seen: multiset<string>) returns (duplicates: nat)
    ensures duplicates + |Distinct(seen)| == |seen|
  {
    duplicates := 0;
    var left := seen;
    while left != multiset{}
      invariant duplicates + |left| + |Distinct(seen)| == |seen| + |Distinct(left)|
      invariant forall id :: id in left ==> left[id] == seen[id]
      decreases |left|
    {
      var id :| id in left;
      if seen[id] > 1 {
        duplicates := duplicates + (seen[id] - 1);
      }
      assert Distinct(left) == Distinct(left[id := 0]) + {id};
      left := left[id := 0];
    }
  }

  lemma {:induction false} MissingOnes(expected: seq<string>, seen: multiset<string>)
    ensures forall id :: id in Missing(expected, seen) <==> id in expected && id !in seen
    ensures forall id :: id !in seen ==> multiset(Missing(expected, seen))[id] == multiset(expected)[id]
    ensures forall id :: id in seen ==> multiset(Missing(expected, seen))[id] == 0
  {
    if expected != [] {
      var front, last := expected[..|expected| - 1], expected[|expected| - 1];
      MissingOnes(front, seen);
      assert expected == front + [last];
    }
  }

  /** Nothing is missing exactly when every expected identifier was seen, and every
      record seen is either the first with its identifier or a duplicate. */
  lemma GapAccounts(expected: seq<string>, seen: multiset<string>)
    ensures GapOf(expected, seen).missing == 0 <==> forall id :: id in expected ==> id in seen
    ensures GapOf(expected, seen).archived + GapOf(expected, seen).duplicates == |seen|
    ensures GapOf(expected, seen).duplicates >= 0
  {
    DistinctIsFewer(seen);
    MissingOnes(expected, seen);
    if id :| id in expected && id !in seen {
      assert id in Missing(expected, seen);
    }
    if Missing(expected, seen) != [] {
      assert Missing(expected, seen)[0] in expected;
    }
  }

  /** The rows, by position, whose identifier was not seen. */
  ghost predicate UnseenRows(expected: seq<string>, seen: multiset<string>, rows: seq<nat>) {
    && Ascending(rows) && (forall i :: i in rows ==> i < |expected|)
    && forall i :: 0 <= i < |expected| ==> (i in rows <==> expected[i] !in seen)
  }

  lemma UnseenBefore(expected: seq<string>, seen: multiset<string>, rows: seq<nat>)
    requires expected != [] && UnseenRows(expected, seen, rows)
    ensures var n := |expected| - 1;
            if expected[n] in seen then UnseenRows(expected[..n], seen, rows)
            else rows != [] && rows[|rows| - 1] == n && UnseenRows(expected[..n], seen, rows[..|rows| - 1])
  {
    var n := |expected| - 1;
    if expected[n] in seen {
      assert n !in rows;
    } else {
      assert n in rows;
      var k :| 0 <= k < |rows| && rows[k] == n;
      assert rows[|rows| - 1] in rows && k == |rows| - 1;
      var front := rows[..|rows| - 1];
      assert rows == front + [n];
      assert forall i :: i in front ==> i in rows && i < n;
    }
  }

  lemma {:induction false} AscendingFits(rows: seq<nat>, n: nat)
    requires Ascending(rows) && forall i :: i in rows ==> i < n
    ensures |rows| <= n
    decreases |rows|
  {
    if rows != [] {
      var front, last := rows[..|rows| - 1], rows[|rows| - 1];
      assert last in rows;
      AscendingFits(front, last);
    }
  }

  /** The identifiers of some rows. */
  predicate ReadsAt(expected: seq<string>, rows: seq<nat>, ids: seq<string>) {
    |ids| == |rows| && forall k :: 0 <= k < |ids| ==> rows[k] < |expected| && ids[k] == expected[rows[k]]
  }

  lemma ReadsMore(front: seq<string>, id: string, rows: seq<nat>, ids: seq<string>)
    requires ReadsAt(front, rows, ids)
    ensures ReadsAt(front + [id], rows, ids) && ReadsAt(front + [id], rows + [|front|], ids + [id])
  {
  }

  lemma ReadsOn(expected: seq<string>, seen: multiset<string>, before: seq<nat>, rows: seq<nat>)
    requires expected != []
    requires ReadsAt(expected[..|expected| - 1], before, Missing(expected[..|expected| - 1], seen))
    requires rows == before + if expected[|expected| - 1] in seen then [] else [|expected| - 1]
    ensures ReadsAt(expected, rows, Missing(expected, seen))
  {
    var front, last := expected[..|expected| - 1], expected[|expected| - 1];
    assert expected == front + [last];
    ReadsMore(front, last, before, Missing(front, seen));
  }

  lemma {:induction false} MissingAt(expected: seq<string>, seen: multiset<string>, rows: seq<nat>)
    requires UnseenRows(expected, seen, rows)
    ensures ReadsAt(expected, rows, Missing(expected, seen))
    decreases |expected|
  {
    if expected == [] {
      AscendingFits(rows, 0);
    } else {
      UnseenBefore(expected, seen, rows);
      var before := if expected[|expected| - 1] in seen then rows else rows[..|rows| - 1];
      MissingAt(expected[..|expected| - 1], seen, before);
      ReadsOn(expected, seen, before, rows);
    }
  }

  /** What a gap reports: every unseen row counts, repeated or not; the examples are the
      first ten of them in the ledger's order, sorted; each seen identifier counts once as
      archived, and its other records as duplicates. */
  lemma GapTells(expected: seq<string>, seen: multiset<string>, rows: seq<nat>)
    requires UnseenRows(expected, seen, rows)
    ensures var g := GapOf(expected, seen);
            && g.expected == |expected| && g.missing == |rows|
            && g.archived == |set id | id in seen| && g.archived + g.duplicates == |seen|
    ensures exists first: seq<string> ::
              FirstTen(expected, rows, first) && multiset(GapOf(expected, seen).examples) == multiset(first)
    ensures Sorted(GapOf(expected, seen).examples)
  {
    MissingAt(expected, seen, rows);
    assert Distinct(seen) == set id | id in seen;
    var first := FirstOf(Missing(expected, seen), EXAMPLES);
    assert FirstTen(expected, rows, first);
    assert multiset(GapOf(expected, seen).examples) == multiset(first);
  }

  predicate FirstTen(expected: seq<string>, rows: seq<nat>, ids: seq<string>) {
    && |ids| == (if |rows| < 10 then |rows| else 10)
    && forall k :: 0 <= k < |ids| ==> rows[k] < |expected| && ids[k] == expected[rows[k]]
  }

  /** The order of the expected identifiers changes no count. */
  lemma CountsIgnoreOrder(a: seq<string>, b: seq<string>, seen: multiset<string>)
    requires multiset(a) == multiset(b)
    ensures multiset(Missing(a, seen)) == multiset(Missing(b, seen))
    ensures GapOf(a, seen).(examples := []) == GapOf(b, seen).(examples := [])
  {
    MissingOnes(a, seen);
    MissingOnes(b, seen);
    var m, n := Missing(a, seen), Missing(b, seen);
    forall id ensures multiset(m)[id] == multiset(n)[id] {
      if id in seen {
        assert multiset(m)[id] == 0;
      }
    }
    assert multiset(m) == multiset(n);
    assert |m| == |multiset(m)| == |n|;
    assert |a| == |multiset(a)| == |b|;
  }

  // ------------------------------------------------------------ the whole ledger

  type Book = map<string, seq<string>>

  datatype Ledger = Ledger(streams: Book, eventLogFiles: Book, custom: Book)

  /** Every identifier of the book was archived under its group. */
  ghost predicate Covered(book: Book, source: string, refs: multiset<Ref>) {
    forall g :: g in book ==> GroupCovered(book[g], source, g, refs)
  }

  ghost predicate GroupCovered(expected: seq<string>, source: string, g: string, refs: multiset<Ref>) {
    forall id :: id in expected ==> Ref(source, g, id) in refs
  }

  ghost predicate RowsCovered(book: Book, refs: multiset<Ref>) {
    forall g, id :: g in book && id in book[g] ==> Ref("eventlog", "", id) in refs
  }

  method CompareGroup(expected: seq<string>, source: string, g: string, ids: Groups, ghost refs: multiset<Ref>)
      returns (gap: Gap)
    requires CountsAs(ids, refs)
    ensures gap == GapOf(expected, Of(ids, source, g))
    ensures gap.missing == 0 <==> GroupCovered(expected, source, g, refs)
  {
    gap := Compare(expected, Of(ids, source, g));
    GapAccounts(expected, Of(ids, source, g));
    SeenIsArchived(ids, refs, source, g);
  }

  method CompareBook(book: Book, source: string, ids: Groups, ghost refs: multiset<Ref>)
      returns (ok: bool, gaps: map<string, Gap>)
    requires CountsAs(ids, refs)
    ensures ok <==> Covered(book, source, refs)
    ensures gaps.Keys == book.Keys
    ensures forall g :: g in book ==> gaps[g] == GapOf(book[g], Of(ids, source, g))
  {
    ok, gaps := true, map[];
    var left := book.Keys;
    while left != {}
      invariant left <= book.Keys && gaps.Keys == book.Keys - left
      invariant forall g :: g in gaps ==> gaps[g] == GapOf(book[g], Of(ids, source, g))
      invariant ok <==> forall g :: g in gaps ==> GroupCovered(book[g], source, g, refs)
      decreases left
    {
      var g :| g in left;
      var gap := CompareGroup(book[g], source, g, ids, refs);
      gaps := gaps[g := gap];
      ok := ok && gap.missing == 0;
      left := left - {g};
    }
  }

  lemma SeenIsArchived(ids: Groups, refs: multiset<Ref>, source: string, g: string)
    requires CountsAs(ids, refs)
    ensures forall id :: id in Of(ids, source, g) <==> Ref(source, g, id) in refs
  {
    forall id ensures id in Of(ids, source, g) <==> Ref(source, g, id) in refs {
      assert Of(ids, source, g)[id] == refs[Ref(source, g, id)];
    }
  }

  /** The rows of some files, file by file. */
  function Gather(book: Book, files: seq<string>): seq<string> {
    if files == [] then []
    else (if files[0] in book then book[files[0]] else []) + Gather(book, files[1..])
  }

  /** Every file of the book once, in any order. */
  ghost predicate Visits(book: Book, files: seq<string>) { multiset(files) == multiset(book.Keys) }

  lemma {:induction false} GatherAppend(book: Book, a: seq<string>, b: seq<string>)
    ensures Gather(book, a + b) == Gather(book, a) + Gather(book, b)
  {
    if a == [] {
      assert a + b == b;
    } else {
      GatherAppend(book, a[1..], b);
      assert (a + b)[1..] == a[1..] + b;
    }
  }

  /** All rows of all files, file by file in whatever order. */
  method GatherRows(book: Book) returns (rows: seq<string>, ghost files: seq<string>)
    ensures Visits(book, files) && rows == Gather(book, files)
  {
    rows, files := [], [];
    var left := book.Keys;
    while left != {}
      invariant left <= book.Keys && multiset(files) == multiset(book.Keys - left) && rows == Gather(book, files)
      decreases left
    {
      var g :| g in left;
      GatherAppend(book, files, [g]);
      assert Gather(book, [g]) == book[g] by { assert [g][1..] == []; }
      assert book.Keys - (left - {g}) == book.Keys - left + {g};
      rows := rows + book[g];
      files := files + [g];
      left := left - {g};
    }
    assert book.Keys - {} == book.Keys;
  }

  lemma {:induction false} GatheredFrom(book: Book, files: seq<string>, id: string)
    ensures id in Gather(book, files) <==> exists g :: g in files && g in book && id in book[g]
  {
    if files != [] {
      GatheredFrom(book, files[1..], id);
      assert forall g :: g in files <==> g == files[0] || g in files[1..];
    }
  }

  lemma AllGathered(book: Book, files: seq<string>)
    requires Visits(book, files)
    ensures forall id :: id in Gather(book, files) <==> exists g :: g in book && id in book[g]
  {
    forall g ensures g in files <==> g in book {
      assert g in files <==> g in multiset(files);
    }
    forall id ensures id in Gather(book, files) <==> exists g :: g in book && id in book[g] {
      GatheredFrom(book, files, id);
    }
  }

  /** With a ledger the verdict also asks that nothing the ledger holds is missing. */
  method ReconcileWith(rep: Report, ledger: Ledger, ids: Groups, ghost refs: multiset<Ref>) returns (ok: bool)
    requires CountsAs(ids, refs)
    ensures ok <==> rep.ok && Covered(ledger.streams, "stream", refs) && RowsCovered(ledger.eventLogFiles, refs)
                    && Covered(ledger.custom, "soql", refs)
  {
    var streams, gaps := CompareBook(ledger.streams, "stream", ids, refs);
    var rows, files := GatherRows(ledger.eventLogFiles);
    AllGathered(ledger.eventLogFiles, files);
    var gap := Compare(rows, Of(ids, "eventlog", ""));
    GapAccounts(rows, Of(ids, "eventlog", ""));
    SeenIsArchived(ids, refs, "eventlog", "");
    var custom, customGaps := CompareBook(ledger.custom, "soql", ids, refs);
    ok := rep.ok && streams && gap.missing == 0 && custom;
  }

  // --------------------------------------------------------------- traceability

  ghost predicate Carries(lines: seq<Line>, topic: string, ref: Ref) {
    exists line :: line in lines && RefFor(line, topic) == Some(ref)
  }

  lemma {:induction false} CountedIsCarried(lines: seq<Line>, topic: string, ref: Ref)
    ensures ref in CountAll(lines, topic, true).refs <==> Carries(lines, topic, ref)
  {
    if lines != [] {
      var front, last := lines[..|lines| - 1], lines[|lines| - 1];
      CountedIsCarried(front, topic, ref);
      CarriesMore(front, last, topic, ref);
      CountedMore(CountAll(front, topic, true), last.source, RefFor(last, topic), ref);
      assert lines == front + [last];
    }
  }

  lemma CarriesMore(front: seq<Line>, last: Line, topic: string, ref: Ref)
    ensures Carries(front + [last], topic, ref) <==> Carries(front, topic, ref) || RefFor(last, topic) == Some(ref)
  {
    assert last in front + [last];
  }

  lemma CountedMore(c: Counts, source: string, found: Option<Ref>, ref: Ref)
    ensures ref in Counted(c, source, found, true).refs <==> ref in c.refs || found == Some(ref)
  {
  }

  lemma {:induction false} MergedRefs(share: string -> Tally, t: Tally, keys: seq<string>, ref: Ref)
    ensures ref in MergeAll(share, t, keys).counts.refs <==>
            ref in t.counts.refs || exists k :: k in keys && ref in share(k).counts.refs
    decreases |keys|
  {
    if keys != [] {
      MergedRefs(share, Plus(t, share(keys[0])), keys[1..], ref);
      assert forall k :: k in keys <==> k == keys[0] || k in keys[1..];
    }
  }

  /** The archive holds a record with this reference, in an object that was read. */
  ghost predicate InArchive(input: Input, ref: Ref)
    requires |input.manifestKeys| == |input.fetched|
  {
    var ms := Indexed(input.manifestKeys, input.fetched).manifests;
    exists key :: key in input.dataKeys && Carries(LinesOn(input, ms, key), TopicOf(ms, key), ref)
  }

  /** What counts as archived is in a listed, readable object, and nothing else is. */
  lemma Traceable(input: Input, ref: Ref)
    requires |input.manifestKeys| == |input.fetched| && input.reconcile
    ensures ref in TallyOf(input).counts.refs <==> InArchive(input, ref)
  {
    var ms := Indexed(input.manifestKeys, input.fetched).manifests;
    var share := Shares(input, ms);
    MergedRefs(share, NOTHING, input.dataKeys, ref);
    forall key | key in input.dataKeys
      ensures ref in share(key).counts.refs <==> Carries(LinesOn(input, ms, key), TopicOf(ms, key), ref)
    {
      CountedIsCarried(LinesOn(input, ms, key), TopicOf(ms, key), ref);
    }
  }
}
