/**
 The archive verifier: manifests are indexed in listing order, objects are read by
 workers that finish in any order, and the report is sorted.
 */
module Verify {
  import opened Common
  import opened Sorting
  import opened Encode
  import N = Numerals

  // ------------------------------------------------------------------ manifests

  datatype Fetched = Unfetched(why: string) | Fetched(m: Manifest)

  type Manifests = map<string, Manifest>

  datatype Index = Index(manifests: Manifests, mismatches: seq<string>, unreadable: seq<string>,
                         unsupported: seq<string>)

  function Show(n: int): string { if n < 0 then "-" + N.Decimal(-n) else N.Decimal(n) }

  function Supports(m: Manifest): bool { m.version == MANIFEST_VERSION }

  function FailedText(key: string, why: string): string { key + ": " + why }

  function KeylessText(key: string): string { key + " (manifest has no objectKey)" }

  function DuplicateText(key: string, m: Manifest): string { key + " (duplicate objectKey " + m.objectKey + ")" }

  function VersionText(key: string, m: Manifest): string {
    key + " (manifestVersion " + Show(m.version) + ", this verifier reads " + Show(MANIFEST_VERSION) + ")"
  }

  function MismatchText(key: string, why: string): string { key + " (" + why + ")" }

  function AddManifest(x: Index, key: string, f: Fetched): Index {
    match f
    case Unfetched(why) => x.(unreadable := x.unreadable + [FailedText(key, why)])
    case Fetched(m) =>
      if m.objectKey == "" then x.(mismatches := x.mismatches + [KeylessText(key)])
      else if m.objectKey in x.manifests then
        x.(mismatches := x.mismatches + [DuplicateText(key, m)])
      else
        x.(manifests := x.manifests[m.objectKey := m],
           unsupported := x.unsupported + if Supports(m) then [] else [VersionText(key, m)])
  }

  function Indexed(keys: seq<string>, fetched: seq<Fetched>): Index
    requires |keys| == |fetched|
  {
    if keys == [] then Index(map[], [], [], [])
    else AddManifest(Indexed(keys[..|keys| - 1], fetched[..|keys| - 1]), keys[|keys| - 1], fetched[|keys| - 1])
  }

  predicate Sound(f: Fetched) { f.Fetched? && f.m.objectKey != "" && Supports(f.m) }

  predicate DistinctKeys(fetched: seq<Fetched>) {
    forall i, j :: 0 <= i < j < |fetched| && fetched[i].Fetched? && fetched[j].Fetched? ==>
      fetched[i].m.objectKey != fetched[j].m.objectKey
  }

  predicate AllSound(fetched: seq<Fetched>) {
    (forall i :: 0 <= i < |fetched| ==> Sound(fetched[i])) && DistinctKeys(fetched)
  }

  predicate Silent(x: Index) { x.mismatches == [] && x.unreadable == [] && x.unsupported == [] }

  ghost predicate Holds(manifests: Manifests, fetched: seq<Fetched>)
    requires AllSound(fetched)
  {
    && (forall i :: 0 <= i < |fetched| ==>
          Sound(fetched[i]) && fetched[i].m.objectKey in manifests && manifests[fetched[i].m.objectKey] == fetched[i].m)
    && (forall k :: k in manifests ==>
          exists i :: 0 <= i < |fetched| && Sound(fetched[i]) && fetched[i].m.objectKey == k)
  }

  lemma SilentBefore(x: Index, key: string, f: Fetched)
    requires Silent(AddManifest(x, key, f))
    ensures Silent(x) && Sound(f) && f.m.objectKey !in x.manifests
  {
    assert |AddManifest(x, key, f).unsupported| == 0;
  }

  lemma LastIsNew(x: Index, front: seq<Fetched>, f: Fetched)
    requires AllSound(front) && Sound(f) && f.m.objectKey !in x.manifests
    requires forall i :: 0 <= i < |front| ==> front[i].m.objectKey in x.manifests
    ensures AllSound(front + [f])
  {
  }

  lemma SoundFront(fetched: seq<Fetched>)
    requires fetched != [] && AllSound(fetched)
    ensures var n := |fetched| - 1;
            AllSound(fetched[..n]) && forall i :: 0 <= i < n ==> fetched[..n][i].m.objectKey != fetched[n].m.objectKey
  {
    assert Sound(fetched[|fetched| - 1]);
    forall i | 0 <= i < |fetched| - 1 ensures fetched[i].m.objectKey != fetched[|fetched| - 1].m.objectKey {
      assert Sound(fetched[i]);
    }
  }

  lemma HoldsMore(x: Index, key: string, front: seq<Fetched>, f: Fetched)
    requires AllSound(front) && Holds(x.manifests, front) && AllSound(front + [f])
    requires Sound(f) && f.m.objectKey !in x.manifests
    ensures Holds(AddManifest(x, key, f).manifests, front + [f])
  {
    var ms := AddManifest(x, key, f).manifests;
    forall k | k in ms
      ensures exists i :: 0 <= i < |front + [f]| && Sound((front + [f])[i]) && (front + [f])[i].m.objectKey == k
    {
      if k == f.m.objectKey {
        assert (front + [f])[|front|] == f;
      } else {
        var i :| 0 <= i < |front| && Sound(front[i]) && front[i].m.objectKey == k;
        assert (front + [f])[i] == front[i];
      }
    }
  }

  /** Nothing is reported about the manifests exactly when all were read, are
      supported, and name distinct objects; the index then holds them all. */
  lemma {:induction false} SilentIndex(keys: seq<string>, fetched: seq<Fetched>)
    requires |keys| == |fetched|
    ensures Silent(Indexed(keys, fetched)) <==> AllSound(fetched)
    ensures AllSound(fetched) ==> Holds(Indexed(keys, fetched).manifests, fetched)
  {
    if keys != [] {
      var n := |keys| - 1;
      var x := Indexed(keys[..n], fetched[..n]);
      SilentIndex(keys[..n], fetched[..n]);
      assert fetched == fetched[..n] + [fetched[n]];
      if AllSound(fetched) {
        SoundFront(fetched);
        assert Sound(fetched[n]);
        HoldsMore(x, keys[n], fetched[..n], fetched[n]);
      }
      if Silent(Indexed(keys, fetched)) {
        SilentBefore(x, keys[n], fetched[n]);
        LastIsNew(x, fetched[..n], fetched[n]);
      }
    }
  }

  // -------------------------------------------------------------------- objects

  /** What reading an object yields. */
  datatype Outcome = Unreadable(why: string) | Read(stats: Stats, lines: seq<Line>)

  /** The part of a record that the ledger tracks. */
  datatype Ref = Ref(source: string, group: string, id: string)

  /** What has been noted about objects so far, as collections without an order. */
  datatype Notes = Notes(mismatches: multiset<string>, unreadable: multiset<string>, without: nat, seen: set<string>)

  /** The records counted so far. */
  datatype Counts = Counts(bySource: multiset<string>, refs: multiset<Ref>)

  datatype Tally = Tally(notes: Notes, counts: Counts)

  const NO_NOTES := Notes(multiset{}, multiset{}, 0, {})

  const NO_COUNTS := Counts(multiset{}, multiset{})

  function Together(a: Notes, b: Notes): Notes {
    Notes(a.mismatches + b.mismatches, a.unreadable + b.unreadable, a.without + b.without, a.seen + b.seen)
  }

  function Sum(a: Counts, b: Counts): Counts { Counts(a.bySource + b.bySource, a.refs + b.refs) }

  function Plus(a: Tally, b: Tally): Tally { Tally(Together(a.notes, b.notes), Sum(a.counts, b.counts)) }

  function WordOf(line: Line, name: string): string {
    if name in line.payload && line.payload[name].Word? then line.payload[name].text else ""
  }

  function RefFor(line: Line, topic: string): Option<Ref> {
    if line.source == "stream" then Some(Ref("stream", topic, WordOf(line, "EventIdentifier")))
    else if line.source == "eventlog" then Some(Ref("eventlog", "", WordOf(line, "REQUEST_ID")))
    else if line.source == "soql" then Some(Ref("soql", line.eventType, WordOf(line, "Id")))
    else None
  }

  /** Counts one record; its reference only when there is a ledger to compare with. */
  function Counted(c: Counts, source: string, ref: Option<Ref>, reconcile: bool): Counts {
    Counts(c.bySource + multiset{source}, if reconcile && ref.Some? then c.refs + multiset{ref.value} else c.refs)
  }

  function CountAll(lines: seq<Line>, topic: string, reconcile: bool): Counts {
    if lines == [] then NO_COUNTS
    else
      var last := lines[|lines| - 1];
      Counted(CountAll(lines[..|lines| - 1], topic, reconcile), last.source, RefFor(last, topic), reconcile)
  }

  function ProblemText(p: Problem, s: Stats, m: Manifest): string {
    match p
    case Records => "record count " + Show(s.records) + " != manifest " + Show(m.records)
    case Compressed => "compressed bytes " + Show(s.compressed) + " != manifest " + Show(m.compressed)
    case Uncompressed => "uncompressed bytes " + Show(s.uncompressed) + " != manifest " + Show(m.uncompressed)
    case Hash => "sha256 mismatch"
    case Times => "first/last timestamp mismatch"
  }

  function Explain(ps: seq<Problem>, s: Stats, m: Manifest): string {
    if ps == [] then ""
    else if |ps| == 1 then ProblemText(ps[0], s, m)
    else ProblemText(ps[0], s, m) + "; " + Explain(ps[1..], s, m)
  }

  function TopicOf(manifests: Manifests, key: string): string {
    if key in manifests && "topic" in manifests[key].lineage then manifests[key].lineage["topic"] else ""
  }

  datatype Input = Input(dataKeys: seq<string>, manifestKeys: seq<string>, fetched: seq<Fetched>,
                         read: string -> Outcome, reconcile: bool, strict: bool)

  function Passed(manifests: Manifests, key: string): bool { key in manifests && !Supports(manifests[key]) }

  function WhyOf(manifests: Manifests, key: string, stats: Stats): string {
    if key in manifests then Explain(Problems(stats, manifests[key]), stats, manifests[key]) else ""
  }

  function NotesRead(manifests: Manifests, key: string, why: string): Notes {
    if key in manifests then
      Notes(if why != "" then multiset{MismatchText(key, why)} else multiset{}, multiset{}, 0, {key})
    else NO_NOTES.(without := 1)
  }

  /** What one object adds to the report. */
  function NotesOn(input: Input, manifests: Manifests, key: string): Notes {
    var seen := if key in manifests then {key} else {};
    if Passed(manifests, key) then NO_NOTES.(seen := seen)
    else
      match input.read(key)
      case Unreadable(why) => NO_NOTES.(seen := seen, unreadable := multiset{FailedText(key, why)})
      case Read(stats, _) => NotesRead(manifests, key, WhyOf(manifests, key, stats))
  }

  /** The records of an object that is passed over or unreadable are not counted. */
  function LinesOn(input: Input, manifests: Manifests, key: string): seq<Line> {
    if Passed(manifests, key) || input.read(key).Unreadable? then [] else input.read(key).lines
  }

  function Share(input: Input, manifests: Manifests, key: string): Tally {
    Tally(NotesOn(input, manifests, key),
          CountAll(LinesOn(input, manifests, key), TopicOf(manifests, key), input.reconcile))
  }

  function Shares(input: Input, manifests: Manifests): string -> Tally { key => Share(input, manifests, key) }

  const NOTHING := Tally(NO_NOTES, NO_COUNTS)

  function MergeAll(share: string -> Tally, t: Tally, keys: seq<string>): Tally
    decreases |keys|
  {
    if keys == [] then t else MergeAll(share, Plus(t, share(keys[0])), keys[1..])
  }

  // ----------------------------------------------------------------- confluence

  lemma TogetherCommutes(t: Notes, a: Notes, b: Notes)
    ensures Together(Together(t, a), b) == Together(Together(t, b), a)
  {
    var x, y := Together(Together(t, a), b), Together(Together(t, b), a);
    assert x.mismatches == y.mismatches && x.unreadable == y.unreadable && x.seen == y.seen;
  }

  lemma SumCommutes(t: Counts, a: Counts, b: Counts)
    ensures Sum(Sum(t, a), b) == Sum(Sum(t, b), a)
  {
    assert Sum(Sum(t, a), b).bySource == Sum(Sum(t, b), a).bySource;
    assert Sum(Sum(t, a), b).refs == Sum(Sum(t, b), a).refs;
  }

  lemma PlusCommutes(t: Tally, a: Tally, b: Tally)
    ensures Plus(Plus(t, a), b) == Plus(Plus(t, b), a)
  {
    TogetherCommutes(t.notes, a.notes, b.notes);
    SumCommutes(t.counts, a.counts, b.counts);
  }

  lemma {:induction false} MergeFirst(share: string -> Tally, t: Tally, keys: seq<string>, i: nat)
    requires i < |keys|
    ensures MergeAll(share, t, keys) == MergeAll(share, Plus(t, share(keys[i])), keys[..i] + keys[i + 1..])
    decreases i
  {
    if i == 0 {
      assert keys[..0] + keys[1..] == keys[1..];
    } else {
      var rest := keys[..i] + keys[i + 1..];
      MergeFirst(share, Plus(t, share(keys[0])), keys[1..], i - 1);
      assert keys[1..][..i - 1] + keys[1..][i..] == rest[1..];
      assert keys[1..][i - 1] == keys[i] && rest[0] == keys[0];
      PlusCommutes(t, share(keys[0]), share(keys[i]));
    }
  }

  /** Every order in which the workers can finish merges to the same result. */
  lemma {:induction false} Confluence(share: string -> Tally, t: Tally, a: seq<string>, b: seq<string>)
    requires multiset(a) == multiset(b)
    ensures MergeAll(share, t, a) == MergeAll(share, t, b)
    decreases |a|
  {
    if a == [] {
      assert |b| == |multiset(b)| == 0;
    } else {
      var i := Position(a[0], b);
      assert a == [a[0]] + a[1..];
      WithoutOne(b, i);
      MergeFirst(share, t, b, i);
      Confluence(share, Plus(t, share(a[0])), a[1..], b[..i] + b[i + 1..]);
    }
  }

  lemma Position(x: string, b: seq<string>) returns (i: nat)
    requires x in multiset(b)
    ensures i < |b| && b[i] == x
  {
    i :| 0 <= i < |b| && b[i] == x;
  }

  // -------------------------------------------------------------------- verdict

  datatype Report = Report(objects: nat, manifests: nat, mismatches: seq<string>, noObject: seq<string>,
                           without: nat, unreadable: seq<string>, unreadableManifests: seq<string>,
                           unsupported: seq<string>, bySource: multiset<string>, ok: bool)

  function WithVerdict(r: Report, strict: bool): Report {
    r.(ok := && r.mismatches == [] && r.noObject == [] && r.unreadable == [] && r.unreadableManifests == []
             && r.unsupported == [] && (!strict || r.without == 0))
  }

  ghost function TallyOf(input: Input): Tally
    requires |input.manifestKeys| == |input.fetched|
  {
    MergeAll(Shares(input, Indexed(input.manifestKeys, input.fetched).manifests), NOTHING, input.dataKeys)
  }

  ghost function ReportFrom(input: Input, x: Index, t: Tally): Report {
    WithVerdict(Report(|input.dataKeys|, |input.manifestKeys|, SortedOf(multiset(x.mismatches) + t.notes.mismatches),
                       SortedOf(multiset(x.manifests.Keys - t.notes.seen)), t.notes.without,
                       SortedOf(t.notes.unreadable),
                       SortedOf(multiset(x.unreadable)), SortedOf(multiset(x.unsupported)), t.counts.bySource, false),
                input.strict)
  }

  /** The report, as a function of what is in the archive. */
  ghost function ReportOf(input: Input): Report
    requires |input.manifestKeys| == |input.fetched|
  {
    ReportFrom(input, Indexed(input.manifestKeys, input.fetched), TallyOf(input))
  }

  lemma ExplainsProblems(ps: seq<Problem>, s: Stats, m: Manifest)
    ensures Explain(ps, s, m) == "" <==> ps == []
  {
    if ps != [] {
      ProblemSaysSomething(ps[0], s, m);
    }
  }

  lemma ProblemSaysSomething(p: Problem, s: Stats, m: Manifest)
    ensures ProblemText(p, s, m) != ""
  {
    if p.Records? {
      assert |ProblemText(p, s, m)| >= |"record count "|;
    } else if p.Compressed? {
      assert |ProblemText(p, s, m)| >= |"compressed bytes "|;
    } else if p.Uncompressed? {
      assert |ProblemText(p, s, m)| >= |"uncompressed bytes "|;
    }
  }

  predicate Matches(input: Input, manifests: Manifests, key: string) {
    input.read(key).Read? && (key in manifests ==> Problems(input.read(key).stats, manifests[key]) == [])
  }

  predicate Quiet(n: Notes) { n.mismatches == multiset{} && n.unreadable == multiset{} }

  lemma NotesSay(input: Input, ms: Manifests, key: string)
    requires !Passed(ms, key)
    ensures var n := NotesOn(input, ms, key);
            && (Quiet(n) <==> Matches(input, ms, key))
            && (input.read(key).Read? ==> (n.without == 0 <==> key in ms))
            && n.seen == (if key in ms then {key} else {})
  {
    if input.read(key).Read? && key in ms {
      ExplainsProblems(Problems(input.read(key).stats, ms[key]), input.read(key).stats, ms[key]);
    }
  }

  /** A merge is as clean as its start and all its shares. */
  lemma {:induction false} MergedSays(share: string -> Tally, t: Tally, keys: seq<string>)
    ensures var n := MergeAll(share, t, keys).notes;
            && (Quiet(n) <==> Quiet(t.notes) && forall k :: k in keys ==> Quiet(share(k).notes))
            && (n.without == 0 <==> t.notes.without == 0 && forall k :: k in keys ==> share(k).notes.without == 0)
    decreases |keys|
  {
    if keys != [] {
      MergedSays(share, Plus(t, share(keys[0])), keys[1..]);
      assert keys == [keys[0]] + keys[1..];
      assert forall k :: k in keys <==> k == keys[0] || k in keys[1..];
    }
  }

  /** What a clean archive is, with no word about how it is checked. */
  ghost predicate Reconciled(input: Input) {
    && AllSound(input.fetched)
    && (forall key :: key in input.dataKeys ==> input.read(key).Read?)
    && (forall i :: 0 <= i < |input.fetched| ==> Backed(input, input.fetched[i].m))
    && (input.strict ==> forall key :: key in input.dataKeys ==> Claimed(input.fetched, key))
  }

  /** The manifest's object exists and is the one it describes. */
  ghost predicate Backed(input: Input, m: Manifest) {
    && m.objectKey in input.dataKeys
    && input.read(m.objectKey).Read?
    && var stats := input.read(m.objectKey).stats;
       && stats.records == m.records && stats.compressed == m.compressed && stats.uncompressed == m.uncompressed
       && stats.sha256 == m.sha256 && stats.first == m.first && stats.last == m.last
  }

  lemma NoProblems(s: Stats, m: Manifest)
    ensures Problems(s, m) == [] <==>
              s.records == m.records && s.compressed == m.compressed && s.uncompressed == m.uncompressed
              && s.sha256 == m.sha256 && s.first == m.first && s.last == m.last
  {
  }

  ghost predicate Claimed(fetched: seq<Fetched>, key: string) {
    exists i :: 0 <= i < |fetched| && Sound(fetched[i]) && fetched[i].m.objectKey == key
  }

  lemma ClaimedIsIndexed(fetched: seq<Fetched>, ms: Manifests, key: string)
    requires AllSound(fetched) && Holds(ms, fetched)
    ensures Claimed(fetched, key) <==> key in ms
    ensures !Passed(ms, key)
  {
    if key in ms {
      var i :| 0 <= i < |fetched| && Sound(fetched[i]) && fetched[i].m.objectKey == key;
    }
  }

  lemma EmptyList(m: multiset<string>)
    ensures SortedOf(m) == [] <==> m == multiset{}
  {
    if SortedOf(m) == [] {
      assert multiset(SortedOf(m)) == multiset{};
    }
  }

  lemma EmptyListOf(s: seq<string>)
    ensures SortedOf(multiset(s)) == [] <==> s == []
  {
    EmptyList(multiset(s));
    if s != [] {
      assert s[0] in multiset(s);
    }
  }

  lemma TallyIsClean(input: Input, ms: Manifests)
    requires forall key :: key in input.dataKeys ==> !Passed(ms, key)
    ensures Quiet(MergeAll(Shares(input, ms), NOTHING, input.dataKeys).notes) <==>
            forall key :: key in input.dataKeys ==> Matches(input, ms, key)
  {
    var share := Shares(input, ms);
    MergedSays(share, NOTHING, input.dataKeys);
    forall key | key in input.dataKeys
      ensures Quiet(share(key).notes) <==> Matches(input, ms, key)
    {
      NotesSay(input, ms, key);
    }
  }

  lemma TallyCountsUnclaimed(input: Input, ms: Manifests)
    requires forall key :: key in input.dataKeys ==> !Passed(ms, key) && input.read(key).Read?
    ensures MergeAll(Shares(input, ms), NOTHING, input.dataKeys).notes.without == 0 <==>
            forall key :: key in input.dataKeys ==> key in ms
  {
    var share := Shares(input, ms);
    MergedSays(share, NOTHING, input.dataKeys);
    forall key | key in input.dataKeys ensures share(key).notes.without == 0 <==> key in ms {
      NotesSay(input, ms, key);
    }
  }

  lemma {:induction false} MergedSeen(share: string -> Tally, t: Tally, keys: seq<string>, x: string)
    ensures x in MergeAll(share, t, keys).notes.seen <==>
            x in t.notes.seen || exists k :: k in keys && x in share(k).notes.seen
    decreases |keys|
  {
    if keys != [] {
      MergedSeen(share, Plus(t, share(keys[0])), keys[1..], x);
      assert forall k :: k in keys <==> k == keys[0] || k in keys[1..];
    }
  }

  lemma TallySees(input: Input, ms: Manifests, key: string)
    requires forall k :: k in input.dataKeys ==> !Passed(ms, k)
    requires key in ms
    ensures key in MergeAll(Shares(input, ms), NOTHING, input.dataKeys).notes.seen <==> key in input.dataKeys
  {
    var share := Shares(input, ms);
    MergedSeen(share, NOTHING, input.dataKeys, key);
    forall k | k in input.dataKeys ensures key in share(k).notes.seen <==> key == k {
      NotesSay(input, ms, k);
    }
  }

  lemma TallySeesListed(input: Input, ms: Manifests)
    requires forall key :: key in input.dataKeys ==> !Passed(ms, key)
    ensures ms.Keys - MergeAll(Shares(input, ms), NOTHING, input.dataKeys).notes.seen == {} <==>
            forall key :: key in ms ==> key in input.dataKeys
  {
    var seen := MergeAll(Shares(input, ms), NOTHING, input.dataKeys).notes.seen;
    forall key | key in ms.Keys ensures key in seen <==> key in input.dataKeys {
      TallySees(input, ms, key);
    }
    NoneLeft(ms.Keys, seen, input.dataKeys);
  }

  lemma NoneLeft(keys: set<string>, seen: set<string>, listed: seq<string>)
    requires forall key :: key in keys ==> (key in seen <==> key in listed)
    ensures keys - seen == {} <==> forall key :: key in keys ==> key in listed
  {
    if keys - seen == {} {
      forall key | key in keys ensures key in listed {
        assert key !in keys - seen;
      }
    }
  }

  lemma SilentReport(input: Input)
    requires |input.manifestKeys| == |input.fetched| && ReportOf(input).ok
    ensures AllSound(input.fetched)
  {
    var x := Indexed(input.manifestKeys, input.fetched);
    EmptyList(multiset(x.mismatches) + TallyOf(input).notes.mismatches);
    EmptyListOf(x.mismatches);
    EmptyListOf(x.unreadable);
    EmptyListOf(x.unsupported);
    assert multiset(x.mismatches) <= multiset(x.mismatches) + TallyOf(input).notes.mismatches;
    EmptyList(multiset(x.mismatches));
    SilentIndex(input.manifestKeys, input.fetched);
  }

  /** With the manifests sound, the verdict rests on the tally. */
  lemma SoundReport(input: Input, ms: Manifests)
    requires |input.manifestKeys| == |input.fetched| && AllSound(input.fetched)
    requires ms == Indexed(input.manifestKeys, input.fetched).manifests
    ensures var t := TallyOf(input).notes;
            ReportOf(input).ok <==> Quiet(t) && ms.Keys - t.seen == {} && (!input.strict || t.without == 0)
  {
    var x := Indexed(input.manifestKeys, input.fetched);
    var t := TallyOf(input).notes;
    SilentIndex(input.manifestKeys, input.fetched);
    assert multiset(x.mismatches) + t.mismatches == t.mismatches;
    EmptyList(t.mismatches);
    EmptyList(t.unreadable);
    EmptyListOf(x.unreadable);
    EmptyListOf(x.unsupported);
    EmptyList(multiset(ms.Keys - t.seen));
    if ms.Keys - t.seen != {} {
      var key :| key in ms.Keys - t.seen;
      assert key in multiset(ms.Keys - t.seen);
    }
  }

  lemma MatchesAreBacked(input: Input, ms: Manifests)
    requires AllSound(input.fetched) && Holds(ms, input.fetched)
    ensures (forall key :: key in input.dataKeys ==> Matches(input, ms, key))
            && (forall key :: key in ms ==> key in input.dataKeys)
       <==> (forall key :: key in input.dataKeys ==> input.read(key).Read?)
            && (forall i :: 0 <= i < |input.fetched| ==> Backed(input, input.fetched[i].m))
  {
    if (forall key :: key in input.dataKeys ==> Matches(input, ms, key))
       && (forall key :: key in ms ==> key in input.dataKeys)
    {
      forall i | 0 <= i < |input.fetched| ensures Backed(input, input.fetched[i].m) {
        assert input.fetched[i].m.objectKey in ms;
        assert Matches(input, ms, input.fetched[i].m.objectKey);
        NoProblems(input.read(input.fetched[i].m.objectKey).stats, input.fetched[i].m);
      }
    }
    if forall i :: 0 <= i < |input.fetched| ==> Backed(input, input.fetched[i].m) {
      forall key | key in ms ensures Backed(input, ms[key]) && ms[key].objectKey == key {
        var i :| 0 <= i < |input.fetched| && Sound(input.fetched[i]) && input.fetched[i].m.objectKey == key;
      }
      forall key | key in input.dataKeys && input.read(key).Read? ensures Matches(input, ms, key) {
        if key in ms { NoProblems(input.read(key).stats, ms[key]); }
      }
    }
  }

  lemma VerdictWhenSound(input: Input, ms: Manifests)
    requires |input.manifestKeys| == |input.fetched| && AllSound(input.fetched)
    requires ms == Indexed(input.manifestKeys, input.fetched).manifests
    ensures ReportOf(input).ok <==>
            && (forall key :: key in input.dataKeys ==> Matches(input, ms, key))
            && (forall key :: key in ms ==> key in input.dataKeys)
            && (input.strict ==> forall key :: key in input.dataKeys ==> key in ms)
  {
    SilentIndex(input.manifestKeys, input.fetched);
    forall key ensures !Passed(ms, key) {
      ClaimedIsIndexed(input.fetched, ms, key);
    }
    SoundReport(input, ms);
    TallyIsClean(input, ms);
    TallySeesListed(input, ms);
    if forall key :: key in input.dataKeys ==> Matches(input, ms, key) {
      TallyCountsUnclaimed(input, ms);
    }
  }

  lemma ReconciledWhenSound(input: Input, ms: Manifests)
    requires AllSound(input.fetched) && Holds(ms, input.fetched)
    ensures Reconciled(input) <==>
            && (forall key :: key in input.dataKeys ==> Matches(input, ms, key))
            && (forall key :: key in ms ==> key in input.dataKeys)
            && (input.strict ==> forall key :: key in input.dataKeys ==> key in ms)
  {
    MatchesAreBacked(input, ms);
    forall key | key in input.dataKeys ensures Claimed(input.fetched, key) <==> key in ms {
      ClaimedIsIndexed(input.fetched, ms, key);
    }
  }

  /** The verdict is OK exactly for a clean archive. */
  lemma Verdict(input: Input)
    requires |input.manifestKeys| == |input.fetched|
    ensures ReportOf(input).ok <==> Reconciled(input)
  {
    if ReportOf(input).ok {
      SilentReport(input);
    }
    if AllSound(input.fetched) {
      var ms := Indexed(input.manifestKeys, input.fetched).manifests;
      SilentIndex(input.manifestKeys, input.fetched);
      VerdictWhenSound(input, ms);
      ReconciledWhenSound(input, ms);
    }
  }
}
