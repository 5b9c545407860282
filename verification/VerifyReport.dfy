/**
 What every entry of the verifier's report stands for, told from the archive alone.
 */
module VerifyReport {
  import opened Common
  import opened Sorting
  import opened Encode
  import opened Verify

  // ------------------------------------------------------------------ the manifests

  /** A manifest that names an object, and the first to name it. */
  predicate First(fetched: seq<Fetched>, i: nat)
    requires i < |fetched|
  {
    fetched[i].Fetched? && fetched[i].m.objectKey != ""
    && forall j :: 0 <= j < i && fetched[j].Fetched? ==> fetched[j].m.objectKey != fetched[i].m.objectKey
  }

  /** The manifest an object is compared with. */
  ghost predicate Describing(fetched: seq<Fetched>, key: string, m: Manifest) {
    exists i :: 0 <= i < |fetched| && First(fetched, i) && fetched[i].m == m && m.objectKey == key
  }

  lemma FirstStays(front: seq<Fetched>, f: Fetched, i: nat)
    requires i < |front|
    ensures First(front + [f], i) <==> First(front, i)
  {
    var all := front + [f];
    assert all[i] == front[i];
    assert forall j :: 0 <= j < i ==> all[j] == front[j];
  }

  lemma DescribingMore(front: seq<Fetched>, f: Fetched, key: string, m: Manifest)
    ensures Describing(front + [f], key, m)
       <==> Describing(front, key, m) || (First(front + [f], |front|) && f.m == m && m.objectKey == key)
  {
    var all := front + [f];
    if i :| 0 <= i < |all| && First(all, i) && all[i].m == m && m.objectKey == key {
      if i < |front| { FirstStays(front, f, i); assert front[i].m == m; }
    }
    if i :| 0 <= i < |front| && First(front, i) && front[i].m == m && m.objectKey == key {
      FirstStays(front, f, i);
      assert all[i].m == m;
    }
  }

  /** The index holds the first manifest of every object that is named. */
  lemma {:induction false} IndexHolds(keys: seq<string>, fetched: seq<Fetched>, key: string, m: Manifest)
    requires |keys| == |fetched|
    ensures var ms := Indexed(keys, fetched).manifests;
            key in ms && ms[key] == m <==> Describing(fetched, key, m)
    decreases |keys|
  {
    if keys != [] {
      var n := |keys| - 1;
      var front, f := fetched[..n], fetched[n];
      var before := Indexed(keys[..n], front).manifests;
      assert fetched == front + [f];
      IndexHolds(keys[..n], front, key, m);
      DescribingMore(front, f, key, m);
      if f.Fetched? {
        NamedBefore(keys[..n], front, f.m.objectKey);
        assert First(fetched, n) <==> f.m.objectKey != "" && f.m.objectKey !in before;
      }
    }
  }

  lemma {:induction false} NamedBefore(keys: seq<string>, fetched: seq<Fetched>, key: string)
    requires |keys| == |fetched|
    ensures key in Indexed(keys, fetched).manifests
       <==> key != "" && exists i :: 0 <= i < |fetched| && fetched[i].Fetched? && fetched[i].m.objectKey == key
    decreases |keys|
  {
    if keys != [] {
      var n := |keys| - 1;
      NamedBefore(keys[..n], fetched[..n], key);
      assert fetched == fetched[..n] + [fetched[n]];
      if i :| 0 <= i < n && fetched[..n][i].Fetched? && fetched[..n][i].m.objectKey == key {
        assert fetched[i] == fetched[..n][i];
      }
      if i :| 0 <= i < n && fetched[i].Fetched? && fetched[i].m.objectKey == key {
        assert fetched[i] == fetched[..n][i];
      }
    }
  }

  // ------------------------------------------------- what is said about the manifests

  ghost predicate SaysUnreadable(keys: seq<string>, fetched: seq<Fetched>, text: string)
    requires |keys| == |fetched|
  {
    exists i :: 0 <= i < |keys| && fetched[i].Unfetched? && text == keys[i] + ": " + fetched[i].why
  }

  ghost predicate SaysUnsupported(keys: seq<string>, fetched: seq<Fetched>, text: string)
    requires |keys| == |fetched|
  {
    exists i :: 0 <= i < |keys| && First(fetched, i) && fetched[i].m.version != 2
                && text == keys[i] + " (manifestVersion " + Show(fetched[i].m.version) + ", this verifier reads 2)"
  }

  function Misnamed(key: string, m: Manifest): string {
    if m.objectKey == "" then key + " (manifest has no objectKey)"
    else key + " (duplicate objectKey " + m.objectKey + ")"
  }

  /** A manifest that names no object, or one that an earlier manifest has named. */
  ghost predicate SaysMisnamed(keys: seq<string>, fetched: seq<Fetched>, text: string)
    requires |keys| == |fetched|
  {
    exists i :: 0 <= i < |keys| && fetched[i].Fetched? && !First(fetched, i)
                && text == Misnamed(keys[i], fetched[i].m)
  }

  lemma Texts(key: string, why: string, m: Manifest)
    ensures FailedText(key, why) == key + ": " + why
    ensures KeylessText(key) == key + " (manifest has no objectKey)"
    ensures DuplicateText(key, m) == key + " (duplicate objectKey " + m.objectKey + ")"
    ensures VersionText(key, m) == key + " (manifestVersion " + Show(m.version) + ", this verifier reads 2)"
    ensures MismatchText(key, why) == key + " (" + why + ")"
    ensures Supports(m) <==> m.version == 2
  {
    assert Show(2) == "2";
  }

  lemma SaysMore(keys: seq<string>, front: seq<Fetched>, key: string, f: Fetched, text: string)
    requires |keys| == |front|
    ensures var ks, fs := keys + [key], front + [f];
            && (SaysUnreadable(ks, fs, text)
                <==> SaysUnreadable(keys, front, text) || (f.Unfetched? && text == key + ": " + f.why))
            && (SaysUnsupported(ks, fs, text)
                <==> SaysUnsupported(keys, front, text)
                     || (First(fs, |front|) && f.m.version != 2
                         && text == key + " (manifestVersion " + Show(f.m.version) + ", this verifier reads 2)"))
            && (SaysMisnamed(ks, fs, text)
                <==> SaysMisnamed(keys, front, text)
                     || (f.Fetched? && !First(fs, |front|) && text == Misnamed(key, f.m)))
  {
    var ks, fs := keys + [key], front + [f];
    forall i | 0 <= i < |front| ensures ks[i] == keys[i] && fs[i] == front[i] && (First(fs, i) <==> First(front, i)) {
      FirstStays(front, f, i);
    }
    assert ks[|keys|] == key && fs[|front|] == f;
  }

  /** One manifest more adds at most one text. */
  lemma AddSays(x: Index, key: string, f: Fetched, text: string)
    ensures var y := AddManifest(x, key, f);
            var first := f.Fetched? && f.m.objectKey != "" && f.m.objectKey !in x.manifests;
            && (text in y.unreadable
                <==> text in x.unreadable || (f.Unfetched? && text == key + ": " + f.why))
            && (text in y.unsupported
                <==> text in x.unsupported
                     || (first && f.m.version != 2
                         && text == key + " (manifestVersion " + Show(f.m.version) + ", this verifier reads 2)"))
            && (text in y.mismatches
                <==> text in x.mismatches
                     || (f.Fetched? && !first && text == Misnamed(key, f.m)))
  {
    Texts(key, if f.Unfetched? then f.why else "", if f.Fetched? then f.m else SomeManifest());
  }

  lemma {:induction false} IndexSays(keys: seq<string>, fetched: seq<Fetched>, text: string)
    requires |keys| == |fetched|
    ensures var x := Indexed(keys, fetched);
            && (text in x.unreadable <==> SaysUnreadable(keys, fetched, text))
            && (text in x.unsupported <==> SaysUnsupported(keys, fetched, text))
            && (text in x.mismatches <==> SaysMisnamed(keys, fetched, text))
    decreases |keys|
  {
    if keys != [] {
      var n := |keys| - 1;
      var front, f := fetched[..n], fetched[n];
      assert keys == keys[..n] + [keys[n]] && fetched == front + [f];
      IndexSays(keys[..n], front, text);
      SaysMore(keys[..n], front, keys[n], f, text);
      AddSays(Indexed(keys[..n], front), keys[n], f, text);
      if f.Fetched? { FirstIsNew(keys, fetched); }
    }
  }

  lemma FirstIsNew(keys: seq<string>, fetched: seq<Fetched>)
    requires |keys| == |fetched| > 0 && fetched[|fetched| - 1].Fetched?
    ensures var n := |fetched| - 1;
            var key := fetched[n].m.objectKey;
            First(fetched, n) <==> key != "" && key !in Indexed(keys[..n], fetched[..n]).manifests
  {
    var n := |fetched| - 1;
    NamedBefore(keys[..n], fetched[..n], fetched[n].m.objectKey);
    assert forall j :: 0 <= j < n ==> fetched[..n][j] == fetched[j];
  }

  function SomeManifest(): Manifest { Manifest(2, "", "", "", "", "", 0, 0, 0, "", None, None, map[], 0) }

  // --------------------------------------------------- what is said about the objects

  /** An object whose manifest, if it has one, this verifier can read. */
  ghost predicate Looked(input: Input, key: string) {
    key in input.dataKeys && forall m :: Describing(input.fetched, key, m) ==> m.version == 2
  }

  ghost predicate SaysUnread(input: Input, text: string) {
    exists key :: Looked(input, key) && input.read(key).Unreadable? && text == key + ": " + input.read(key).why
  }

  /** The ways in which an object can differ from its manifest. */
  function Differences(s: Stats, m: Manifest): seq<string> {
    (if s.records != m.records then ["record count " + Show(s.records) + " != manifest " + Show(m.records)] else [])
    + (if s.compressed != m.compressed
       then ["compressed bytes " + Show(s.compressed) + " != manifest " + Show(m.compressed)] else [])
    + (if s.uncompressed != m.uncompressed
       then ["uncompressed bytes " + Show(s.uncompressed) + " != manifest " + Show(m.uncompressed)] else [])
    + (if s.sha256 != m.sha256 then ["sha256 mismatch"] else [])
    + (if s.first == m.first && s.last == m.last then [] else ["first/last timestamp mismatch"])
  }

  function Joined(texts: seq<string>): string {
    if texts == [] then "" else if |texts| == 1 then texts[0] else texts[0] + "; " + Joined(texts[1..])
  }

  ghost predicate SaysDifferent(input: Input, text: string) {
    exists key, m :: Looked(input, key) && Describing(input.fetched, key, m) && input.read(key).Read?
                     && Differences(input.read(key).stats, m) != []
                     && text == key + " (" + Joined(Differences(input.read(key).stats, m)) + ")"
  }

  lemma {:induction false} ExplainJoins(ps: seq<Problem>, s: Stats, m: Manifest)
    ensures Explain(ps, s, m) == Joined(seq(|ps|, i requires 0 <= i < |ps| => ProblemText(ps[i], s, m)))
  {
    if |ps| > 1 {
      var texts := seq(|ps|, i requires 0 <= i < |ps| => ProblemText(ps[i], s, m));
      assert texts[1..] == seq(|ps[1..]|, i requires 0 <= i < |ps[1..]| => ProblemText(ps[1..][i], s, m));
      ExplainJoins(ps[1..], s, m);
    }
  }

  function TextsOf(ps: seq<Problem>, s: Stats, m: Manifest): seq<string> {
    seq(|ps|, i requires 0 <= i < |ps| => ProblemText(ps[i], s, m))
  }

  lemma TextsJoin(a: seq<Problem>, b: seq<Problem>, s: Stats, m: Manifest)
    ensures TextsOf(a + b, s, m) == TextsOf(a, s, m) + TextsOf(b, s, m)
  {
  }

  lemma OneText(p: Problem, s: Stats, m: Manifest)
    ensures TextsOf([p], s, m) == [ProblemText(p, s, m)] && TextsOf([], s, m) == []
  {
  }

  lemma PartTexts(s: Stats, m: Manifest)
    ensures TextsOf(if s.records != m.records then [Records] else [], s, m)
         == (if s.records != m.records
             then ["record count " + Show(s.records) + " != manifest " + Show(m.records)] else [])
    ensures TextsOf(if s.compressed != m.compressed then [Compressed] else [], s, m)
         == (if s.compressed != m.compressed
             then ["compressed bytes " + Show(s.compressed) + " != manifest " + Show(m.compressed)] else [])
    ensures TextsOf(if s.uncompressed != m.uncompressed then [Uncompressed] else [], s, m)
         == (if s.uncompressed != m.uncompressed
             then ["uncompressed bytes " + Show(s.uncompressed) + " != manifest " + Show(m.uncompressed)] else [])
    ensures TextsOf(if s.sha256 != m.sha256 then [Hash] else [], s, m)
         == (if s.sha256 != m.sha256 then ["sha256 mismatch"] else [])
    ensures TextsOf(if s.first != m.first || s.last != m.last then [Times] else [], s, m)
         == (if s.first == m.first && s.last == m.last then [] else ["first/last timestamp mismatch"])
  {
    OneText(Records, s, m);
    OneText(Compressed, s, m);
    OneText(Uncompressed, s, m);
    OneText(Hash, s, m);
    OneText(Times, s, m);
  }

  lemma FiveTexts(a: seq<Problem>, b: seq<Problem>, c: seq<Problem>, d: seq<Problem>, e: seq<Problem>,
                  s: Stats, m: Manifest)
    ensures TextsOf(a + b + c + d + e, s, m)
         == TextsOf(a, s, m) + TextsOf(b, s, m) + TextsOf(c, s, m) + TextsOf(d, s, m) + TextsOf(e, s, m)
  {
    TextsJoin(a + b + c + d, e, s, m);
    TextsJoin(a + b + c, d, s, m);
    TextsJoin(a + b, c, s, m);
    TextsJoin(a, b, s, m);
  }

  /** The verifier's comparison finds these differences and writes them so. */
  lemma ProblemsAreDifferences(s: Stats, m: Manifest)
    ensures TextsOf(Problems(s, m), s, m) == Differences(s, m)
    ensures Explain(Problems(s, m), s, m) == Joined(Differences(s, m))
  {
    FiveTexts(if s.records != m.records then [Records] else [],
              if s.compressed != m.compressed then [Compressed] else [],
              if s.uncompressed != m.uncompressed then [Uncompressed] else [],
              if s.sha256 != m.sha256 then [Hash] else [],
              if s.first != m.first || s.last != m.last then [Times] else [], s, m);
    PartTexts(s, m);
    ExplainJoins(Problems(s, m), s, m);
  }

  lemma DifferencesTell(s: Stats, m: Manifest)
    ensures Joined(Differences(s, m)) == "" <==> Differences(s, m) == []
    ensures Differences(s, m) == [] <==>
              s.records == m.records && s.compressed == m.compressed && s.uncompressed == m.uncompressed
              && s.sha256 == m.sha256 && s.first == m.first && s.last == m.last
  {
    ProblemsAreDifferences(s, m);
    ExplainsProblems(Problems(s, m), s, m);
    assert |Differences(s, m)| == |Problems(s, m)|;
  }

  // ------------------------------------------------------------------- the whole report

  /** What one object adds, told from the archive. */
  lemma NotesTell(input: Input, ms: Manifests, key: string, text: string)
    requires forall m :: key in ms && ms[key] == m <==> Describing(input.fetched, key, m)
    requires key in input.dataKeys
    ensures var n := NotesOn(input, ms, key);
            && (text in n.unreadable
                <==> Looked(input, key) && input.read(key).Unreadable? && text == key + ": " + input.read(key).why)
            && (text in n.mismatches
                <==> Looked(input, key) && input.read(key).Read? && key in ms
                     && Differences(input.read(key).stats, ms[key]) != []
                     && text == key + " (" + Joined(Differences(input.read(key).stats, ms[key])) + ")")
            && (n.without == if input.read(key).Read? && key !in ms then 1 else 0)
            && n.seen == (if key in ms then {key} else {})
  {
    Texts(key, "", SomeManifest());
    if key in ms {
      assert Describing(input.fetched, key, ms[key]);
      Texts(key, "", ms[key]);
    }
    assert Passed(ms, key) <==> !Looked(input, key);
    if key in ms && input.read(key).Read? {
      var stats := input.read(key).stats;
      ProblemsAreDifferences(stats, ms[key]);
      DifferencesTell(stats, ms[key]);
      Texts(key, Joined(Differences(stats, ms[key])), ms[key]);
    }
    if input.read(key).Unreadable? {
      Texts(key, input.read(key).why, SomeManifest());
    }
  }

  lemma {:induction false} MergedTexts(share: string -> Tally, t: Tally, keys: seq<string>, text: string)
    ensures var n := MergeAll(share, t, keys).notes;
            && (text in n.unreadable
                <==> text in t.notes.unreadable || exists k :: k in keys && text in share(k).notes.unreadable)
            && (text in n.mismatches
                <==> text in t.notes.mismatches || exists k :: k in keys && text in share(k).notes.mismatches)
    decreases |keys|
  {
    if keys != [] {
      MergedTexts(share, Plus(t, share(keys[0])), keys[1..], text);
      assert forall k :: k in keys <==> k == keys[0] || k in keys[1..];
    }
  }

  /** How many of the listed objects are readable and have no manifest. */
  ghost function Unclaimed(input: Input, keys: seq<string>): nat {
    if keys == [] then 0
    else
      (if input.read(keys[0]).Read? && forall m :: !Describing(input.fetched, keys[0], m) then 1 else 0)
      + Unclaimed(input, keys[1..])
  }

  lemma {:induction false} MergedWithout(input: Input, ms: Manifests, t: Tally, keys: seq<string>)
    requires forall key, m :: key in ms && ms[key] == m <==> Describing(input.fetched, key, m)
    requires forall key :: key in keys ==> key in input.dataKeys
    ensures MergeAll(Shares(input, ms), t, keys).notes.without == t.notes.without + Unclaimed(input, keys)
    decreases |keys|
  {
    if keys != [] {
      var key := keys[0];
      NotesTell(input, ms, key, "");
      assert key in ms ==> Describing(input.fetched, key, ms[key]);
      MergedWithout(input, ms, Plus(t, Shares(input, ms)(key)), keys[1..]);
    }
  }

  ghost function RecordsFrom(input: Input, keys: seq<string>, source: string): nat {
    if keys == [] then 0
    else
      (if Looked(input, keys[0]) && input.read(keys[0]).Read? then OfSource(input.read(keys[0]).lines, source) else 0)
      + RecordsFrom(input, keys[1..], source)
  }

  function OfSource(lines: seq<Line>, source: string): nat {
    if lines == [] then 0
    else OfSource(lines[..|lines| - 1], source) + if lines[|lines| - 1].source == source then 1 else 0
  }

  lemma {:induction false} CountedBySource(lines: seq<Line>, topic: string, reconcile: bool, source: string)
    ensures CountAll(lines, topic, reconcile).bySource[source] == OfSource(lines, source)
  {
    if lines != [] {
      CountedBySource(lines[..|lines| - 1], topic, reconcile, source);
    }
  }

  lemma {:induction false} MergedRecords(input: Input, ms: Manifests, t: Tally, keys: seq<string>, source: string)
    requires forall key, m :: key in ms && ms[key] == m <==> Describing(input.fetched, key, m)
    requires forall key :: key in keys ==> key in input.dataKeys
    ensures MergeAll(Shares(input, ms), t, keys).counts.bySource[source]
         == t.counts.bySource[source] + RecordsFrom(input, keys, source)
    decreases |keys|
  {
    if keys != [] {
      var key := keys[0];
      assert Passed(ms, key) <==> !Looked(input, key) by { PassedIsNotLooked(input, ms, key); }
      CountedBySource(LinesOn(input, ms, key), TopicOf(ms, key), input.reconcile, source);
      MergedRecords(input, ms, Plus(t, Shares(input, ms)(key)), keys[1..], source);
    }
  }

  lemma PassedIsNotLooked(input: Input, ms: Manifests, key: string)
    requires forall m :: key in ms && ms[key] == m <==> Describing(input.fetched, key, m)
    requires key in input.dataKeys
    ensures Passed(ms, key) <==> !Looked(input, key)
  {
    if key in ms {
      assert Describing(input.fetched, key, ms[key]);
      Texts(key, "", ms[key]);
    }
  }

  lemma InList(m: multiset<string>, text: string)
    ensures text in SortedOf(m) <==> text in m
  {
    assert text in SortedOf(m) <==> text in multiset(SortedOf(m));
  }

  lemma IndexKnows(input: Input)
    requires |input.manifestKeys| == |input.fetched|
    ensures var ms := Indexed(input.manifestKeys, input.fetched).manifests;
            forall key, m :: key in ms && ms[key] == m <==> Describing(input.fetched, key, m)
  {
    forall key, m
      ensures var ms := Indexed(input.manifestKeys, input.fetched).manifests;
              key in ms && ms[key] == m <==> Describing(input.fetched, key, m)
    {
      IndexHolds(input.manifestKeys, input.fetched, key, m);
    }
  }

  /** The lists about manifests: which could not be read, which are of another version,
      which describe an object that is not there. */
  lemma ManifestsReported(input: Input, text: string)
    requires |input.manifestKeys| == |input.fetched|
    ensures var r := ReportOf(input);
            && r.objects == |input.dataKeys| && r.manifests == |input.manifestKeys|
            && (text in r.unreadableManifests <==> SaysUnreadable(input.manifestKeys, input.fetched, text))
            && (text in r.unsupported <==> SaysUnsupported(input.manifestKeys, input.fetched, text))
            && (text in r.noObject
                <==> text !in input.dataKeys && exists m :: Describing(input.fetched, text, m))
  {
    var x, t := Indexed(input.manifestKeys, input.fetched), TallyOf(input);
    var ms := x.manifests;
    IndexKnows(input);
    IndexSays(input.manifestKeys, input.fetched, text);
    InList(multiset(x.unreadable), text);
    InList(multiset(x.unsupported), text);
    InList(multiset(ms.Keys - t.notes.seen), text);
    MergedSeen(Shares(input, ms), NOTHING, input.dataKeys, text);
    forall k | k in input.dataKeys ensures text in Shares(input, ms)(k).notes.seen <==> text == k && k in ms {
      NotesTell(input, ms, k, text);
    }
    assert text in ms <==> exists m :: Describing(input.fetched, text, m) by {
      if text in ms { assert Describing(input.fetched, text, ms[text]); }
    }
  }

  /** The lists about objects: which could not be read, which differ from their manifest
      and how, how many have no manifest, and how many records of each source were
      read. Objects described in another version are passed over. */
  lemma ObjectsReported(input: Input, text: string)
    requires |input.manifestKeys| == |input.fetched|
    ensures var r := ReportOf(input);
            && (text in r.unreadable <==> SaysUnread(input, text))
            && (text in r.mismatches
                <==> SaysMisnamed(input.manifestKeys, input.fetched, text) || SaysDifferent(input, text))
            && r.without == Unclaimed(input, input.dataKeys)
            && r.bySource[text] == RecordsFrom(input, input.dataKeys, text)
  {
    var x, t := Indexed(input.manifestKeys, input.fetched), TallyOf(input);
    var ms := x.manifests;
    IndexKnows(input);
    IndexSays(input.manifestKeys, input.fetched, text);
    InList(t.notes.unreadable, text);
    InList(multiset(x.mismatches) + t.notes.mismatches, text);
    MergedTexts(Shares(input, ms), NOTHING, input.dataKeys, text);
    MergedWithout(input, ms, NOTHING, input.dataKeys);
    MergedRecords(input, ms, NOTHING, input.dataKeys, text);
    UnreadSaid(input, ms, text);
    DifferentSaid(input, ms, text);
  }

  lemma UnreadSaid(input: Input, ms: Manifests, text: string)
    requires forall key, m :: key in ms && ms[key] == m <==> Describing(input.fetched, key, m)
    ensures SaysUnread(input, text)
       <==> exists k :: k in input.dataKeys && text in Shares(input, ms)(k).notes.unreadable
  {
    forall k | k in input.dataKeys
      ensures text in Shares(input, ms)(k).notes.unreadable
         <==> Looked(input, k) && input.read(k).Unreadable? && text == k + ": " + input.read(k).why
    {
      NotesTell(input, ms, k, text);
    }
  }

  lemma DifferentSaid(input: Input, ms: Manifests, text: string)
    requires forall key, m :: key in ms && ms[key] == m <==> Describing(input.fetched, key, m)
    ensures SaysDifferent(input, text)
       <==> exists k :: k in input.dataKeys && text in Shares(input, ms)(k).notes.mismatches
  {
    forall k | k in input.dataKeys
      ensures text in Shares(input, ms)(k).notes.mismatches
         <==> Looked(input, k) && input.read(k).Read? && k in ms
              && Differences(input.read(k).stats, ms[k]) != []
              && text == k + " (" + Joined(Differences(input.read(k).stats, ms[k])) + ")"
    {
      NotesTell(input, ms, k, text);
    }
    if k :| k in input.dataKeys && text in Shares(input, ms)(k).notes.mismatches {
      assert Describing(input.fetched, k, ms[k]);
    }
  }

  // ------------------------------------------------------------ what counts as archived

  /** The text of a payload field; other values and absent ones count as no text. */
  predicate TextOf(line: Line, name: string, text: string) {
    if name in line.payload && line.payload[name].Word? then line.payload[name] == Word(text) else text == ""
  }

  /** A stream event is tracked by its topic and EventIdentifier, a row of an event log
      by its REQUEST_ID, a row of a query by its type and Id; nothing else is. */
  predicate Tracks(line: Line, topic: string, ref: Ref) {
    ref.source == line.source &&
    ((ref.source == "stream" && ref.group == topic && TextOf(line, "EventIdentifier", ref.id))
     || (ref.source == "eventlog" && ref.group == "" && TextOf(line, "REQUEST_ID", ref.id))
     || (ref.source == "soql" && ref.group == line.eventType && TextOf(line, "Id", ref.id)))
  }

  lemma RefTracks(line: Line, topic: string, ref: Ref)
    ensures RefFor(line, topic) == Some(ref) <==> Tracks(line, topic, ref)
  {
    SourcesDiffer();
  }

  lemma SourcesDiffer()
    ensures "stream" != "eventlog" && "stream" != "soql" && "eventlog" != "soql"
  {
    assert |"stream"| == 6 && |"eventlog"| == 8 && |"soql"| == 4;
  }

  function TracksIn(lines: seq<Line>, topic: string, ref: Ref): nat {
    if lines == [] then 0
    else TracksIn(lines[..|lines| - 1], topic, ref) + if Tracks(lines[|lines| - 1], topic, ref) then 1 else 0
  }

  lemma {:induction false} CountedRefs(lines: seq<Line>, topic: string, ref: Ref)
    ensures CountAll(lines, topic, true).refs[ref] == TracksIn(lines, topic, ref)
  {
    if lines != [] {
      CountedRefs(lines[..|lines| - 1], topic, ref);
      RefTracks(lines[|lines| - 1], topic, ref);
    }
  }

  /** The topic an object's manifest names. */
  ghost function TopicFor(input: Input, key: string): string {
    if m :| Describing(input.fetched, key, m) && "topic" in m.lineage then m.lineage["topic"] else ""
  }

  ghost function RefsFrom(input: Input, keys: seq<string>, ref: Ref): nat {
    if keys == [] then 0
    else
      (if Looked(input, keys[0]) && input.read(keys[0]).Read?
       then TracksIn(input.read(keys[0]).lines, TopicFor(input, keys[0]), ref) else 0)
      + RefsFrom(input, keys[1..], ref)
  }

  lemma TopicTold(input: Input, ms: Manifests, key: string)
    requires forall m :: key in ms && ms[key] == m <==> Describing(input.fetched, key, m)
    ensures TopicOf(ms, key) == TopicFor(input, key)
  {
    if key in ms { assert Describing(input.fetched, key, ms[key]); }
  }

  lemma {:induction false} MergedRefCounts(input: Input, ms: Manifests, t: Tally, keys: seq<string>, ref: Ref)
    requires forall key, m :: key in ms && ms[key] == m <==> Describing(input.fetched, key, m)
    requires (forall key :: key in keys ==> key in input.dataKeys) && input.reconcile
    ensures MergeAll(Shares(input, ms), t, keys).counts.refs[ref] == t.counts.refs[ref] + RefsFrom(input, keys, ref)
    decreases |keys|
  {
    if keys != [] {
      var key := keys[0];
      PassedIsNotLooked(input, ms, key);
      TopicTold(input, ms, key);
      CountedRefs(LinesOn(input, ms, key), TopicOf(ms, key), ref);
      MergedRefCounts(input, ms, Plus(t, Shares(input, ms)(key)), keys[1..], ref);
    }
  }

  /** An identifier counts as archived as often as readable, listed objects that are not
      passed over hold a record with it. */
  lemma RefsReported(input: Input, ref: Ref)
    requires |input.manifestKeys| == |input.fetched| && input.reconcile
    ensures TallyOf(input).counts.refs[ref] == RefsFrom(input, input.dataKeys, ref)
  {
    IndexKnows(input);
    MergedRefCounts(input, Indexed(input.manifestKeys, input.fetched).manifests, NOTHING, input.dataKeys, ref);
  }
}
