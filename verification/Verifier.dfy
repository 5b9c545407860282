/** The verifier at work: it changes the report step by step, and compares with a ledger. */
module Verifying {
  import opened Common
  import opened Sorting
  import opened Encode
  import opened Verify

  /** Identifiers with their number of occurrences, by source and group. */
  type Groups = map<(string, string), multiset<string>>

  function Of(ids: Groups, source: string, group: string): multiset<string> {
    if (source, group) in ids then ids[(source, group)] else multiset{}
  }

  ghost predicate CountsAs(ids: Groups, refs: multiset<Ref>) {
    forall s, g, id :: Of(ids, s, g)[id] == refs[Ref(s, g, id)]
  }

  lemma CountsOneMore(t: Counts, u: Counts, source: string, ref: Option<Ref>, r: bool)
    ensures Counted(Sum(t, u), source, ref, r) == Sum(t, Counted(u, source, ref, r))
  {
    var x, y := Counted(Sum(t, u), source, ref, r), Sum(t, Counted(u, source, ref, r));
    assert x.bySource == y.bySource;
    assert x.refs == y.refs;
  }

  lemma CountsAdded(ids: Groups, refs: multiset<Ref>, r: Ref)
    requires CountsAs(ids, refs)
    ensures CountsAs(ids[(r.source, r.group) := Of(ids, r.source, r.group) + multiset{r.id}], refs + multiset{r})
  {
  }

  lemma IndexedUpTo(keys: seq<string>, fetched: seq<Fetched>, i: nat)
    requires |keys| == |fetched| && i < |keys|
    ensures Indexed(keys[..i + 1], fetched[..i + 1])
         == AddManifest(Indexed(keys[..i], fetched[..i]), keys[i], fetched[i])
  {
    assert keys[..i + 1][..i] == keys[..i] && fetched[..i + 1][..i] == fetched[..i];
  }

  lemma MergeStep(share: string -> Tally, t: Tally, order: seq<string>, i: nat)
    requires i < |order|
    ensures MergeAll(share, t, order[i..]) == MergeAll(share, Plus(t, share(order[i])), order[i + 1..])
  {
    assert order[i..][0] == order[i] && order[i..][1..] == order[i + 1..];
  }

  lemma SumNothing(t: Counts)
    ensures Sum(t, NO_COUNTS) == t
  {
    assert t.bySource + multiset{} == t.bySource && t.refs + multiset{} == t.refs;
  }

  lemma CountsUpTo(t: Counts, lines: seq<Line>, i: nat, topic: string, r: bool)
    requires i < |lines|
    ensures Sum(t, CountAll(lines[..i + 1], topic, r))
         == Counted(Sum(t, CountAll(lines[..i], topic, r)), lines[i].source, RefFor(lines[i], topic), r)
  {
    assert lines[..i + 1][..i] == lines[..i];
    CountsOneMore(t, CountAll(lines[..i], topic, r), lines[i].source, RefFor(lines[i], topic), r);
  }

  class Verifier {
    const input: Input
    var manifests: Manifests
    var mismatches: seq<string>
    var unreadable: seq<string>
    var unreadableManifests: seq<string>
    var unsupported: seq<string>
    var without: nat
    var seen: set<string>
    var bySource: multiset<string>
    var ids: Groups

    ghost predicate HoldsIndex(x: Index)
      reads this
    {
      && manifests == x.manifests
      && unreadableManifests == x.unreadable
      && unsupported == x.unsupported
    }

    /** `before` are the mismatches found while indexing. */
    ghost predicate HoldsNotes(before: seq<string>, t: Notes)
      reads this`mismatches, this`unreadable, this`without, this`seen
    {
      && multiset(mismatches) == multiset(before) + t.mismatches
      && multiset(unreadable) == t.unreadable
      && without == t.without
      && seen == t.seen
    }

    ghost predicate HoldsCounts(t: Counts)
      reads this`bySource, this`ids
    {
      bySource == t.bySource && CountsAs(ids, t.refs)
    }

    constructor (input: Input)
      ensures this.input == input
      ensures HoldsIndex(Index(map[], [], [], [])) && HoldsCounts(NO_COUNTS)
      ensures mismatches == unreadable == [] && without == 0 && seen == {}
    {
      this.input := input;
      manifests, mismatches, unreadable, unreadableManifests, unsupported := map[], [], [], [], [];
      without, seen, bySource, ids := 0, {}, multiset{}, map[];
    }

    /** Indexes the manifests in listing order. */
    method ReadManifests()
      requires |input.manifestKeys| == |input.fetched|
      requires HoldsIndex(Index(map[], [], [], [])) && mismatches == []
      modifies this`manifests, this`mismatches, this`unreadableManifests, this`unsupported
      ensures HoldsIndex(Indexed(input.manifestKeys, input.fetched))
      ensures mismatches == Indexed(input.manifestKeys, input.fetched).mismatches
    {
      for i := 0 to |input.manifestKeys|
        invariant HoldsIndex(Indexed(input.manifestKeys[..i], input.fetched[..i]))
        invariant mismatches == Indexed(input.manifestKeys[..i], input.fetched[..i]).mismatches
      {
        IndexedUpTo(input.manifestKeys, input.fetched, i);
        AddOne(input.manifestKeys[i], input.fetched[i], Indexed(input.manifestKeys[..i], input.fetched[..i]));
      }
      assert input.manifestKeys[..|input.manifestKeys|] == input.manifestKeys;
      assert input.fetched[..|input.manifestKeys|] == input.fetched;
    }

    method AddOne(key: string, f: Fetched, ghost x: Index)
      requires HoldsIndex(x) && mismatches == x.mismatches
      modifies this`manifests, this`mismatches, this`unreadableManifests, this`unsupported
      ensures HoldsIndex(AddManifest(x, key, f)) && mismatches == AddManifest(x, key, f).mismatches
    {
      if f.Unfetched? {
        unreadableManifests := unreadableManifests + [FailedText(key, f.why)];
        return;
      }
      var m := f.m;
      if m.objectKey == "" {
        mismatches := mismatches + [KeylessText(key)];
        return;
      }
      if m.objectKey in manifests {
        mismatches := mismatches + [DuplicateText(key, m)];
        return;
      }
      if m.version != MANIFEST_VERSION {
        unsupported := unsupported + [VersionText(key, m)];
      }
      manifests := manifests[m.objectKey := m];
    }

    method AddRef(r: Ref, ghost refs: multiset<Ref>)
      requires CountsAs(ids, refs)
      modifies this`ids
      ensures CountsAs(ids, refs + multiset{r})
    {
      CountsAdded(ids, refs, r);
      ids := ids[(r.source, r.group) := Of(ids, r.source, r.group) + multiset{r.id}];
    }

    method CountRecord(source: string, ref: Option<Ref>, ghost t: Counts)
      requires HoldsCounts(t)
      modifies this`bySource, this`ids
      ensures HoldsCounts(Counted(t, source, ref, input.reconcile))
    {
      bySource := bySource + multiset{source};
      if input.reconcile && ref.Some? {
        AddRef(ref.value, t.refs);
      }
    }

    method CountLines(lines: seq<Line>, topic: string, ghost t: Counts)
      requires HoldsCounts(t)
      modifies this`bySource, this`ids
      ensures HoldsCounts(Sum(t, CountAll(lines, topic, input.reconcile)))
    {
      SumNothing(t);
      ghost var c := t;
      for i := 0 to |lines|
        invariant HoldsCounts(c) && c == Sum(t, CountAll(lines[..i], topic, input.reconcile))
      {
        CountsUpTo(t, lines, i, topic, input.reconcile);
        var ref := RefFor(lines[i], topic);
        CountRecord(lines[i].source, ref, c);
        c := Counted(c, lines[i].source, ref, input.reconcile);
      }
      assert lines[..|lines|] == lines;
    }

    /** One object's entry in the report: none if its manifest is unsupported, which
        was reported while indexing. */
    method NoteObject(key: string, ghost before: seq<string>, ghost t: Notes)
      requires HoldsNotes(before, t)
      modifies this`mismatches, this`unreadable, this`without, this`seen
      ensures HoldsNotes(before, Together(t, NotesOn(input, manifests, key)))
    {
      if key in manifests {
        seen := seen + {key};
        if !Supports(manifests[key]) {
          return;
        }
      }
      var outcome := input.read(key);
      if outcome.Unreadable? {
        unreadable := unreadable + [FailedText(key, outcome.why)];
        return;
      }
      NoteRead(key, WhyOf(manifests, key, outcome.stats), before, t);
    }

    method NoteRead(key: string, why: string, ghost before: seq<string>, ghost t: Notes)
      requires HoldsNotes(before, t.(seen := if key in manifests then t.seen + {key} else t.seen))
      requires key !in manifests ==> why == ""
      modifies this`mismatches, this`without
      ensures HoldsNotes(before, Together(t, NotesRead(manifests, key, why)))
    {
      if key !in manifests {
        without := without + 1;
      } else if why != "" {
        mismatches := mismatches + [MismatchText(key, why)];
      }
    }

    /** One object, passed over or read by a worker and merged under the lock. */
    method MergeObject(key: string, ghost share: string -> Tally, ghost before: seq<string>, ghost t: Tally)
      requires share == Shares(input, manifests)
      requires HoldsNotes(before, t.notes) && HoldsCounts(t.counts)
      modifies this`mismatches, this`unreadable, this`without, this`seen, this`bySource, this`ids
      ensures HoldsNotes(before, Plus(t, share(key)).notes)
      ensures HoldsCounts(Plus(t, share(key)).counts)
    {
      NoteObject(key, before, t.notes);
      CountLines(LinesOn(input, manifests, key), TopicOf(manifests, key), t.counts);
    }

    method MergeInOrder(order: seq<string>, ghost before: seq<string>)
      requires HoldsNotes(before, NO_NOTES) && HoldsCounts(NO_COUNTS)
      modifies this`mismatches, this`unreadable, this`without, this`seen, this`bySource, this`ids
      ensures HoldsNotes(before, MergeAll(Shares(input, manifests), NOTHING, order).notes)
      ensures HoldsCounts(MergeAll(Shares(input, manifests), NOTHING, order).counts)
    {
      ghost var share := Shares(input, manifests);
      ghost var t := NOTHING;
      for i := 0 to |order|
        invariant HoldsNotes(before, t.notes) && HoldsCounts(t.counts)
        invariant MergeAll(share, t, order[i..]) == MergeAll(share, NOTHING, order)
      {
        MergeStep(share, t, order, i);
        MergeObject(order[i], share, before, t);
        t := Plus(t, share(order[i]));
      }
    }

    /** The indexed manifests whose object was not in the listing, in any order. */
    method ListMissing() returns (noObject: seq<string>)
      ensures multiset(noObject) == multiset(manifests.Keys - seen)
    {
      noObject := [];
      var left := manifests.Keys - seen;
      while left != {}
        invariant left <= manifests.Keys - seen
        invariant multiset(noObject) == multiset(manifests.Keys - seen - left)
        decreases left
      {
        var key :| key in left;
        noObject := noObject + [key];
        assert manifests.Keys - seen - (left - {key}) == manifests.Keys - seen - left + {key};
        left := left - {key};
      }
      assert manifests.Keys - seen - {} == manifests.Keys - seen;
    }

    method Summarise(ghost x: Index, ghost t: Tally) returns (rep: Report)
      requires HoldsIndex(x) && HoldsNotes(x.mismatches, t.notes) && HoldsCounts(t.counts)
      ensures rep == ReportFrom(input, x, t)
    {
      var noObject := ListMissing();
      SortIsSortedOf(mismatches);
      SortIsSortedOf(noObject);
      SortIsSortedOf(unreadable);
      SortIsSortedOf(unreadableManifests);
      SortIsSortedOf(unsupported);
      rep := WithVerdict(Report(|input.dataKeys|, |input.manifestKeys|, Sort(mismatches), Sort(noObject), without,
                                Sort(unreadable), Sort(unreadableManifests), Sort(unsupported), bySource, false),
                         input.strict);
    }
  }

  /** Whatever order the workers finish in, the report is the one the archive's
      contents determine. */
  method Check(input: Input, order: seq<string>) returns (rep: Report, ids: Groups)
    requires |input.manifestKeys| == |input.fetched|
    requires multiset(order) == multiset(input.dataKeys)
    ensures rep == ReportOf(input)
    ensures CountsAs(ids, TallyOf(input).counts.refs)
  {
    var v := new Verifier(input);
    v.ReadManifests();
    ghost var x := Indexed(input.manifestKeys, input.fetched);
    v.MergeInOrder(order, x.mismatches);
    Confluence(Shares(input, x.manifests), NOTHING, order, input.dataKeys);
    rep := v.Summarise(x, TallyOf(input));
    ids := v.ids;
  }
}
