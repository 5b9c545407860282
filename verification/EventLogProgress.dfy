/**
 What the EventLogFile collector gets done: the watermark it stores, the files that
 appear on its listings after any pause, and that no file is fetched twice.
 */
module EventLogProgress {
  import opened Common
  import opened EventLog
  import opened EventLogProofs

  // ------------------------------------------------------------- the stored watermark

  lemma {:induction false} NewestIsNewest(mark: Option<int>, files: seq<File>)
    ensures Newest(mark, files).Some? <==> mark.Some? || files != []
    ensures mark.Some? ==> Newest(mark, files).value >= mark.value
    ensures forall i :: 0 <= i < |files| ==> files[i].created <= Newest(mark, files).value
    decreases |files|
  {
    if files != [] {
      NewestIsNewest(Later(mark, files[0].created), files[1..]);
      assert forall i :: 0 < i < |files| ==> files[i] == files[1..][i - 1];
    }
  }

  /** The instant w is the old watermark or the date of a file among the first n, and
      none of those is newer. */
  ghost predicate NewestOf(before: Option<int>, listing: seq<File>, n: nat, w: int)
    requires n <= |listing|
  {
    && (before == Some(w) || exists i :: 0 <= i < n && listing[i].created == w)
    && (before.Some? ==> before.value <= w)
    && forall i :: 0 <= i < n ==> listing[i].created <= w
  }

  /** A poll that can read, list and save, and that finishes or stops at a file, stores
      the newest of the old watermark and the dates of the files it passed, in whole
      milliseconds; it stores something as soon as it has passed a file. */
  lemma PollProgresses(cfg: Config, st: State, poll: Poll)
    requires |poll.turns| == |poll.listing| && Honest(cfg, st)
    requires poll.readable && poll.listable && poll.saved
    ensures var r := Walk(cfg, st, poll.listing, poll.turns, st.watermark);
            var stored := AfterPoll(cfg, st, poll).watermark;
            r.passed <= |poll.listing| &&
            (r.end.Finished? || r.end.Blocked? ==>
               && (stored.Some? <==> st.watermark.Some? || r.passed > 0)
               && (stored.Some? ==>
                     stored.value % 1_000_000 == 0 &&
                     exists w :: stored.value <= w < stored.value + 1_000_000
                                 && NewestOf(st.watermark, poll.listing, r.passed, w)))
  {
    var r := Walk(cfg, st, poll.listing, poll.turns, st.watermark);
    WalkPasses(cfg, st, poll.listing, poll.turns, st.watermark);
    var passed := poll.listing[..r.passed];
    NewestIsNewest(st.watermark, passed);
    var k := NewestIsOne(st.watermark, passed);
    if r.mark.Some? {
      assert forall i :: 0 <= i < r.passed ==> passed[i] == poll.listing[i];
      assert NewestOf(st.watermark, poll.listing, r.passed, r.mark.value);
    }
  }

  /** A poll that cannot read, list or save, crashes, or meets an unreadable date leaves
      the watermark as it was. */
  lemma OtherwiseNothingStored(cfg: Config, st: State, poll: Poll)
    requires |poll.turns| == |poll.listing| && Honest(cfg, st)
    requires poll.readable && poll.listable && poll.saved ==>
               var end := Walk(cfg, st, poll.listing, poll.turns, st.watermark).end;
               end.Crashed? || end.Undated?
    ensures AfterPoll(cfg, st, poll).watermark == st.watermark
  {
    WalkPasses(cfg, st, poll.listing, poll.turns, st.watermark);
  }

  /** Once a watermark is stored it is stored for good. */
  lemma {:induction false} StaysStored(universe: iset<File>, cfg: Config, st: State, clock: int,
                                       history: seq<Happening>)
    requires Safe(universe, cfg, st, clock) && cfg.overlap >= 0 && st.watermark.Some?
    requires Possible(universe, cfg, st, clock, history)
    ensures var st' := Outcome(universe, cfg, st, clock, history).0;
            st'.watermark.Some? && st'.base == st.base
    decreases |history|
  {
    if history != [] {
      match history[0] {
        case Polled(poll) =>
          PollKeepsSafe(universe, cfg, st, poll, clock);
          PollKeepsStored(cfg, st, poll);
          StaysStored(universe, cfg, AfterPoll(cfg, st, poll), poll.listed, history[1..]);
        case Forgotten(_, _) =>
          ForgettingIsSafe(universe, cfg, st, clock, history[0]);
          StaysStored(universe, cfg, AfterHappening(cfg, st, history[0]), clock, history[1..]);
      }
    }
  }

  lemma PollKeepsStored(cfg: Config, st: State, poll: Poll)
    requires |poll.turns| == |poll.listing| && Honest(cfg, st)
    requires st.watermark.Some? && st.base.Some?
    ensures AfterPoll(cfg, st, poll).watermark.Some? && AfterPoll(cfg, st, poll).base == st.base
  {
    WalkPasses(cfg, st, poll.listing, poll.turns, st.watermark);
  }

  /** Whatever happens after a watermark is stored, and however long nothing happens: a
      file that it answers for is on the next complete listing that can see it, or has
      been archived before. */
  lemma NothingMissed(universe: iset<File>, cfg: Config, st: State, clock: int, history: seq<Happening>,
                      poll: Poll, f: File)
    requires Safe(universe, cfg, st, clock) && cfg.overlap >= 0 && st.watermark.Some?
    requires Possible(universe, cfg, st, clock, history)
    requires var (st', clock') := Outcome(universe, cfg, st, clock, history);
             clock' <= poll.began && Plausible(universe, cfg, st', poll) && poll.listable
    requires f in universe && f.visible <= poll.listed && f.created <= poll.ended - poll.ended % 1_000_000_000
    requires f.created >= st.base.value && f.visible <= f.created + cfg.overlap
    ensures f in poll.listing || f.id in Durable(Outcome(universe, cfg, st, clock, history).0)
  {
    WatermarkSafety(universe, cfg, st, clock, history);
    StaysStored(universe, cfg, st, clock, history);
  }

  /** A listing holds the files of a window in whole seconds: from the overlap before the
      watermark, or the initial interval before the clock, to the end. */
  lemma ListedExactly(universe: iset<File>, cfg: Config, st: State, poll: Poll, f: File)
    requires Plausible(universe, cfg, st, poll) && poll.listable
    ensures var since := if st.watermark.Some? then st.watermark.value - cfg.overlap else poll.began - cfg.initial;
            f in poll.listing <==>
              && f in universe && f.visible <= poll.listed
              && since - since % 1_000_000_000 <= f.created <= poll.ended - poll.ended % 1_000_000_000
  {
  }

  // ------------------------------------------------------------------ processed markers

  /** A file whose marker can be read is passed without being fetched: what a download
      would bring, and which calls would work, makes no difference. */
  predicate Marked(st: State, listing: seq<File>, turns: seq<Turn>)
    requires |turns| == |listing|
  {
    forall i :: 0 <= i < |listing| ==>
      listing[i].id in st.markers && turns[i].luck.markerRead && listing[i].dated && !turns[i].crash
  }

  lemma {:induction false} MarkedIsPassed(cfg: Config, st: State, listing: seq<File>, turns: seq<Turn>,
                                             mark: Option<int>)
    requires |turns| == |listing| && Marked(st, listing, turns)
    ensures var r := Walk(cfg, st, listing, turns, mark);
            r.st == st && r.end.Finished?
    decreases |listing|
  {
    if listing != [] {
      assert forall i :: 0 <= i < |listing| - 1 ==> listing[1..][i] == listing[i + 1] && turns[1..][i] == turns[i + 1];
      MarkedIsPassed(cfg, st, listing[1..], turns[1..], Later(mark, listing[0].created));
    }
  }

  lemma VisitMarks(cfg: Config, st: State, file: File, turn: Turn)
    ensures st.markers <= Visit(cfg, st, file, turn).0.markers
    ensures Visit(cfg, st, file, turn).1 && turn.luck.marked ==> file.id in Visit(cfg, st, file, turn).0.markers
  {
  }

  /** Every file a walk passes is marked, as far as the cache takes the marker. */
  lemma {:induction false} PassedIsMarked(cfg: Config, st: State, listing: seq<File>, turns: seq<Turn>,
                                             mark: Option<int>)
    requires |turns| == |listing|
    ensures var r := Walk(cfg, st, listing, turns, mark);
            && st.markers <= r.st.markers && r.passed <= |listing|
            && forall i :: 0 <= i < r.passed && turns[i].luck.marked ==> listing[i].id in r.st.markers
    decreases |listing|
  {
    if listing != [] && !turns[0].crash && listing[0].dated {
      VisitMarks(cfg, st, listing[0], turns[0]);
      var (st', ok) := Visit(cfg, st, listing[0], turns[0]);
      if ok {
        PassedIsMarked(cfg, st', listing[1..], turns[1..], Later(mark, listing[0].created));
        assert forall i :: 0 < i < |listing| ==> listing[1..][i - 1] == listing[i] && turns[1..][i - 1] == turns[i];
      }
    }
  }

  /** So no file is fetched twice while its marker is there: after a walk that passed
      everything and stored every marker, walking the same listing again does nothing. */
  lemma FetchedOnce(cfg: Config, st: State, listing: seq<File>, turns: seq<Turn>, again: seq<Turn>, mark: Option<int>)
    requires |turns| == |listing| == |again|
    requires Walk(cfg, st, listing, turns, mark).end.Finished? && forall i :: 0 <= i < |turns| ==> turns[i].luck.marked
    requires forall i :: 0 <= i < |again| ==> again[i].luck.markerRead && !again[i].crash
    ensures var st' := Walk(cfg, st, listing, turns, mark).st;
            Walk(cfg, st', listing, again, mark).st == st'
  {
    PassedIsMarked(cfg, st, listing, turns, mark);
    FinishedPassedAll(cfg, st, listing, turns, mark);
    MarkedIsPassed(cfg, Walk(cfg, st, listing, turns, mark).st, listing, again, mark);
  }

  lemma {:induction false} FinishedPassedAll(cfg: Config, st: State, listing: seq<File>, turns: seq<Turn>,
                                                mark: Option<int>)
    requires |turns| == |listing| && Walk(cfg, st, listing, turns, mark).end.Finished?
    ensures Walk(cfg, st, listing, turns, mark).passed == |listing|
    ensures forall i :: 0 <= i < |listing| ==> listing[i].dated
    decreases |listing|
  {
    if listing != [] {
      var (st', ok) := Visit(cfg, st, listing[0], turns[0]);
      FinishedPassedAll(cfg, st', listing[1..], turns[1..], Later(mark, listing[0].created));
      assert forall i :: 0 < i < |listing| ==> listing[i] == listing[1..][i - 1];
    }
  }

  // ---------------------------------------------------------------------- one file

  /** How often a file has failed as far as the cache can tell, this time included. */
  function Counted(counts: map<string, nat>, id: string, luck: Luck): nat {
    if luck.countRead && id in counts then counts[id] + 1 else 1
  }

  /** What one file leaves behind, and when it is passed: its data if it parses, a
      quarantine object or a tombstone if it has failed in that way often enough, and
      nothing otherwise. A write that is not reported does not pass it. */
  lemma PassedExactly(cfg: Config, st: State, id: string, fetch: Fetch, luck: Luck)
    ensures var (st', ok) := ArchiveFile(cfg, st, id, fetch, luck);
            var parsed := fetch == Fetched(true);
            var poison := fetch == Fetched(false) && Counted(st.malformed, id, luck) >= cfg.malformedAttempts;
            var gone := (fetch == Status(400) || fetch == Status(404) || fetch == Status(410))
                        && Counted(st.unavailable, id, luck) >= cfg.unavailableAttempts;
            && (ok <==> (parsed || poison || gone) && luck.stored && luck.reported)
            && st'.data == st.data + (if parsed && luck.stored then {id} else {})
            && st'.quarantined == st.quarantined + (if poison && luck.stored then {id} else {})
            && st'.tombstones == st.tombstones + (if gone && luck.stored then {id} else {})
            && st'.markers == st.markers && st'.watermark == st.watermark
  {
  }

  /** A counter after one file: one more after a failure of its kind, if the cache takes
      it; forgotten, if the cache can, once the file is passed. */
  function Recounted(counts: map<string, nat>, id: string, luck: Luck, failed: bool, limit: nat): map<string, nat> {
    if !failed then counts
    else if Counted(counts, id, luck) < limit then
      if luck.countWritten then counts[id := Counted(counts, id, luck)] else counts
    else if luck.stored && luck.reported && luck.countDeleted then counts - {id}
    else counts
  }

  /** Each counter moves with failures of its own kind alone. */
  lemma CountedExactly(cfg: Config, st: State, id: string, fetch: Fetch, luck: Luck)
    ensures var st' := ArchiveFile(cfg, st, id, fetch, luck).0;
            && st'.malformed == Recounted(st.malformed, id, luck, fetch == Fetched(false), cfg.malformedAttempts)
            && st'.unavailable
            == Recounted(st.unavailable, id, luck, fetch == Status(400) || fetch == Status(404) || fetch == Status(410),
                         cfg.unavailableAttempts)
  {
    match fetch
    case Fetched(true) =>
    case Fetched(false) => MalformedCounted(cfg, st, id, luck);
    case Status(code) => RefusedCounted(cfg, st, id, Permanent(code), luck);
    case Broken => RefusedCounted(cfg, st, id, false, luck);
  }

  lemma MalformedCounted(cfg: Config, st: State, id: string, luck: Luck)
    ensures var st' := HandleMalformed(cfg, st, id, luck).0;
            && st'.malformed == Recounted(st.malformed, id, luck, true, cfg.malformedAttempts)
            && st'.unavailable == st.unavailable
  {
  }

  lemma RefusedCounted(cfg: Config, st: State, id: string, permanent: bool, luck: Luck)
    ensures var st' := HandleDownloadFailure(cfg, st, id, permanent, luck).0;
            && st'.unavailable == Recounted(st.unavailable, id, luck, permanent, cfg.unavailableAttempts)
            && st'.malformed == st.malformed
  {
  }
}
