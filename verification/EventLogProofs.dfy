/**
 What the EventLogFile collector guarantees over any sequence of polls, crashes,
 failing calls and forgotten cache entries.
 */
module EventLogProofs {
  import opened Common
  import opened EventLog

  // -------------------------------------------------- markers and attempt counters

  /** A cached counter never exceeds the number of real failures. */
  ghost predicate CountsOk(counts: map<string, nat>, tally: map<string, nat>) {
    forall id :: id in counts ==> counts[id] <= Get(tally, id)
  }

  /** Every file in the set has failed at least n times. */
  ghost predicate Earned(ids: set<string>, tally: map<string, nat>, n: nat) {
    forall id :: id in ids ==> Get(tally, id) >= n
  }

  ghost predicate TallyGrows(tally: map<string, nat>, tally': map<string, nat>) {
    forall id :: Get(tally, id) <= Get(tally', id)
  }

  /** Markers stand for durable objects, counters never exceed what really happened,
      and a file passed as poison has really failed often enough. */
  ghost predicate Honest(cfg: Config, st: State) {
    && (forall id :: id in st.markers ==> id in Durable(st))
    && CountsOk(st.malformed, st.parseFailures) && CountsOk(st.unavailable, st.refusals)
    && Earned(st.quarantined, st.parseFailures, cfg.malformedAttempts)
    && Earned(st.tombstones, st.refusals, cfg.unavailableAttempts)
  }

  /** Nothing durable is ever taken back, and the tally only grows. */
  ghost predicate Extends(st: State, st': State) {
    && st.data <= st'.data && st.quarantined <= st'.quarantined && st.tombstones <= st'.tombstones
    && TallyGrows(st.parseFailures, st'.parseFailures) && TallyGrows(st.refusals, st'.refusals)
    && st'.watermark == st.watermark && st'.base == st.base
  }

  /** One more real failure keeps every counter honest, whatever the cache does. */
  lemma CountUp(counts: map<string, nat>, tally: map<string, nat>, id: string, luck: Luck)
    requires CountsOk(counts, tally)
    ensures var tally' := tally[id := Get(tally, id) + 1];
            var attempts := Attempts(counts, id, luck);
            && TallyGrows(tally, tally') && attempts <= Get(tally', id)
            && CountsOk(counts, tally') && CountsOk(Bump(counts, id, attempts, luck), tally')
            && CountsOk(Drop(counts, id, luck), tally')
  {
  }

  lemma EarnedPut(ids: set<string>, tally: map<string, nat>, tally': map<string, nat>, n: nat, id: string, luck: Luck)
    requires Earned(ids, tally, n) && TallyGrows(tally, tally')
    ensures Earned(ids, tally', n)
    ensures Get(tally', id) >= n ==> Earned(Put(ids, id, luck), tally', n)
  {
  }

  lemma MalformedHonest(cfg: Config, st: State, id: string, luck: Luck)
    requires Honest(cfg, st)
    ensures var (st', ok) := HandleMalformed(cfg, st, id, luck);
            Honest(cfg, st') && Extends(st, st') && (ok ==> id in st'.quarantined)
  {
    var tally := st.parseFailures[id := Get(st.parseFailures, id) + 1];
    CountUp(st.malformed, st.parseFailures, id, luck);
    EarnedPut(st.quarantined, st.parseFailures, tally, cfg.malformedAttempts, id, luck);
  }

  lemma RefusedHonest(cfg: Config, st: State, id: string, permanent: bool, luck: Luck)
    requires Honest(cfg, st)
    ensures var (st', ok) := HandleDownloadFailure(cfg, st, id, permanent, luck);
            Honest(cfg, st') && Extends(st, st') && (ok ==> permanent && id in st'.tombstones)
  {
    var tally := st.refusals[id := Get(st.refusals, id) + 1];
    CountUp(st.unavailable, st.refusals, id, luck);
    EarnedPut(st.tombstones, st.refusals, tally, cfg.unavailableAttempts, id, luck);
  }

  lemma ArchiveHonest(cfg: Config, st: State, id: string, fetch: Fetch, luck: Luck)
    requires Honest(cfg, st)
    ensures var (st', ok) := ArchiveFile(cfg, st, id, fetch, luck);
            Honest(cfg, st') && Extends(st, st') && (ok ==> id in Durable(st'))
  {
    match fetch {
      case Fetched(true) =>
      case Fetched(false) => MalformedHonest(cfg, st, id, luck);
      case Status(code) => RefusedHonest(cfg, st, id, Permanent(code), luck);
      case Broken => RefusedHonest(cfg, st, id, false, luck);
    }
  }

  /** A file is passed without its data only in the two ways that leave a durable
      trace: after enough real parse failures, or after enough permanent refusals.
      Anything transient leaves the state exactly as it was. */
  lemma PoisonPassedOnlyWhenDue(cfg: Config, st: State, id: string, fetch: Fetch, luck: Luck)
    requires Honest(cfg, st)
    ensures var (st', ok) := ArchiveFile(cfg, st, id, fetch, luck);
            && (ok && fetch == Fetched(false) ==>
                  id in st'.quarantined && Get(st'.parseFailures, id) >= cfg.malformedAttempts)
            && (ok && fetch.Status? ==>
                  id in st'.tombstones && Get(st'.refusals, id) >= cfg.unavailableAttempts)
            && (fetch.Broken? || (fetch.Status? && fetch.code !in {400, 404, 410}) ==> !ok && st' == st)
  {
    ArchiveHonest(cfg, st, id, fetch, luck);
  }

  /** With a working cache a file that keeps failing is passed at exactly the
      configured attempt, not before and not after. */
  lemma {:induction false} QuarantinedOnTime(cfg: Config, st: State, id: string, n: nat)
    requires cfg.malformedAttempts >= 1 && id !in st.malformed && 1 <= n <= cfg.malformedAttempts
    ensures var r := Repeat(cfg, st, id, n);
            && (r.1 <==> n == cfg.malformedAttempts)
            && (n < cfg.malformedAttempts ==> id in r.0.malformed && r.0.malformed[id] == n)
            && (n == cfg.malformedAttempts ==> id in r.0.quarantined && id !in r.0.malformed)
  {
    if n > 1 { QuarantinedOnTime(cfg, st, id, n - 1); }
  }

  const WORKING := Luck(true, true, true, true, true, true, true)

  /** n polls in a row that download the file and fail to parse it. */
  function Repeat(cfg: Config, st: State, id: string, n: nat): (State, bool)
    requires n >= 1
  {
    if n == 1 then HandleMalformed(cfg, st, id, WORKING)
    else HandleMalformed(cfg, Repeat(cfg, st, id, n - 1).0, id, WORKING)
  }

  /** How many of these answers are permanent refusals. */
  function Refusals(fetches: seq<Fetch>): nat {
    if fetches == [] then 0
    else
      var last := fetches[|fetches| - 1];
      Refusals(fetches[..|fetches| - 1])
      + if last == Status(400) || last == Status(404) || last == Status(410) then 1 else 0
  }

  /** Poll after poll that asks for the file and gets these answers. */
  function Asked(cfg: Config, st: State, id: string, fetches: seq<Fetch>): (State, bool) {
    if fetches == [] then (st, false)
    else
      ArchiveFile(cfg, Asked(cfg, st, id, fetches[..|fetches| - 1]).0, id, fetches[|fetches| - 1], WORKING)
  }

  /** With a working cache a file whose downloads keep failing, permanently or not in
      any mixture, is passed with a tombstone at exactly the permanent refusal the
      configuration names: other failures neither count nor reset the count. */
  lemma {:induction false} RefusedOnTime(cfg: Config, st: State, id: string, fetches: seq<Fetch>)
    requires cfg.unavailableAttempts >= 1 && id !in st.unavailable
    requires forall i :: 0 <= i < |fetches| ==> !fetches[i].Fetched?
    requires fetches != [] ==> Refusals(fetches[..|fetches| - 1]) < cfg.unavailableAttempts
    ensures var r := Asked(cfg, st, id, fetches);
            && (r.1 <==> Refusals(fetches) == cfg.unavailableAttempts)
            && (!r.1 ==> Get(r.0.unavailable, id) == Refusals(fetches) < cfg.unavailableAttempts
                         && r.0.tombstones == st.tombstones)
            && (r.1 ==> id in r.0.tombstones && id !in r.0.unavailable)
    decreases |fetches|
  {
    if fetches != [] {
      var front := fetches[..|fetches| - 1];
      RefusalsGrow(front);
      RefusedOnTime(cfg, st, id, front);
    }
  }

  lemma RefusalsGrow(fetches: seq<Fetch>)
    ensures fetches != [] ==> Refusals(fetches[..|fetches| - 1]) <= Refusals(fetches)
  {
  }

  // ------------------------------------------------------------------ the walk

  lemma ExtendsTransitive(a: State, b: State, c: State)
    requires Extends(a, b) && Extends(b, c)
    ensures Extends(a, c)
  {
  }

  lemma VisitHonest(cfg: Config, st: State, file: File, turn: Turn)
    requires Honest(cfg, st)
    ensures var (st', ok) := Visit(cfg, st, file, turn);
            Honest(cfg, st') && Extends(st, st') && (ok ==> file.id in Durable(st'))
  {
    ArchiveHonest(cfg, st, file.id, turn.fetch, turn.luck);
  }

  /** The newest CreatedDate of a list, starting from a mark. */
  function Newest(mark: Option<int>, files: seq<File>): Option<int>
    decreases |files|
  {
    if files == [] then mark else Newest(Later(mark, files[0].created), files[1..])
  }

  /** Every file a walk passes is durable afterwards, and its mark is the newest of
      exactly those files. */
  lemma {:induction false} WalkPasses(cfg: Config, st: State, listing: seq<File>, turns: seq<Turn>, mark: Option<int>)
    requires |turns| == |listing| && Honest(cfg, st)
    ensures var r := Walk(cfg, st, listing, turns, mark);
            && Honest(cfg, r.st) && Extends(st, r.st)
            && r.passed <= |listing| && (r.end.Finished? <==> r.passed == |listing|)
            && r.mark == Newest(mark, listing[..r.passed])
            && forall i :: 0 <= i < r.passed ==> listing[i].id in Durable(r.st)
    decreases |listing|
  {
    if listing != [] && !turns[0].crash && listing[0].dated {
      var (st', ok) := Visit(cfg, st, listing[0], turns[0]);
      VisitHonest(cfg, st, listing[0], turns[0]);
      if ok {
        var rest := Walk(cfg, st', listing[1..], turns[1..], Later(mark, listing[0].created));
        WalkPasses(cfg, st', listing[1..], turns[1..], Later(mark, listing[0].created));
        ExtendsTransitive(st, st', rest.st);
        assert listing[..rest.passed + 1][1..] == listing[1..][..rest.passed];
        assert forall i :: 0 < i < rest.passed + 1 ==> listing[i] == listing[1..][i - 1];
      }
    }
  }

  lemma {:induction false} NewestBounds(mark: Option<int>, files: seq<File>, hi: int)
    requires mark.Some? ==> mark.value <= hi
    requires forall i :: 0 <= i < |files| ==> files[i].created <= hi
    ensures Newest(mark, files).Some? ==> Newest(mark, files).value <= hi
    ensures mark.Some? ==> Newest(mark, files).Some? && mark.value <= Newest(mark, files).value
    decreases |files|
  {
    if files != [] {
      NewestBounds(Later(mark, files[0].created), files[1..], hi);
    }
  }

  /** The mark is the old watermark or the date of a passed file. */
  lemma {:induction false} NewestIsOne(mark: Option<int>, files: seq<File>) returns (k: nat)
    ensures Newest(mark, files) == mark ||
            (k < |files| && Newest(mark, files) == Some(files[k].created))
    decreases |files|
  {
    k := 0;
    if files != [] {
      var j := NewestIsOne(Later(mark, files[0].created), files[1..]);
      if Newest(mark, files) == Later(mark, files[0].created) {
        k := 0;
      } else {
        k := j + 1;
      }
    }
  }

  // ------------------------------------------------------------ watermark safety

  /** Files that the stored watermark answers for: not older than the window of the
      first stored watermark, and visible within the overlap of their date. */
  ghost predicate Owed(cfg: Config, base: Option<int>, f: File) {
    base.Some? && f.created >= base.value && f.visible <= f.created + cfg.overlap
  }

  /** No unarchived file has fallen behind the watermark by more than the overlap. */
  ghost predicate Safe(universe: iset<File>, cfg: Config, st: State, clock: int) {
    && Honest(cfg, st)
    && st.watermark.Some? == st.base.Some?
    && (st.watermark.Some? ==> st.watermark.value <= FloorTo(clock, SECOND))
    && forall f :: f in universe && Owed(cfg, st.base, f) && f.id !in Durable(st) ==>
         f.created >= st.watermark.value - cfg.overlap
  }

  /** One file and one stopping point of a walk: if the file is still unarchived it
      lies no further than the overlap behind the mark. */
  lemma UnarchivedStaysClose(universe: iset<File>, cfg: Config, st: State, poll: Poll, clock: int, r: Walked, f: File)
    requires Safe(universe, cfg, st, clock) && clock <= poll.began && cfg.overlap >= 0
    requires poll.listable && Plausible(universe, cfg, st, poll)
    requires r == Walk(cfg, st, poll.listing, poll.turns, st.watermark)
    requires f in universe && f.visible <= f.created + cfg.overlap && f.id !in Durable(r.st) && r.mark.Some?
    requires st.watermark.None? ==> f.created >= WindowStart(cfg, st, poll)
    requires st.watermark.Some? ==> f.created >= st.base.value
    ensures f.created >= r.mark.value - cfg.overlap
  {
    WalkPasses(cfg, st, poll.listing, poll.turns, st.watermark);
    assert f.id !in Durable(st);
    var passed := poll.listing[..r.passed];
    var k := NewestIsOne(st.watermark, passed);
    if r.mark != st.watermark {
      var g := passed[k];
      assert g == poll.listing[k] && g in poll.listing;
      if f in poll.listing {
        var i :| 0 <= i < |poll.listing| && poll.listing[i] == f;
        assert i >= r.passed;
        assert g.created <= f.created;
      }
    }
  }

  /** The watermark a poll may store is bounded by its window and never goes back. */
  lemma MarkInWindow(universe: iset<File>, cfg: Config, st: State, poll: Poll, clock: int)
    requires Safe(universe, cfg, st, clock) && clock <= poll.began
    requires poll.listable && Plausible(universe, cfg, st, poll)
    ensures var r := Walk(cfg, st, poll.listing, poll.turns, st.watermark);
            && (r.mark.Some? ==> r.mark.value <= WindowEnd(poll))
            && (st.watermark.Some? ==> r.mark.Some? && st.watermark.value <= r.mark.value)
  {
    var r := Walk(cfg, st, poll.listing, poll.turns, st.watermark);
    WalkPasses(cfg, st, poll.listing, poll.turns, st.watermark);
    var passed := poll.listing[..r.passed];
    forall i | 0 <= i < |passed| ensures passed[i].created <= WindowEnd(poll) {
      assert passed[i] in poll.listing;
    }
    NewestBounds(st.watermark, passed, WindowEnd(poll));
  }

  lemma FloorMonotone(a: int, b: int)
    requires a <= b
    ensures FloorTo(a, SECOND) <= FloorTo(b, SECOND)
  {
  }

  lemma SavedSafe(universe: iset<File>, cfg: Config, st: State, poll: Poll, clock: int, r: Walked)
    requires Safe(universe, cfg, st, clock) && clock <= poll.began && cfg.overlap >= 0
    requires poll.listable && Plausible(universe, cfg, st, poll)
    requires r == Walk(cfg, st, poll.listing, poll.turns, st.watermark) && r.mark.Some?
    ensures Safe(universe, cfg,
                 r.st.(watermark := Some(FloorTo(r.mark.value, MILLISECOND)),
                       base := if st.base.None? then Some(WindowStart(cfg, st, poll)) else st.base),
                 poll.listed)
  {
    WalkPasses(cfg, st, poll.listing, poll.turns, st.watermark);
    MarkInWindow(universe, cfg, st, poll, clock);
    var base := if st.base.None? then Some(WindowStart(cfg, st, poll)) else st.base;
    FloorMonotone(poll.ended, poll.listed);
    forall f | f in universe && Owed(cfg, base, f) && f.id !in Durable(r.st)
      ensures f.created >= FloorTo(r.mark.value, MILLISECOND) - cfg.overlap
    {
      UnarchivedStaysClose(universe, cfg, st, poll, clock, r, f);
    }
  }

  lemma UnsavedSafe(universe: iset<File>, cfg: Config, st: State, clock: int, st': State, later: int)
    requires Safe(universe, cfg, st, clock) && clock <= later
    requires Honest(cfg, st') && Extends(st, st')
    ensures Safe(universe, cfg, st', later)
  {
    forall f | f in universe && Owed(cfg, st'.base, f) && f.id !in Durable(st')
      ensures f.created >= st'.watermark.value - cfg.overlap
    {
      assert f.id !in Durable(st);
    }
  }

  /** Every poll, however it ends, keeps the watermark safe. */
  lemma PollKeepsSafe(universe: iset<File>, cfg: Config, st: State, poll: Poll, clock: int)
    requires Safe(universe, cfg, st, clock) && clock <= poll.began && cfg.overlap >= 0
    requires Plausible(universe, cfg, st, poll)
    ensures Safe(universe, cfg, AfterPoll(cfg, st, poll), poll.listed)
  {
    if poll.readable && poll.listable {
      var r := Walk(cfg, st, poll.listing, poll.turns, st.watermark);
      WalkPasses(cfg, st, poll.listing, poll.turns, st.watermark);
      if (r.end.Finished? || r.end.Blocked?) && r.mark.Some? && poll.saved {
        SavedSafe(universe, cfg, st, poll, clock, r);
      } else {
        UnsavedSafe(universe, cfg, st, clock, r.st, poll.listed);
      }
    } else {
      UnsavedSafe(universe, cfg, st, clock, st, poll.listed);
    }
  }

  // -------------------------------------------------------------- whole histories

  /** What can happen between polls: cache entries expire or are lost. Watermarks
      are stored without expiry. */
  datatype Happening =
    | Polled(poll: Poll)
    | Forgotten(markers: set<string>, counters: set<string>)

  function AfterHappening(cfg: Config, st: State, h: Happening): State
    requires h.Polled? ==> |h.poll.turns| == |h.poll.listing|
  {
    match h
    case Polled(poll) => AfterPoll(cfg, st, poll)
    case Forgotten(markers, counters) =>
      st.(markers := st.markers - markers, malformed := st.malformed - counters,
          unavailable := st.unavailable - counters)
  }

  /** A history whose clock never runs backwards. */
  ghost predicate Possible(universe: iset<File>, cfg: Config, st: State, clock: int, history: seq<Happening>)
    decreases |history|
  {
    history == [] ||
    match history[0]
    case Polled(poll) =>
      && clock <= poll.began && Plausible(universe, cfg, st, poll)
      && Possible(universe, cfg, AfterPoll(cfg, st, poll), poll.listed, history[1..])
    case Forgotten(_, _) => Possible(universe, cfg, AfterHappening(cfg, st, history[0]), clock, history[1..])
  }

  ghost function Outcome(universe: iset<File>, cfg: Config, st: State, clock: int, history: seq<Happening>)
    : (State, int)
    requires Possible(universe, cfg, st, clock, history)
    decreases |history|
  {
    if history == [] then (st, clock)
    else
      match history[0]
      case Polled(poll) => Outcome(universe, cfg, AfterPoll(cfg, st, poll), poll.listed, history[1..])
      case Forgotten(_, _) => Outcome(universe, cfg, AfterHappening(cfg, st, history[0]), clock, history[1..])
  }

  lemma ForgettingIsSafe(universe: iset<File>, cfg: Config, st: State, clock: int, h: Happening)
    requires Safe(universe, cfg, st, clock) && h.Forgotten?
    ensures Safe(universe, cfg, AfterHappening(cfg, st, h), clock)
  {
    UnsavedSafe(universe, cfg, st, clock, AfterHappening(cfg, st, h), clock);
  }

  /** From the first stored watermark on, over any history of failing polls, crashes
      and lost cache entries, every file the watermark answers for is archived or
      still within the overlap. */
  lemma {:induction false} WatermarkSafety(universe: iset<File>, cfg: Config, st: State, clock: int,
                                           history: seq<Happening>)
    requires Safe(universe, cfg, st, clock) && cfg.overlap >= 0
    requires Possible(universe, cfg, st, clock, history)
    ensures var (st', clock') := Outcome(universe, cfg, st, clock, history);
            Safe(universe, cfg, st', clock')
    decreases |history|
  {
    if history != [] {
      match history[0] {
        case Polled(poll) =>
          PollKeepsSafe(universe, cfg, st, poll, clock);
          WatermarkSafety(universe, cfg, AfterPoll(cfg, st, poll), poll.listed, history[1..]);
        case Forgotten(_, _) =>
          ForgettingIsSafe(universe, cfg, st, clock, history[0]);
          WatermarkSafety(universe, cfg, AfterHappening(cfg, st, history[0]), clock, history[1..]);
      }
    }
  }

  /** In particular from a cache that has never been used. */
  lemma SafeFromTheStart(universe: iset<File>, cfg: Config, clock: int, history: seq<Happening>)
    requires cfg.overlap >= 0 && Possible(universe, cfg, BLANK, clock, history)
    ensures var (st', clock') := Outcome(universe, cfg, BLANK, clock, history);
            Safe(universe, cfg, st', clock')
  {
    WatermarkSafety(universe, cfg, BLANK, clock, history);
  }

  /** So an unarchived file is on the listing of every later poll that can see it. */
  lemma StaysListable(universe: iset<File>, cfg: Config, st: State, poll: Poll, clock: int, f: File)
    requires Safe(universe, cfg, st, clock) && st.watermark.Some?
    requires poll.listable && Plausible(universe, cfg, st, poll)
    requires f in universe && Owed(cfg, st.base, f) && f.id !in Durable(st)
    requires f.visible <= poll.listed && f.created <= WindowEnd(poll)
    ensures f in poll.listing
  {
  }

  /** And the first poll that succeeds archives it. */
  lemma SuccessArchivesEverything(universe: iset<File>, cfg: Config, st: State, poll: Poll, clock: int, f: File)
    requires Safe(universe, cfg, st, clock) && Plausible(universe, cfg, st, poll) && Succeeds(cfg, st, poll)
    requires f in universe && f.visible <= poll.listed && f.created <= WindowEnd(poll)
    requires if st.watermark.Some? then Owed(cfg, st.base, f) else f.created >= WindowStart(cfg, st, poll)
    ensures f.id in Durable(AfterPoll(cfg, st, poll))
  {
    WalkPasses(cfg, st, poll.listing, poll.turns, st.watermark);
    if f.id !in Durable(st) {
      if st.watermark.Some? {
        StaysListable(universe, cfg, st, poll, clock, f);
      }
      assert f in poll.listing;
      var i :| 0 <= i < |poll.listing| && poll.listing[i] == f;
    }
  }

  /** The stored watermark never goes back and never passes the poll's window. */
  lemma WatermarkAdvances(universe: iset<File>, cfg: Config, st: State, poll: Poll, clock: int)
    requires Safe(universe, cfg, st, clock) && clock <= poll.began && Plausible(universe, cfg, st, poll)
    requires st.watermark.Some? ==> st.watermark.value % MILLISECOND == 0
    ensures var st' := AfterPoll(cfg, st, poll);
            && (st.watermark.Some? ==> st'.watermark.Some? && st.watermark.value <= st'.watermark.value)
            && (st'.watermark.Some? ==>
                  st'.watermark.value % MILLISECOND == 0 && st'.watermark.value <= WindowEnd(poll))
  {
    FloorMonotone(clock, poll.ended);
    if poll.readable && poll.listable {
      MarkInWindow(universe, cfg, st, poll, clock);
      var r := Walk(cfg, st, poll.listing, poll.turns, st.watermark);
      WalkPasses(cfg, st, poll.listing, poll.turns, st.watermark);
      SavedMark(cfg, st, poll, r);
    }
  }

  lemma SavedMark(cfg: Config, st: State, poll: Poll, r: Walked)
    requires r.st.watermark == st.watermark
    requires st.watermark.Some? ==> st.watermark.value % MILLISECOND == 0
    requires st.watermark.Some? ==> r.mark.Some? && st.watermark.value <= r.mark.value
    requires r.mark.Some? ==> r.mark.value <= WindowEnd(poll)
    ensures var w := Save(cfg, st, poll, r).watermark;
            && (st.watermark.Some? ==> w.Some? && st.watermark.value <= w.value)
            && (w.Some? ==> w.value % MILLISECOND == 0 && w.value <= WindowEnd(poll))
  {
    if r.mark.Some? {
      FloorKeeps(if st.watermark.Some? then st.watermark.value else 0, r.mark.value);
    }
  }

  lemma FloorKeeps(a: int, t: int)
    requires a % MILLISECOND == 0
    ensures FloorTo(t, MILLISECOND) % MILLISECOND == 0
    ensures a <= t ==> a <= FloorTo(t, MILLISECOND)
  {
  }

  /** A poll that stops at a file never moves the watermark past that file, and a
      poll that crashes or meets an unreadable date does not move it at all. */
  lemma StopNeverPasses(universe: iset<File>, cfg: Config, st: State, poll: Poll)
    requires Honest(cfg, st) && poll.readable && poll.listable && Plausible(universe, cfg, st, poll)
    ensures var r := Walk(cfg, st, poll.listing, poll.turns, st.watermark);
            var st' := AfterPoll(cfg, st, poll);
            && (r.end.Crashed? || r.end.Undated? ==> st'.watermark == st.watermark)
            && (r.end.Blocked? ==>
                  && r.passed < |poll.listing|
                  && (r.mark != st.watermark && st'.watermark != st.watermark ==>
                        st'.watermark.Some? && st'.watermark.value <= poll.listing[r.passed].created))
  {
    var r := Walk(cfg, st, poll.listing, poll.turns, st.watermark);
    WalkPasses(cfg, st, poll.listing, poll.turns, st.watermark);
    var k := NewestIsOne(st.watermark, poll.listing[..r.passed]);
    if r.end.Blocked? && r.mark != st.watermark {
      assert poll.listing[..r.passed][k] == poll.listing[k];
    }
  }
}
