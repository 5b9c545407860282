/**
 Collecting EventLogFiles: the watermark, the overlap window, processed markers,
 and the attempt counters that let a poison file be passed.

 Instants are nanoseconds. The cache and the archive may fail at any call; what
 they do is an input of each operation.
 */
module EventLog {
  import opened Common

  const MILLISECOND: int := 1_000_000
  const SECOND: int := 1_000_000_000

  /** An instant cut down to a coarser clock. */
  function FloorTo(t: int, unit: int): (f: int)
    requires unit > 0
    ensures f <= t < f + unit
  {
    t - t % unit
  }

  /** A log file: when it was created, when it appears in listings, and whether its
      CreatedDate can be read. */
  datatype File = File(id: string, created: int, visible: int, dated: bool)

  datatype Config = Config(overlap: int, initial: int, malformedAttempts: nat, unavailableAttempts: nat)

  /** Defaults of the options. */
  function Normalised(overlapMinutes: int, hours: int, minutes: int, malformed: int, unavailable: int): (cfg: Config)
    ensures cfg.malformedAttempts >= 1 && cfg.unavailableAttempts >= 1 && cfg.overlap > 0
    ensures malformed <= 0 ==> cfg.malformedAttempts == 3
    ensures unavailable <= 0 ==> cfg.unavailableAttempts == 5
    ensures overlapMinutes <= 0 ==> cfg.overlap == 60 * 60 * SECOND
    ensures overlapMinutes > 0 ==> cfg.overlap == overlapMinutes * 60 * SECOND
    ensures malformed > 0 ==> cfg.malformedAttempts == malformed
    ensures unavailable > 0 ==> cfg.unavailableAttempts == unavailable
    ensures cfg.initial == if hours * 60 + minutes == 0 then 60 * 60 * SECOND else (hours * 60 + minutes) * 60 * SECOND
  {
    var d := (hours * 60 + minutes) * 60 * SECOND;
    Config(if overlapMinutes > 0 then overlapMinutes * 60 * SECOND else 60 * 60 * SECOND,
           if d == 0 then 60 * 60 * SECOND else d,
           if malformed > 0 then malformed else 3,
           if unavailable > 0 then unavailable else 5)
  }

  /** The cache, the archive, and a tally of what really happened: how often each
      file failed to parse or was permanently refused, and where the first stored
      watermark's window began. */
  datatype State = State(
    watermark: Option<int>,
    markers: set<string>,
    malformed: map<string, nat>,
    unavailable: map<string, nat>,
    data: set<string>,
    quarantined: set<string>,
    tombstones: set<string>,
    parseFailures: map<string, nat>,
    refusals: map<string, nat>,
    base: Option<int>)

  const BLANK := State(None, {}, map[], map[], {}, {}, {}, map[], map[], None)

  function Durable(st: State): set<string> { st.data + st.quarantined + st.tombstones }

  function Get(m: map<string, nat>, id: string): nat { if id in m then m[id] else 0 }

  // ----------------------------------------------------------------- one file

  /** What a download brings: a file that parses or not, an HTTP status, or an
      error that is no answer at all. */
  datatype Fetch = Fetched(wellFormed: bool) | Status(code: int) | Broken

  /** Which cache and archive calls work while one file is processed. A write may
      store its object and still report an error. */
  datatype Luck = Luck(markerRead: bool, countRead: bool, countWritten: bool, countDeleted: bool,
                       stored: bool, reported: bool, marked: bool)

  /** An allowlist: only statuses that cannot recover are permanent. */
  predicate Permanent(code: int) { code == 400 || code == 404 || code == 410 }

  function Attempts(counts: map<string, nat>, id: string, luck: Luck): nat {
    if luck.countRead then Get(counts, id) + 1 else 1
  }

  function Bump(counts: map<string, nat>, id: string, attempts: nat, luck: Luck): map<string, nat> {
    if luck.countWritten then counts[id := attempts] else counts
  }

  function Drop(counts: map<string, nat>, id: string, luck: Luck): map<string, nat> {
    if luck.countDeleted then counts - {id} else counts
  }

  function Put(ids: set<string>, id: string, luck: Luck): set<string> {
    if luck.stored then ids + {id} else ids
  }

  predicate Reported(luck: Luck) { luck.stored && luck.reported }

  /** A file that does not parse: retried until it has failed often enough, then
      kept raw in quarantine. */
  function HandleMalformed(cfg: Config, st0: State, id: string, luck: Luck): (State, bool) {
    var st := st0.(parseFailures := st0.parseFailures[id := Get(st0.parseFailures, id) + 1]);
    var attempts := Attempts(st.malformed, id, luck);
    if attempts < cfg.malformedAttempts then (st.(malformed := Bump(st.malformed, id, attempts, luck)), false)
    else
      var kept := st.(quarantined := Put(st.quarantined, id, luck));
      if Reported(luck) then (kept.(malformed := Drop(st.malformed, id, luck)), true) else (kept, false)
  }

  /** A download that fails: transient failures always block, a permanently refused
      file is recorded as unavailable once it has been refused often enough. */
  function HandleDownloadFailure(cfg: Config, st0: State, id: string, permanent: bool, luck: Luck): (State, bool) {
    if !permanent then (st0, false)
    else
      var st := st0.(refusals := st0.refusals[id := Get(st0.refusals, id) + 1]);
      var attempts := Attempts(st.unavailable, id, luck);
      if attempts < cfg.unavailableAttempts then (st.(unavailable := Bump(st.unavailable, id, attempts, luck)), false)
      else
        var kept := st.(tombstones := Put(st.tombstones, id, luck));
        if Reported(luck) then (kept.(unavailable := Drop(st.unavailable, id, luck)), true) else (kept, false)
  }

  function ArchiveFile(cfg: Config, st: State, id: string, fetch: Fetch, luck: Luck): (State, bool) {
    match fetch
    case Fetched(true) => (st.(data := Put(st.data, id, luck)), Reported(luck))
    case Fetched(false) => HandleMalformed(cfg, st, id, luck)
    case Status(code) => HandleDownloadFailure(cfg, st, id, Permanent(code), luck)
    case Broken => HandleDownloadFailure(cfg, st, id, false, luck)
  }

  // ----------------------------------------------------------------- one poll

  datatype Turn = Turn(crash: bool, fetch: Fetch, luck: Luck)

  /** How the walk over a listing ends: all passed, stopped at a file that could not
      be archived or dated, or cut off by a crash. */
  datatype End = Finished | Blocked | Undated | Crashed

  /** `passed` files were dealt with; `mark` is the newest CreatedDate among them and
      the watermark the poll began with. */
  datatype Walked = Walked(st: State, end: End, passed: nat, mark: Option<int>)

  function Later(mark: Option<int>, created: int): Option<int> {
    if mark.None? || created > mark.value then Some(created) else mark
  }

  function Pass(st: State, id: string, luck: Luck): State {
    if luck.marked then st.(markers := st.markers + {id}) else st
  }

  function Visit(cfg: Config, st: State, file: File, turn: Turn): (State, bool) {
    if turn.luck.markerRead && file.id in st.markers then (st, true)
    else
      var (st', ok) := ArchiveFile(cfg, st, file.id, turn.fetch, turn.luck);
      if ok then (Pass(st', file.id, turn.luck), true) else (st', false)
  }

  function Walk(cfg: Config, st: State, listing: seq<File>, turns: seq<Turn>, mark: Option<int>): Walked
    requires |turns| == |listing|
    decreases |listing|
  {
    if listing == [] then Walked(st, Finished, 0, mark)
    else if turns[0].crash then Walked(st, Crashed, 0, mark)
    else if !listing[0].dated then Walked(st, Undated, 0, mark)
    else
      var (st', ok) := Visit(cfg, st, listing[0], turns[0]);
      if !ok then Walked(st', Blocked, 0, mark)
      else
        var r := Walk(cfg, st', listing[1..], turns[1..], Later(mark, listing[0].created));
        Walked(r.st, r.end, r.passed + 1, r.mark)
  }

  /** What one poll meets: the clock when the window is opened and closed, the
      instant of the listing, and which calls work. */
  datatype Poll = Poll(began: int, ended: int, listed: int, readable: bool, listable: bool,
                       listing: seq<File>, turns: seq<Turn>, saved: bool)

  function Since(cfg: Config, st: State, poll: Poll): int {
    if st.watermark.Some? then st.watermark.value - cfg.overlap else poll.began - cfg.initial
  }

  /** SOQL compares whole seconds. */
  function WindowStart(cfg: Config, st: State, poll: Poll): int { FloorTo(Since(cfg, st, poll), SECOND) }

  function WindowEnd(poll: Poll): int { FloorTo(poll.ended, SECOND) }

  /** Stores the watermark in milliseconds. */
  function Save(cfg: Config, before: State, poll: Poll, r: Walked): State {
    if (r.end.Finished? || r.end.Blocked?) && r.mark.Some? && poll.saved then
      r.st.(watermark := Some(FloorTo(r.mark.value, MILLISECOND)),
            base := if r.st.base.None? then Some(WindowStart(cfg, before, poll)) else r.st.base)
    else r.st
  }

  function AfterPoll(cfg: Config, st: State, poll: Poll): State
    requires |poll.turns| == |poll.listing|
  {
    if !poll.readable || !poll.listable then st
    else Save(cfg, st, poll, Walk(cfg, st, poll.listing, poll.turns, st.watermark))
  }

  predicate Succeeds(cfg: Config, st: State, poll: Poll)
    requires |poll.turns| == |poll.listing|
  {
    poll.readable && poll.listable && Walk(cfg, st, poll.listing, poll.turns, st.watermark).end.Finished?
  }

  /** The listing the server returns: every file visible at that instant inside the
      window, oldest first. */
  ghost predicate IsListing(universe: iset<File>, listing: seq<File>, lo: int, hi: int, at: int) {
    && (forall f :: f in listing <==> f in universe && f.visible <= at && lo <= f.created <= hi)
    && (forall i, j :: 0 <= i < j < |listing| ==> listing[i].created <= listing[j].created)
  }

  ghost predicate Plausible(universe: iset<File>, cfg: Config, st: State, poll: Poll) {
    && poll.began <= poll.ended <= poll.listed
    && |poll.turns| == |poll.listing|
    && (poll.listable ==> IsListing(universe, poll.listing, WindowStart(cfg, st, poll), WindowEnd(poll), poll.listed))
  }
}
