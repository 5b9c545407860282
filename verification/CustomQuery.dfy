/**
 Collecting the rows of a custom SOQL query: window, de-duplication markers and
 chunked writes.
 */
module CustomQuery {
  import opened Common
  import opened EventLog

  /** One version of a row: its de-duplication key (empty when it has no identifier),
      the value of the field the query selects on, and the span in which queries
      see it (an update replaces it by another version). */
  datatype Row = Row(key: string, selected: int, visible: int, gone: int)

  datatype Settings = Settings(overlap: int, initial: int, recordsPerObject: int)

  /** How many rows go into one object. */
  function PerObject(cfg: Settings): (n: nat)
    ensures n > 0 && (cfg.recordsPerObject > 0 ==> n == cfg.recordsPerObject)
    ensures cfg.recordsPerObject <= 0 ==> n == 10_000
  {
    if cfg.recordsPerObject <= 0 then 10_000 else cfg.recordsPerObject
  }

  /** `objects` are the objects written, in order. */
  datatype Store = Store(watermark: Option<int>, markers: set<string>, archived: set<Row>, objects: seq<seq<Row>>,
                         base: Option<int>)

  const EMPTY_STORE := Store(None, {}, {}, [], None)

  /** How one chunk's write goes, and which markers are stored afterwards. */
  datatype Chunk = Chunk(stored: bool, reported: bool, marked: set<string>)

  datatype Query = Query(began: int, ended: int, asked: int, readable: bool, answered: bool,
                         rows: seq<Row>, unread: set<string>, chunks: seq<Chunk>, saved: bool)

  function KeysOf(rows: seq<Row>): set<string> { set r | r in rows && r.key != "" :: r.key }

  /** Writes one chunk; rows are marked only once they are durable. */
  function FlushChunk(st: Store, pending: seq<Row>, chunk: Chunk): (Store, bool) {
    if pending == [] then (st, true)
    else
      var kept := if chunk.stored
                  then st.(archived := st.archived + (set r | r in pending), objects := st.objects + [pending])
                  else st;
      if chunk.stored && chunk.reported then (kept.(markers := kept.markers + KeysOf(pending) * chunk.marked), true)
      else (kept, false)
  }

  predicate Known(st: Store, row: Row, unread: set<string>) {
    row.key != "" && row.key !in unread && row.key in st.markers
  }

  /** The loop over the rows; n counts the chunks written so far. */
  function Sweep(cfg: Settings, st: Store, rows: seq<Row>, pending: seq<Row>, unread: set<string>, chunks: seq<Chunk>)
    : (Store, bool)
    requires |chunks| > |rows|
    decreases |rows|
  {
    if rows == [] then FlushChunk(st, pending, chunks[0])
    else if Known(st, rows[0], unread) then Sweep(cfg, st, rows[1..], pending, unread, chunks[1..])
    else
      var more := pending + [rows[0]];
      if |more| >= PerObject(cfg) then
        var (st', ok) := FlushChunk(st, more, chunks[0]);
        if !ok then (st', false) else Sweep(cfg, st', rows[1..], [], unread, chunks[1..])
      else Sweep(cfg, st, rows[1..], more, unread, chunks[1..])
  }

  function Start(cfg: Settings, st: Store, q: Query): int {
    FloorTo(if st.watermark.Some? then st.watermark.value - cfg.overlap else q.began - cfg.initial, SECOND)
  }

  function Until(q: Query): int { FloorTo(q.ended, SECOND) }

  function AfterQuery(cfg: Settings, st: Store, q: Query): (Store, bool)
    requires |q.chunks| > |q.rows|
  {
    if !q.readable || !q.answered then (st, false)
    else
      var (st', ok) := Sweep(cfg, st, q.rows, [], q.unread, q.chunks);
      if !ok then (st', false)
      else if q.saved then
        (st'.(watermark := Some(Until(q)), base := if st'.base.None? then Some(Start(cfg, st, q)) else st'.base), true)
      else (st', true)
  }

  // ------------------------------------------------------------------ guarantees

  /** A row version is safe once it, or a row with the same key, is archived. */
  ghost predicate Kept(st: Store, row: Row) {
    row in st.archived || (row.key != "" && exists r :: r in st.archived && r.key == row.key)
  }

  /** A marker stands for a durable row. */
  ghost predicate MarkersHonest(st: Store) {
    forall key :: key in st.markers ==> exists r :: r in st.archived && r.key == key
  }

  ghost predicate Only(st: Store, st': Store) {
    st.archived <= st'.archived && st'.watermark == st.watermark && st'.base == st.base
  }

  lemma FlushKeeps(st: Store, pending: seq<Row>, chunk: Chunk)
    requires MarkersHonest(st)
    ensures var (st', ok) := FlushChunk(st, pending, chunk);
            && MarkersHonest(st') && Only(st, st')
            && (ok ==> forall r :: r in pending ==> r in st'.archived)
  {
    var (st', ok) := FlushChunk(st, pending, chunk);
    forall key | key in st'.markers ensures exists r :: r in st'.archived && r.key == key {
      if key !in st.markers {
        var r :| r in pending && r.key == key;
        assert r in st'.archived;
      } else {
        var r :| r in st.archived && r.key == key;
        assert r in st'.archived;
      }
    }
  }

  lemma KeptStays(st: Store, st': Store, row: Row)
    requires Only(st, st') && Kept(st, row)
    ensures Kept(st', row)
  {
    if row !in st.archived {
      var r :| r in st.archived && r.key == row.key;
      assert r in st'.archived;
    }
  }

  /** A sweep that succeeds keeps every row it was given and every row that was
      waiting to be written; one that fails loses nothing. */
  lemma {:induction false} SweepKeeps(cfg: Settings, st: Store, rows: seq<Row>, pending: seq<Row>,
                                      unread: set<string>, chunks: seq<Chunk>)
    requires |chunks| > |rows| && MarkersHonest(st)
    ensures var (st', ok) := Sweep(cfg, st, rows, pending, unread, chunks);
            && MarkersHonest(st') && Only(st, st')
            && (ok ==> forall r :: r in pending ==> r in st'.archived)
            && (ok ==> forall r :: r in rows ==> Kept(st', r))
    decreases |rows|
  {
    if rows == [] {
      FlushKeeps(st, pending, chunks[0]);
    } else if Known(st, rows[0], unread) {
      SweepKeeps(cfg, st, rows[1..], pending, unread, chunks[1..]);
      var (st', ok) := Sweep(cfg, st, rows[1..], pending, unread, chunks[1..]);
      assert Kept(st, rows[0]);
      KeptStays(st, st', rows[0]);
      assert rows == [rows[0]] + rows[1..];
    } else {
      var more := pending + [rows[0]];
      assert rows == [rows[0]] + rows[1..];
      assert rows[0] in more && forall r :: r in pending ==> r in more;
      if |more| >= PerObject(cfg) {
        FlushKeeps(st, more, chunks[0]);
        var (st1, ok1) := FlushChunk(st, more, chunks[0]);
        if ok1 { SweepKeeps(cfg, st1, rows[1..], [], unread, chunks[1..]); }
      } else {
        SweepKeeps(cfg, st, rows[1..], more, unread, chunks[1..]);
      }
    }
  }

  /** The answer of the server: exactly the rows it sees inside the window. */
  ghost predicate IsAnswer(universe: iset<Row>, rows: seq<Row>, lo: int, hi: int, at: int) {
    forall r :: r in rows <==> r in universe && r.visible <= at < r.gone && lo <= r.selected <= hi
  }

  ghost predicate Plausible(universe: iset<Row>, cfg: Settings, st: Store, q: Query) {
    && q.began <= q.ended <= q.asked && |q.chunks| > |q.rows|
    && (q.answered ==> IsAnswer(universe, q.rows, Start(cfg, st, q), Until(q), q.asked))
  }

  ghost predicate Owed(cfg: Settings, base: Option<int>, r: Row) {
    base.Some? && r.selected >= base.value && r.visible <= r.selected + cfg.overlap
  }

  /** Every row version the watermark answers for is kept, still within the overlap,
      or has been replaced by a newer version. */
  ghost predicate Safe(universe: iset<Row>, cfg: Settings, st: Store, clock: int) {
    && MarkersHonest(st)
    && st.watermark.Some? == st.base.Some?
    && (st.watermark.Some? ==> st.watermark.value <= FloorTo(clock, SECOND))
    && forall r :: r in universe && Owed(cfg, st.base, r) && clock < r.gone && !Kept(st, r) ==>
         r.selected >= st.watermark.value - cfg.overlap
  }

  lemma StaysSafe(universe: iset<Row>, cfg: Settings, st: Store, clock: int, st': Store, later: int)
    requires Safe(universe, cfg, st, clock) && clock <= later && MarkersHonest(st') && Only(st, st')
    ensures Safe(universe, cfg, st', later)
  {
    forall r | r in universe && Owed(cfg, st'.base, r) && later < r.gone && !Kept(st', r)
      ensures r.selected >= st'.watermark.value - cfg.overlap
    {
      if Kept(st, r) { KeptStays(st, st', r); }
    }
  }

  /** Any poll of the query keeps the watermark safe; a failed one leaves the
      watermark where it was. */
  lemma QueryKeepsSafe(universe: iset<Row>, cfg: Settings, st: Store, q: Query, clock: int)
    requires Safe(universe, cfg, st, clock) && clock <= q.began && cfg.overlap >= 0
    requires Plausible(universe, cfg, st, q)
    ensures var (st', ok) := AfterQuery(cfg, st, q);
            Safe(universe, cfg, st', q.asked) && (!ok ==> st'.watermark == st.watermark)
  {
    if !q.readable || !q.answered {
      StaysSafe(universe, cfg, st, clock, st, q.asked);
    } else {
      SweepKeeps(cfg, st, q.rows, [], q.unread, q.chunks);
      var (st1, ok) := Sweep(cfg, st, q.rows, [], q.unread, q.chunks);
      if !ok || !q.saved {
        StaysSafe(universe, cfg, st, clock, st1, q.asked);
      } else {
        var st' := AfterQuery(cfg, st, q).0;
        forall r | r in universe && Owed(cfg, st'.base, r) && q.asked < r.gone && !Kept(st', r)
          ensures r.selected >= Until(q) - cfg.overlap
        {
          assert !Kept(st1, r);
          if Kept(st, r) { KeptStays(st, st1, r); }
          assert r !in q.rows;
        }
      }
    }
  }

  /** After a successful poll every row version in the window that the query could
      see is archived, and the next window begins no later than this one ended. */
  lemma SuccessKeepsTheWindow(universe: iset<Row>, cfg: Settings, st: Store, q: Query, clock: int, r: Row)
    requires Safe(universe, cfg, st, clock) && clock <= q.began && cfg.overlap >= 0
    requires Plausible(universe, cfg, st, q) && AfterQuery(cfg, st, q).1
    requires r in universe && r.visible <= q.asked < r.gone && r.selected <= Until(q)
    requires if st.watermark.Some? then Owed(cfg, st.base, r) else r.selected >= Start(cfg, st, q)
    ensures var st' := AfterQuery(cfg, st, q).0;
            Kept(st', r) && forall next: Query :: st'.watermark == Some(Until(q)) ==> Start(cfg, st', next) <= Until(q)
  {
    SweepKeeps(cfg, st, q.rows, [], q.unread, q.chunks);
    var (st1, _) := Sweep(cfg, st, q.rows, [], q.unread, q.chunks);
    var st' := AfterQuery(cfg, st, q).0;
    assert st'.archived == st1.archived;
    if Kept(st, r) {
      KeptStays(st, st1, r);
    } else {
      assert r in q.rows;
      assert Kept(st1, r);
    }
    if r !in st1.archived {
      var twin :| twin in st1.archived && twin.key == r.key;
      assert twin in st'.archived;
    }
  }

  datatype Happening = Polled(q: Query) | Forgotten(markers: set<string>)

  function AfterHappening(cfg: Settings, st: Store, h: Happening): Store
    requires h.Polled? ==> |h.q.chunks| > |h.q.rows|
  {
    match h
    case Polled(q) => AfterQuery(cfg, st, q).0
    case Forgotten(markers) => st.(markers := st.markers - markers)
  }

  ghost predicate Possible(universe: iset<Row>, cfg: Settings, st: Store, clock: int, history: seq<Happening>)
    decreases |history|
  {
    history == [] ||
    match history[0]
    case Polled(q) =>
      && clock <= q.began && Plausible(universe, cfg, st, q)
      && Possible(universe, cfg, AfterHappening(cfg, st, history[0]), q.asked, history[1..])
    case Forgotten(_) => Possible(universe, cfg, AfterHappening(cfg, st, history[0]), clock, history[1..])
  }

  ghost function Outcome(universe: iset<Row>, cfg: Settings, st: Store, clock: int, history: seq<Happening>)
    : (Store, int)
    requires Possible(universe, cfg, st, clock, history)
    decreases |history|
  {
    if history == [] then (st, clock)
    else
      var next := AfterHappening(cfg, st, history[0]);
      Outcome(universe, cfg, next, if history[0].Polled? then history[0].q.asked else clock, history[1..])
  }

  /** Over any history of succeeding and failing polls and lost markers. */
  lemma {:induction false} QuerySafety(universe: iset<Row>, cfg: Settings, st: Store, clock: int,
                                       history: seq<Happening>)
    requires Safe(universe, cfg, st, clock) && cfg.overlap >= 0
    requires Possible(universe, cfg, st, clock, history)
    ensures var (st', clock') := Outcome(universe, cfg, st, clock, history);
            Safe(universe, cfg, st', clock')
    decreases |history|
  {
    if history != [] {
      var next := AfterHappening(cfg, st, history[0]);
      match history[0] {
        case Polled(q) =>
          QueryKeepsSafe(universe, cfg, st, q, clock);
          QuerySafety(universe, cfg, next, q.asked, history[1..]);
        case Forgotten(_) =>
          StaysSafe(universe, cfg, st, clock, next, clock);
          QuerySafety(universe, cfg, next, clock, history[1..]);
      }
    }
  }

  // ------------------------------------------------------- de-duplication keys

  /** The key of a row version: its identifier and the values it is selected on. */
  function DedupKey(prefix: string, id: string, timestamp: string, end: Option<string>): string {
    if id == "" then ""
    else prefix + id + "_" + timestamp + (if end.Some? then "|" + end.value else "")
  }

  /** Within one query, where either every key or no key has an end value, two rows
      share a key only if they agree on identifier and timestamps: identifiers are
      alphanumeric and timestamps contain no bar. */
  lemma DedupKeySeparates(prefix: string, id1: string, ts1: string, end1: Option<string>,
                          id2: string, ts2: string, end2: Option<string>)
    requires id1 != "" && id2 != "" && '_' !in id1 && '_' !in id2
    requires '|' !in ts1 && '|' !in ts2 && end1.Some? == end2.Some?
    ensures DedupKey(prefix, id1, ts1, end1) == DedupKey(prefix, id2, ts2, end2)
       <==> id1 == id2 && ts1 == ts2 && end1 == end2
  {
    if DedupKey(prefix, id1, ts1, end1) == DedupKey(prefix, id2, ts2, end2) {
      DedupKeyTail(prefix, id1, ts1, end1);
      DedupKeyTail(prefix, id2, ts2, end2);
      var rest1, rest2 := Stamp(ts1, end1), Stamp(ts2, end2);
      SplitUnique(id1, rest1, id2, rest2, '_');
      if end1.Some? {
        SplitUnique(ts1, end1.value, ts2, end2.value, '|');
      }
    }
  }

  function Stamp(timestamp: string, end: Option<string>): string {
    if end.Some? then timestamp + ['|'] + end.value else timestamp
  }

  lemma DedupKeyTail(prefix: string, id: string, timestamp: string, end: Option<string>)
    requires id != ""
    ensures |DedupKey(prefix, id, timestamp, end)| >= |prefix|
    ensures DedupKey(prefix, id, timestamp, end)[|prefix|..] == id + ['_'] + Stamp(timestamp, end)
  {
  }

  // ---------------------------------------------------------------- the collector

  class QueryCollector {
    const cfg: Settings
    var watermark: Option<int>
    var markers: set<string>
    var archived: set<Row>
    var objects: seq<seq<Row>>
    ghost var base: Option<int>
    // The rows waiting for the next chunk.
    var pending: seq<Row>

    ghost function View(): Store
      reads this
    {
      Store(watermark, markers, archived, objects, base)
    }

    constructor (cfg: Settings)
      ensures View() == EMPTY_STORE && this.cfg == cfg && pending == []
    {
      this.cfg := cfg;
      watermark, markers, archived, objects, base, pending := None, {}, {}, [], None, [];
    }

    method Flush(chunk: Chunk) returns (ok: bool)
      modifies this
      ensures (View(), ok) == FlushChunk(old(View()), old(pending), chunk)
      ensures pending == if ok then [] else old(pending)
    {
      if |pending| == 0 {
        return true;
      }
      if chunk.stored {
        archived, objects := archived + (set r | r in pending), objects + [pending];
      }
      if !(chunk.stored && chunk.reported) {
        return false;
      }
      var i := 0;
      while i < |pending|
        invariant 0 <= i <= |pending| && pending == old(pending)
        invariant View() == old(View()).(archived := archived, objects := objects,
                                         markers := old(markers) + KeysOf(pending[..i]) * chunk.marked)
        invariant archived == old(archived) + (set r | r in pending) && objects == old(objects) + [pending]
      {
        assert pending[..i + 1] == pending[..i] + [pending[i]];
        if pending[i].key != "" && pending[i].key in chunk.marked {
          markers := markers + {pending[i].key};
        }
        i := i + 1;
      }
      assert pending[..i] == pending;
      pending := [];
      return true;
    }

    method SweepRows(rows: seq<Row>, unread: set<string>, chunks: seq<Chunk>) returns (ok: bool)
      requires |chunks| > |rows| && pending == []
      modifies this
      ensures (View(), ok) == Sweep(cfg, old(View()), rows, [], unread, chunks)
      ensures ok ==> pending == []
    {
      var i := 0;
      ghost var result := Sweep(cfg, View(), rows, [], unread, chunks);
      assert rows[0..] == rows && chunks[0..] == chunks;
      while i < |rows|
        invariant 0 <= i <= |rows|
        invariant Sweep(cfg, View(), rows[i..], pending, unread, chunks[i..]) == result
      {
        var row := rows[i];
        assert rows[i..][1..] == rows[i + 1..] && chunks[i..][1..] == chunks[i + 1..];
        if !(row.key != "" && row.key !in unread && row.key in markers) {
          pending := pending + [row];
          if |pending| >= PerObject(cfg) {
            var flushed := Flush(chunks[i]);
            if !flushed {
              return false;
            }
          }
        }
        i := i + 1;
      }
      ok := Flush(chunks[i]);
    }

    /** One poll of the query. */
    method CollectCustomQuery(q: Query) returns (ok: bool)
      requires |q.chunks| > |q.rows|
      modifies this
      ensures (View(), ok) == AfterQuery(cfg, old(View()), q)
    {
      if !q.readable || !q.answered {
        return false;
      }
      ghost var before := View();
      pending := [];
      ok := SweepRows(q.rows, q.unread, q.chunks);
      if ok && q.saved {
        base := if base.None? then Some(Start(cfg, before, q)) else base;
        watermark := Some(FloorTo(q.ended, SECOND));
      }
    }
  }
}
