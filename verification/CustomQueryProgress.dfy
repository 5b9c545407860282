/**
 What the custom query collector gets done: which objects a sweep writes, that no row
 version is written twice, and the watermark a poll stores.
 */
module CustomQueryProgress {
  import opened Common
  import opened CustomQuery

  /** The rows whose markers are not there, or cannot be read. */
  function NewRows(markers: set<string>, rows: seq<Row>, unread: set<string>): seq<Row> {
    if rows == [] then []
    else
      (if rows[0].key == "" || rows[0].key in unread || rows[0].key !in markers then [rows[0]] else [])
      + NewRows(markers, rows[1..], unread)
  }

  /** No two rows of an answer are the same version of a row. */
  predicate DistinctKeys(rows: seq<Row>) {
    forall i, j :: 0 <= i < j < |rows| && rows[i].key == rows[j].key ==> rows[i].key == ""
  }

  predicate AllWork(chunks: seq<Chunk>) {
    forall i :: 0 <= i < |chunks| ==> chunks[i].stored && chunks[i].reported
  }

  function Joined(objects: seq<seq<Row>>): seq<Row> {
    if objects == [] then [] else objects[0] + Joined(objects[1..])
  }

  /** Objects of n rows each, only the last of which may have fewer. */
  predicate Filled(objects: seq<seq<Row>>, n: nat) {
    forall i :: 0 <= i < |objects| ==> 1 <= |objects[i]| <= n && (i < |objects| - 1 ==> |objects[i]| == n)
  }

  lemma {:induction false} NewRowsIgnore(markers: set<string>, more: set<string>, rows: seq<Row>, unread: set<string>)
    requires forall i :: 0 <= i < |rows| && rows[i].key != "" ==> rows[i].key !in more
    ensures NewRows(markers + more, rows, unread) == NewRows(markers, rows, unread)
  {
    if rows != [] {
      NewRowsIgnore(markers, more, rows[1..], unread);
    }
  }

  /** A sweep whose writes all work writes the rows that are new, in order, in objects
      of the configured size, and no others. */
  lemma {:induction false} SweepWrites(cfg: Settings, st: Store, rows: seq<Row>, pending: seq<Row>,
                                       unread: set<string>, chunks: seq<Chunk>) returns (objects: seq<seq<Row>>)
    requires |chunks| > |rows| && AllWork(chunks) && |pending| < PerObject(cfg) && DistinctKeys(pending + rows)
    ensures var (st', ok) := Sweep(cfg, st, rows, pending, unread, chunks);
            ok && st'.objects == st.objects + objects
    ensures Joined(objects) == pending + NewRows(st.markers, rows, unread) && Filled(objects, PerObject(cfg))
    decreases |rows|
  {
    if rows == [] {
      objects := if pending == [] then [] else [pending];
      assert Joined(objects) == pending;
    } else {
      var rest := rows[1..];
      assert rows == [rows[0]] + rest && AllWork(chunks[1..]);
      if Known(st, rows[0], unread) {
        DistinctWithout(pending, rows);
        objects := SweepWrites(cfg, st, rest, pending, unread, chunks[1..]);
      } else {
        var more := pending + [rows[0]];
        assert more + rest == pending + rows;
        if |more| >= PerObject(cfg) {
          var st' := SweepFlushes(cfg, st, rows, pending, unread, chunks);
          DistinctLater(more, rest);
          var later := SweepWrites(cfg, st', rest, [], unread, chunks[1..]);
          NewRowsIgnore(st.markers, KeysOf(more) * chunks[0].marked, rest, unread);
          objects := [more] + later;
          assert objects[1..] == later && st.objects + objects == st'.objects + later;
        } else {
          objects := SweepWrites(cfg, st, rest, more, unread, chunks[1..]);
        }
      }
    }
  }

  /** A row that makes an object full. */
  lemma SweepFlushes(cfg: Settings, st: Store, rows: seq<Row>, pending: seq<Row>, unread: set<string>,
                     chunks: seq<Chunk>) returns (st': Store)
    requires |chunks| > |rows| && AllWork(chunks) && rows != [] && !Known(st, rows[0], unread)
    requires |pending| + 1 >= PerObject(cfg)
    ensures st'.objects == st.objects + [pending + [rows[0]]]
    ensures st'.markers == st.markers + KeysOf(pending + [rows[0]]) * chunks[0].marked
    ensures Sweep(cfg, st, rows, pending, unread, chunks) == Sweep(cfg, st', rows[1..], [], unread, chunks[1..])
  {
    st' := FlushChunk(st, pending + [rows[0]], chunks[0]).0;
  }

  lemma DistinctWithout(pending: seq<Row>, rows: seq<Row>)
    requires rows != [] && DistinctKeys(pending + rows)
    ensures DistinctKeys(pending + rows[1..])
  {
    var all, some := pending + rows, pending + rows[1..];
    forall i, j | 0 <= i < j < |some| && some[i].key == some[j].key ensures some[i].key == "" {
      var a, b := if i < |pending| then i else i + 1, if j < |pending| then j else j + 1;
      assert all[a] == some[i] && all[b] == some[j];
    }
  }

  lemma DistinctLater(more: seq<Row>, rest: seq<Row>)
    requires DistinctKeys(more + rest)
    ensures DistinctKeys([] + rest)
    ensures forall i :: 0 <= i < |rest| && rest[i].key != "" ==> rest[i].key !in KeysOf(more)
  {
    var all := more + rest;
    assert [] + rest == rest;
    forall i, j | 0 <= i < j < |rest| && rest[i].key == rest[j].key ensures rest[i].key == "" {
      assert all[|more| + i] == rest[i] && all[|more| + j] == rest[j];
    }
    forall i, k | 0 <= i < |rest| && 0 <= k < |more| && rest[i].key != "" ensures more[k].key != rest[i].key {
      assert all[k] == more[k] && all[|more| + i] == rest[i];
    }
  }

  predicate Bounded(objects: seq<seq<Row>>, n: nat) { forall i :: 0 <= i < |objects| ==> 1 <= |objects[i]| <= n }

  lemma FlushBounded(st: Store, pending: seq<Row>, chunk: Chunk, n: nat)
    requires Bounded(st.objects, n) && |pending| <= n
    ensures Bounded(FlushChunk(st, pending, chunk).0.objects, n)
  {
  }

  /** However the writes go, no object is empty or larger than configured. */
  lemma {:induction false} ObjectsBounded(cfg: Settings, st: Store, rows: seq<Row>, pending: seq<Row>,
                                          unread: set<string>, chunks: seq<Chunk>)
    requires |chunks| > |rows| && |pending| < PerObject(cfg) && Bounded(st.objects, PerObject(cfg))
    ensures Bounded(Sweep(cfg, st, rows, pending, unread, chunks).0.objects, PerObject(cfg))
    decreases |rows|
  {
    if rows == [] {
      FlushBounded(st, pending, chunks[0], PerObject(cfg));
    } else {
      var more := pending + [rows[0]];
      if Known(st, rows[0], unread) {
        ObjectsBounded(cfg, st, rows[1..], pending, unread, chunks[1..]);
      } else if |more| >= PerObject(cfg) {
        FlushBounded(st, more, chunks[0], PerObject(cfg));
        var (st', ok) := FlushChunk(st, more, chunks[0]);
        if ok { ObjectsBounded(cfg, st', rows[1..], [], unread, chunks[1..]); }
      } else {
        ObjectsBounded(cfg, st, rows[1..], more, unread, chunks[1..]);
      }
    }
  }

  // ---------------------------------------------------------------------- once only

  predicate AllMark(chunks: seq<Chunk>, rows: seq<Row>) {
    forall i :: 0 <= i < |chunks| ==> KeysOf(rows) <= chunks[i].marked
  }

  /** After a sweep in which everything works every row with a key is marked. */
  lemma {:induction false} SweepMarks(cfg: Settings, st: Store, rows: seq<Row>, pending: seq<Row>,
                                      unread: set<string>, chunks: seq<Chunk>)
    requires |chunks| > |rows| && AllWork(chunks) && AllMark(chunks, pending + rows)
    ensures var st' := Sweep(cfg, st, rows, pending, unread, chunks).0;
            st.markers <= st'.markers && KeysOf(pending + rows) <= st'.markers
    decreases |rows|
  {
    if rows == [] {
      assert pending + rows == pending;
    } else {
      var more, rest := pending + [rows[0]], rows[1..];
      assert rows == [rows[0]] + rest && AllWork(chunks[1..]) && more + rest == pending + rows;
      assert KeysOf(pending + rows) == KeysOf(more) + KeysOf(rest) == KeysOf(pending + rest) + KeysOf([rows[0]]);
      assert AllMark(chunks[1..], pending + rest) && AllMark(chunks[1..], [] + rest);
      assert KeysOf([] + rest) == KeysOf(rest);
      if Known(st, rows[0], unread) {
        SweepMarks(cfg, st, rest, pending, unread, chunks[1..]);
      } else if |more| >= PerObject(cfg) {
        SweepMarks(cfg, FlushChunk(st, more, chunks[0]).0, rest, [], unread, chunks[1..]);
      } else {
        SweepMarks(cfg, st, rest, more, unread, chunks[1..]);
      }
    }
  }

  lemma {:induction false} NothingNew(markers: set<string>, rows: seq<Row>)
    requires forall i :: 0 <= i < |rows| ==> rows[i].key in markers && rows[i].key != ""
    ensures NewRows(markers, rows, {}) == []
  {
    if rows != [] {
      NothingNew(markers, rows[1..]);
    }
  }

  lemma JoinedEmpty(objects: seq<seq<Row>>, n: nat)
    requires Joined(objects) == [] && Filled(objects, n)
    ensures objects == []
  {
  }

  /** So while the markers are there no row version is written twice: the same answer
      again writes nothing at all. */
  lemma WrittenOnce(cfg: Settings, st: Store, rows: seq<Row>, chunks: seq<Chunk>, again: seq<Chunk>)
    requires |chunks| > |rows| && |again| > |rows| && AllWork(chunks) && AllWork(again) && AllMark(chunks, [] + rows)
    requires DistinctKeys([] + rows) && forall i :: 0 <= i < |rows| ==> rows[i].key != ""
    ensures var st' := Sweep(cfg, st, rows, [], {}, chunks).0;
            Sweep(cfg, st', rows, [], {}, again).0.objects == st'.objects
  {
    assert [] + rows == rows;
    SweepMarks(cfg, st, rows, [], {}, chunks);
    var st' := Sweep(cfg, st, rows, [], {}, chunks).0;
    forall i | 0 <= i < |rows| ensures rows[i].key in st'.markers {
      assert rows[i] in rows;
    }
    NothingNew(st'.markers, rows);
    var objects := SweepWrites(cfg, st', rows, [], {}, again);
    JoinedEmpty(objects, PerObject(cfg));
  }

  // ------------------------------------------------------------------- the watermark

  /** A poll in which everything works succeeds and stores the instant it began its
      answer, in whole seconds; anything less leaves the watermark as it was. */
  lemma QueryProgresses(cfg: Settings, st: Store, q: Query)
    requires |q.chunks| > |q.rows| && MarkersHonest(st) && DistinctKeys([] + q.rows)
    ensures var (st', ok) := AfterQuery(cfg, st, q);
            && (q.readable && q.answered && AllWork(q.chunks) ==> ok)
            && (ok ==> q.readable && q.answered)
            && (ok && q.saved ==> st'.watermark == Some(q.ended - q.ended % 1_000_000_000))
            && (!ok || !q.saved ==> st'.watermark == st.watermark)
  {
    SweepKeeps(cfg, st, q.rows, [], q.unread, q.chunks);
    if q.readable && q.answered && AllWork(q.chunks) {
      var objects := SweepWrites(cfg, st, q.rows, [], q.unread, q.chunks);
    }
  }

  lemma {:induction false} StaysStored(universe: iset<Row>, cfg: Settings, st: Store, clock: int,
                                       history: seq<Happening>)
    requires Safe(universe, cfg, st, clock) && cfg.overlap >= 0 && st.watermark.Some?
    requires Possible(universe, cfg, st, clock, history)
    ensures var st' := Outcome(universe, cfg, st, clock, history).0;
            st'.watermark.Some? && st'.base == st.base
    decreases |history|
  {
    if history != [] {
      var next := AfterHappening(cfg, st, history[0]);
      match history[0] {
        case Polled(q) =>
          QueryKeepsSafe(universe, cfg, st, q, clock);
          if q.readable && q.answered { SweepKeeps(cfg, st, q.rows, [], q.unread, q.chunks); }
          StaysStored(universe, cfg, next, q.asked, history[1..]);
        case Forgotten(_) =>
          StaysSafe(universe, cfg, st, clock, next, clock);
          StaysStored(universe, cfg, next, clock, history[1..]);
      }
    }
  }

  /** Whatever happens after a watermark is stored, and however long nothing happens: a
      row version it answers for is in the next answer, unless it was kept before or
      replaced by a newer one. */
  lemma NoRowMissed(universe: iset<Row>, cfg: Settings, st: Store, clock: int, history: seq<Happening>,
                    q: Query, r: Row)
    requires Safe(universe, cfg, st, clock) && cfg.overlap >= 0 && st.watermark.Some?
    requires Possible(universe, cfg, st, clock, history)
    requires var (st', clock') := Outcome(universe, cfg, st, clock, history);
             clock' <= q.began && Plausible(universe, cfg, st', q) && q.answered
    requires r in universe && r.visible <= q.asked < r.gone && r.selected <= q.ended - q.ended % 1_000_000_000
    requires r.selected >= st.base.value && r.visible <= r.selected + cfg.overlap
    ensures r in q.rows || Kept(Outcome(universe, cfg, st, clock, history).0, r)
  {
    QuerySafety(universe, cfg, st, clock, history);
    StaysStored(universe, cfg, st, clock, history);
  }

  /** An answer holds the row versions of a window in whole seconds: from the overlap
      before the watermark, or the initial interval before the clock, to the end. */
  lemma AnsweredExactly(universe: iset<Row>, cfg: Settings, st: Store, q: Query, r: Row)
    requires Plausible(universe, cfg, st, q) && q.answered
    ensures var since := if st.watermark.Some? then st.watermark.value - cfg.overlap else q.began - cfg.initial;
            r in q.rows <==>
              && r in universe && r.visible <= q.asked < r.gone
              && since - since % 1_000_000_000 <= r.selected <= q.ended - q.ended % 1_000_000_000
  {
  }
}
