/**
 The EventLogFile collector as an object over its cache and its archive, and the
 raw copy of a quarantined file.
 */
module Collecting {
  import opened Common
  import opened EventLog

  // ----------------------------------------------------------- quarantined files

  const NEWLINE: int := 10

  /** The physical lines of a file, each with its newline; the last may lack one. */
  function Lines(bytes: seq<int>): seq<seq<int>>
    decreases |bytes|
  {
    if bytes == [] then []
    else
      var n := LineLength(bytes);
      [bytes[..n]] + Lines(bytes[n..])
  }

  function LineLength(bytes: seq<int>): (n: nat)
    requires bytes != []
    ensures 1 <= n <= |bytes|
    ensures forall i :: 0 <= i < n - 1 ==> bytes[i] != NEWLINE
    ensures bytes[n - 1] == NEWLINE || n == |bytes|
  {
    if bytes[0] == NEWLINE || |bytes| == 1 then 1 else 1 + LineLength(bytes[1..])
  }

  function Concat(lines: seq<seq<int>>): seq<int> {
    if lines == [] then [] else lines[0] + Concat(lines[1..])
  }

  lemma {:induction false} ConcatAppend(lines: seq<seq<int>>, line: seq<int>)
    ensures Concat(lines + [line]) == Concat(lines) + line
  {
    if lines == [] {
      assert lines + [line] == [line] && [line][1..] == [];
    } else {
      ConcatAppend(lines[1..], line);
      assert (lines + [line])[1..] == lines[1..] + [line];
    }
  }

  lemma ConcatFirst(line: seq<int>, lines: seq<seq<int>>)
    ensures Concat([line] + lines) == line + Concat(lines)
  {
    assert ([line] + lines)[1..] == lines;
  }

  /** The quarantined lines put back together are the file, byte for byte. */
  lemma {:induction false} LinesRebuildFile(bytes: seq<int>)
    ensures Concat(Lines(bytes)) == bytes
    decreases |bytes|
  {
    if bytes != [] {
      var n := LineLength(bytes);
      LinesRebuildFile(bytes[n..]);
      ConcatFirst(bytes[..n], Lines(bytes[n..]));
      assert bytes == bytes[..n] + bytes[n..];
    }
  }

  /** Each quarantined line is one physical line: not empty, with a newline only at
      its end, and only the last may lack it. */
  lemma {:induction false} LinesArePhysical(bytes: seq<int>, i: nat)
    requires i < |Lines(bytes)|
    ensures var line := Lines(bytes)[i];
            && line != []
            && (forall j :: 0 <= j < |line| - 1 ==> line[j] != NEWLINE)
            && (line[|line| - 1] == NEWLINE || i == |Lines(bytes)| - 1)
    decreases |bytes|
  {
    var n := LineLength(bytes);
    if i > 0 { LinesArePhysical(bytes[n..], i - 1); }
  }

  datatype RawLine = RawLine(number: nat, text: seq<int>)

  /** Reads up to and including the next newline, or to the end. */
  method ReadLine(rest: seq<int>) returns (end: nat)
    requires rest != []
    ensures end == LineLength(rest)
  {
    end := 1;
    while rest[end - 1] != NEWLINE && end < |rest|
      invariant 1 <= end <= |rest|
      invariant LineLength(rest) == end - 1 + LineLength(rest[end - 1..])
      decreases |rest| - end
    {
      assert rest[end - 1..][1..] == rest[end..];
      end := end + 1;
    }
  }

  /** The reading loop: one numbered record per physical line. */
  method StreamRawLines(bytes: seq<int>) returns (records: seq<RawLine>)
    ensures |records| == |Lines(bytes)|
    ensures forall i :: 0 <= i < |records| ==> records[i] == RawLine(i + 1, Lines(bytes)[i])
  {
    records := [];
    var rest := bytes;
    var n := 1;
    while |rest| > 0
      invariant n == |records| + 1 && |records| <= |Lines(bytes)|
      invariant Lines(bytes)[|records|..] == Lines(rest)
      invariant forall i :: 0 <= i < |records| ==> records[i] == RawLine(i + 1, Lines(bytes)[i])
      decreases |rest|
    {
      var end := ReadLine(rest);
      assert Lines(rest) == [rest[..end]] + Lines(rest[end..]);
      assert Lines(bytes)[|records|] == rest[..end];
      records := records + [RawLine(n, rest[..end])];
      rest := rest[end..];
      n := n + 1;
    }
  }

  // ---------------------------------------------------------------- the collector

  class Collector {
    const cfg: Config
    // The cache.
    var watermark: Option<int>
    var markers: set<string>
    var malformed: map<string, nat>
    var unavailable: map<string, nat>
    // The archive, by kind of object.
    var data: set<string>
    var quarantined: set<string>
    var tombstones: set<string>
    // What has really happened.
    ghost var parseFailures: map<string, nat>
    ghost var refusals: map<string, nat>
    ghost var base: Option<int>

    ghost function View(): State
      reads this
    {
      State(watermark, markers, malformed, unavailable, data, quarantined, tombstones, parseFailures, refusals, base)
    }

    constructor (cfg: Config)
      ensures View() == BLANK && this.cfg == cfg
    {
      this.cfg := cfg;
      watermark, markers, malformed, unavailable := None, {}, map[], map[];
      data, quarantined, tombstones := {}, {}, {};
      parseFailures, refusals, base := map[], map[], None;
    }

    /** Retries a file that does not parse on later polls, then keeps its raw lines. */
    method HandleMalformedFile(id: string, luck: Luck) returns (ok: bool)
      modifies this
      ensures (View(), ok) == HandleMalformed(cfg, old(View()), id, luck)
    {
      parseFailures := parseFailures[id := Get(parseFailures, id) + 1];
      var attempts := 1;
      if luck.countRead && id in malformed {
        attempts := malformed[id] + 1;
      }
      if attempts < cfg.malformedAttempts {
        if luck.countWritten {
          malformed := malformed[id := attempts];
        }
        return false;
      }
      if luck.stored {
        quarantined := quarantined + {id};
      }
      if !(luck.stored && luck.reported) {
        return false;
      }
      if luck.countDeleted {
        malformed := malformed - {id};
      }
      return true;
    }

    /** Blocks on a transient failure; records a permanently refused file as
        unavailable after several polls. */
    method HandleRefusedFile(id: string, permanent: bool, luck: Luck) returns (ok: bool)
      modifies this
      ensures (View(), ok) == HandleDownloadFailure(cfg, old(View()), id, permanent, luck)
    {
      if !permanent {
        return false;
      }
      refusals := refusals[id := Get(refusals, id) + 1];
      var attempts := 1;
      if luck.countRead && id in unavailable {
        attempts := unavailable[id] + 1;
      }
      if attempts < cfg.unavailableAttempts {
        if luck.countWritten {
          unavailable := unavailable[id := attempts];
        }
        return false;
      }
      if luck.stored {
        tombstones := tombstones + {id};
      }
      if !(luck.stored && luck.reported) {
        return false;
      }
      if luck.countDeleted {
        unavailable := unavailable - {id};
      }
      return true;
    }

    method ArchiveLogFile(id: string, fetch: Fetch, luck: Luck) returns (ok: bool)
      modifies this
      ensures (View(), ok) == ArchiveFile(cfg, old(View()), id, fetch, luck)
    {
      match fetch {
        case Fetched(wellFormed) =>
          if wellFormed {
            if luck.stored {
              data := data + {id};
            }
            ok := luck.stored && luck.reported;
          } else {
            ok := HandleMalformedFile(id, luck);
          }
        case Status(code) =>
          ok := HandleRefusedFile(id, Permanent(code), luck);
        case Broken =>
          ok := HandleRefusedFile(id, false, luck);
      }
    }

    method VisitFile(file: File, turn: Turn) returns (ok: bool)
      modifies this
      ensures (View(), ok) == Visit(cfg, old(View()), file, turn)
    {
      if turn.luck.markerRead && file.id in markers {
        return true;
      }
      ok := ArchiveLogFile(file.id, turn.fetch, turn.luck);
      if ok && turn.luck.marked {
        markers := markers + {file.id};
      }
    }

    method SetWatermark(mark: int, saved: bool, ghost windowStart: int)
      modifies this
      ensures View() == if saved then old(View()).(watermark := Some(FloorTo(mark, MILLISECOND)),
                                                  base := if old(base).None? then Some(windowStart) else old(base))
                        else old(View())
    {
      if saved {
        watermark := Some(FloorTo(mark, MILLISECOND));
        base := if base.None? then Some(windowStart) else base;
      }
    }

    /** The loop over one listing. */
    method WalkListing(listing: seq<File>, turns: seq<Turn>) returns (end: End, mark: Option<int>)
      requires |turns| == |listing|
      modifies this
      ensures var r := Walk(cfg, old(View()), listing, turns, old(watermark));
              View() == r.st && end == r.end && mark == r.mark
    {
      mark := watermark;
      var i := 0;
      ghost var result := Walk(cfg, View(), listing, turns, watermark);
      assert listing[0..] == listing && turns[0..] == turns;
      while i < |listing|
        invariant 0 <= i <= |listing|
        invariant var r := Walk(cfg, View(), listing[i..], turns[i..], mark);
                  r.st == result.st && r.end == result.end && r.mark == result.mark
      {
        var file, turn := listing[i], turns[i];
        assert listing[i..][1..] == listing[i + 1..] && turns[i..][1..] == turns[i + 1..];
        if turn.crash {
          return Crashed, mark;
        }
        if !file.dated {
          return Undated, mark;
        }
        var ok := VisitFile(file, turn);
        if !ok {
          return Blocked, mark;
        }
        if mark.None? || file.created > mark.value {
          mark := Some(file.created);
        }
        i := i + 1;
      }
      return Finished, mark;
    }

    /** One poll of the log files. */
    method CollectLogFiles(poll: Poll) returns (ok: bool)
      requires |poll.turns| == |poll.listing|
      modifies this
      ensures View() == AfterPoll(cfg, old(View()), poll)
      ensures ok <==> Succeeds(cfg, old(View()), poll)
    {
      if !poll.readable {
        return false;
      }
      var since := if watermark.Some? then watermark.value - cfg.overlap else poll.began - cfg.initial;
      if !poll.listable {
        return false;
      }
      ghost var before := View();
      var end, mark := WalkListing(poll.listing, poll.turns);
      if (end.Finished? || end.Blocked?) && mark.Some? {
        SetWatermark(mark.value, poll.saved, FloorTo(since, SECOND));
      }
      return end.Finished?;
    }
  }
}
