/**
 Writing a data object and scanning it again: the encoder, the timestamp range,
 the manifest, and the comparison of what an object holds with its manifest.

 JSON, compression and hashing are parameters; instants count from the zero time.
 */
module Encode {
  import opened Common

  // ---------------------------------------------------------- timestamp ranges

  datatype Range = Range(first: Option<int>, last: Option<int>)

  const EMPTY := Range(None, None)

  function Widened(r: Range, t: int): Range {
    if t == 0 then r
    else Range(if r.first.None? || t < r.first.value then Some(t) else r.first,
               if r.last.None? || t > r.last.value then Some(t) else r.last)
  }

  function RangeOf(times: seq<int>): Range {
    if times == [] then EMPTY else Widened(RangeOf(times[..|times| - 1]), times[|times| - 1])
  }

  /** The least and the greatest of the times that are set. */
  predicate IsRange(r: Range, times: seq<int>) {
    if forall i :: 0 <= i < |times| ==> times[i] == 0 then r == EMPTY
    else
      && r.first.Some? && r.last.Some?
      && r.first.value in times && r.last.value in times && r.first.value != 0 && r.last.value != 0
      && forall i :: 0 <= i < |times| && times[i] != 0 ==> r.first.value <= times[i] <= r.last.value
  }

  lemma {:induction false} RangeIsMinMax(times: seq<int>)
    ensures IsRange(RangeOf(times), times)
  {
    if times != [] {
      var front, t := times[..|times| - 1], times[|times| - 1];
      RangeIsMinMax(front);
      assert times == front + [t];
      assert t != 0 ==> times[|times| - 1] != 0;
      if !(forall i :: 0 <= i < |front| ==> front[i] == 0) {
        var i :| 0 <= i < |front| && front[i] != 0;
        assert times[i] != 0;
      }
    }
  }

  /** The order records arrive in does not matter. */
  lemma RangeIgnoresOrder(a: seq<int>, b: seq<int>)
    requires multiset(a) == multiset(b)
    ensures RangeOf(a) == RangeOf(b)
  {
    RangeIsMinMax(a);
    RangeIsMinMax(b);
    forall t ensures t in a <==> t in b {
      assert t in a <==> t in multiset(a);
      assert t in b <==> t in multiset(b);
    }
    if !(forall i :: 0 <= i < |a| ==> a[i] == 0) {
      var i :| 0 <= i < |a| && a[i] != 0;
      assert a[i] in b;
    }
  }

  class TimestampRange {
    var first: Option<int>
    var last: Option<int>

    ghost function Value(): Range
      reads this
    {
      Range(first, last)
    }

    constructor ()
      ensures Value() == EMPTY
    {
      first := None;
      last := None;
    }

    method Add(t: int)
      modifies this
      ensures Value() == Widened(old(Value()), t)
    {
      if t == 0 {
        return;
      }
      if first.None? || t < first.value {
        first := Some(t);
      }
      if last.None? || t > last.value {
        last := Some(t);
      }
    }
  }

  // ------------------------------------------------------------------- encoding

  /** A payload field: text, or any other JSON value. */
  datatype Item = Word(text: string) | Other(json: string)

  type Payload = map<string, Item>

  datatype Record = Record(typ: string, timestamp: int, id: string, payload: Option<Payload>, replayId: seq<int>)

  datatype Line = Line(eventId: string, eventType: string, timestamp: int, source: string, env: string,
                       orgId: string, instance: string, replayId: string, payload: Payload)

  datatype Meta = Meta(source: string, env: string, orgId: string, instance: string, eventType: string,
                       lineage: map<string, string>)

  const MANIFEST_VERSION := 2

  datatype Manifest = Manifest(version: int, source: string, orgId: string, instance: string, eventType: string,
                               objectKey: string, records: int, uncompressed: int, compressed: int,
                               sha256: string, first: Option<int>, last: Option<int>,
                               lineage: map<string, string>, ingestedAt: int)

  datatype Next = End | Garbled | Got(line: Line, rest: string)

  /** The library code: a line's JSON (if it has one), the decoder's next line,
      compression, the hash, and base 64. */
  datatype Codec = Codec(encode: Line -> Option<string>, next: string -> Next, gzip: string -> string,
                         gunzip: string -> Option<string>, hash: string -> string, base64: seq<int> -> string)

  ghost predicate Progresses(c: Codec) {
    forall s :: c.next(s).Got? ==> |c.next(s).rest| < |s|
  }

  /** Decoding undoes encoding. */
  ghost predicate Faithful(c: Codec) {
    && Progresses(c)
    && (forall text :: c.gunzip(c.gzip(text)) == Some(text))
    && c.next("") == End
    && (forall line, rest :: c.encode(line).Some? ==> c.next(c.encode(line).value + rest) == Got(line, rest))
  }

  function ToLine(c: Codec, meta: Meta, r: Record): Line {
    Line(r.id, r.typ, r.timestamp, meta.source, meta.env, meta.orgId, meta.instance,
         if |r.replayId| > 0 then c.base64(r.replayId) else "",
         if r.payload.Some? then r.payload.value else map[])
  }

  predicate Encodable(c: Codec, lines: seq<Line>) {
    forall i :: 0 <= i < |lines| ==> c.encode(lines[i]).Some?
  }

  function Text(c: Codec, lines: seq<Line>): string
    requires Encodable(c, lines)
  {
    if lines == [] then "" else Text(c, lines[..|lines| - 1]) + c.encode(lines[|lines| - 1]).value
  }

  function Stamps(lines: seq<Line>): seq<int> { seq(|lines|, i requires 0 <= i < |lines| => lines[i].timestamp) }

  function ManifestOf(c: Codec, meta: Meta, lines: seq<Line>, ingestedAt: int): Manifest
    requires Encodable(c, lines)
  {
    var text := Text(c, lines);
    var data := c.gzip(text);
    var r := RangeOf(Stamps(lines));
    Manifest(MANIFEST_VERSION, meta.source, meta.orgId, meta.instance, meta.eventType, "",
             |lines|, |text|, |data|, c.hash(data), r.first, r.last, meta.lineage, ingestedAt)
  }

  function LinesOf(c: Codec, meta: Meta, records: seq<Record>): seq<Line> {
    seq(|records|, i requires 0 <= i < |records| => ToLine(c, meta, records[i]))
  }

  class Encoder {
    const codec: Codec
    const meta: Meta
    const times: TimestampRange
    var text: string
    var count: nat
    ghost var lines: seq<Line>

    ghost predicate Valid()
      reads this, times
    {
      && Encodable(codec, lines)
      && text == Text(codec, lines)
      && count == |lines|
      && times.Value() == RangeOf(Stamps(lines))
    }

    constructor (codec: Codec, meta: Meta)
      ensures Valid() && lines == [] && this.codec == codec && this.meta == meta
      ensures fresh(times)
    {
      this.codec := codec;
      this.meta := meta;
      times := new TimestampRange();
      text := "";
      count := 0;
      lines := [];
    }

    /** A record that has no JSON form is refused and leaves no trace. */
    method WriteRecord(r: Record) returns (ok: bool)
      requires Valid()
      modifies this, times
      ensures Valid()
      ensures ok == codec.encode(ToLine(codec, meta, r)).Some?
      ensures lines == if ok then old(lines) + [ToLine(codec, meta, r)] else old(lines)
    {
      var line := ToLine(codec, meta, r);
      var json := codec.encode(line);
      if json.None? {
        return false;
      }
      text := text + json.value;
      count := count + 1;
      times.Add(line.timestamp);
      StampsGrow(lines, line);
      ghost var before := lines;
      lines := lines + [line];
      assert lines[..|lines| - 1] == before;
      ok := true;
    }

    /** The manifest so far; the time of ingestion is filled in later. */
    method Finish() returns (m: Manifest, data: string)
      requires Valid()
      ensures data == codec.gzip(Text(codec, lines))
      ensures m == ManifestOf(codec, meta, lines, 0)
    {
      data := codec.gzip(text);
      m := Manifest(MANIFEST_VERSION, meta.source, meta.orgId, meta.instance, meta.eventType, "",
                    count, |text|, |data|, codec.hash(data), times.first, times.last, meta.lineage, 0);
    }
  }

  // ------------------------------------------------------------------- scanning

  datatype Stats = Stats(records: int, compressed: int, uncompressed: int, sha256: string,
                         first: Option<int>, last: Option<int>)

  ghost function DecodeAll(c: Codec, text: string): Option<seq<Line>>
    requires Progresses(c)
    decreases |text|
  {
    match c.next(text)
    case End => Some([])
    case Garbled => None
    case Got(line, rest) =>
      var more := DecodeAll(c, rest);
      if more.None? then None else Some([line] + more.value)
  }

  ghost function Scanned(c: Codec, data: string): Option<(Stats, seq<Line>)>
    requires Progresses(c)
  {
    var text := c.gunzip(data);
    if text.None? then None
    else
      var lines := DecodeAll(c, text.value);
      if lines.None? then None
      else
        var r := RangeOf(Stamps(lines.value));
        Some((Stats(|lines.value|, |data|, |text.value|, c.hash(data), r.first, r.last), lines.value))
  }

  /** Reads the object once, line by line, and visits every line. */
  method DecodeEach(c: Codec, text: string, times: TimestampRange) returns (ok: bool, records: nat, visited: seq<Line>)
    requires Progresses(c) && times.Value() == EMPTY
    modifies times
    ensures ok <==> DecodeAll(c, text).Some?
    ensures ok ==> DecodeAll(c, text) == Some(visited)
    ensures records == |visited| && times.Value() == RangeOf(Stamps(visited))
  {
    visited := [];
    records := 0;
    var rest := text;
    ok := true;
    while ok && !c.next(rest).End?
      invariant records == |visited| && times.Value() == RangeOf(Stamps(visited))
      invariant !ok ==> DecodeAll(c, text).None?
      invariant ok ==> (DecodeAll(c, text).Some? <==> DecodeAll(c, rest).Some?)
      invariant ok && DecodeAll(c, rest).Some? ==> DecodeAll(c, text).value == visited + DecodeAll(c, rest).value
      decreases ok, |rest|
    {
      var step := c.next(rest);
      if step.Garbled? {
        ok := false;
      } else {
        records := records + 1;
        times.Add(step.line.timestamp);
        StampsGrow(visited, step.line);
        visited := visited + [step.line];
        rest := step.rest;
      }
    }
    if ok {
      assert DecodeAll(c, rest) == Some([]) && visited + [] == visited;
    }
  }

  lemma StampsGrow(lines: seq<Line>, line: Line)
    ensures RangeOf(Stamps(lines + [line])) == Widened(RangeOf(Stamps(lines)), line.timestamp)
  {
    assert Stamps(lines + [line])[..|lines|] == Stamps(lines);
  }

  method Scan(c: Codec, data: string) returns (stats: Option<Stats>, visited: seq<Line>)
    requires Progresses(c)
    ensures stats.Some? <==> Scanned(c, data).Some?
    ensures stats.Some? ==> Scanned(c, data) == Some((stats.value, visited))
  {
    visited := [];
    var text := c.gunzip(data);
    if text.None? {
      return None, visited;
    }
    var times := new TimestampRange();
    var ok, records;
    ok, records, visited := DecodeEach(c, text.value, times);
    stats := if ok then Some(Stats(records, |data|, |text.value|, c.hash(data), times.first, times.last)) else None;
  }

  lemma TextSplits(c: Codec, lines: seq<Line>, k: nat, rest: string)
    requires Encodable(c, lines) && 0 < k <= |lines|
    ensures Text(c, lines[..k]) + rest == Text(c, lines[..k - 1]) + (c.encode(lines[k - 1]).value + rest)
  {
    assert lines[..k][..k - 1] == lines[..k - 1];
  }

  lemma {:induction false} DecodesFrom(c: Codec, lines: seq<Line>, k: nat, rest: string, tail: seq<Line>)
    requires Faithful(c) && Encodable(c, lines) && k <= |lines| && DecodeAll(c, rest) == Some(tail)
    ensures DecodeAll(c, Text(c, lines[..k]) + rest) == Some(lines[..k] + tail)
  {
    if k == 0 {
      assert lines[..0] == [] && Text(c, []) + rest == rest && lines[..0] + tail == tail;
    } else {
      var json := c.encode(lines[k - 1]).value;
      assert c.next(json + rest) == Got(lines[k - 1], rest);
      DecodesFrom(c, lines, k - 1, json + rest, [lines[k - 1]] + tail);
      TextSplits(c, lines, k, rest);
      assert lines[..k] + tail == lines[..k - 1] + ([lines[k - 1]] + tail);
    }
  }

  /** What is written decodes to the same lines. */
  lemma TextDecodes(c: Codec, lines: seq<Line>)
    requires Faithful(c) && Encodable(c, lines)
    ensures DecodeAll(c, Text(c, lines)) == Some(lines)
  {
    assert DecodeAll(c, "") == Some([]);
    DecodesFrom(c, lines, |lines|, "", []);
    assert lines[..|lines|] == lines && Text(c, lines) + "" == Text(c, lines) && lines + [] == lines;
  }

  // -------------------------------------------------------- from object to records

  /** The fields of a record; one without a payload has none. */
  function Fields(r: Record): Payload {
    match r.payload
    case Some(fields) => fields
    case None => map[]
  }

  /** A line that holds a record, field by field. */
  predicate Holds(c: Codec, meta: Meta, r: Record, line: Line) {
    && line.eventId == r.id && line.eventType == r.typ && line.timestamp == r.timestamp
    && (r.payload.Some? ==> line.payload == r.payload.value) && (r.payload.None? ==> line.payload == map[])
    && line.replayId == (if r.replayId == [] then "" else c.base64(r.replayId))
    && line.source == meta.source && line.env == meta.env
    && line.orgId == meta.orgId && line.instance == meta.instance
  }

  /** Scanning an object yields the records, one line each and in order. */
  ghost predicate Archives(c: Codec, meta: Meta, records: seq<Record>, data: string)
    requires Progresses(c)
  {
    var scanned := Scanned(c, data);
    scanned.Some? && |scanned.value.1| == |records|
    && forall i :: 0 <= i < |records| ==> Holds(c, meta, records[i], scanned.value.1[i])
  }

  /** A manifest that tells the truth about an object and where it came from. */
  ghost predicate Describes(c: Codec, meta: Meta, records: seq<Record>, data: string, m: Manifest) {
    && m.version == 2 && m.source == meta.source && m.orgId == meta.orgId && m.instance == meta.instance
    && m.eventType == meta.eventType && m.lineage == meta.lineage
    && m.records == |records| && m.compressed == |data| && m.sha256 == c.hash(data)
    && (Faithful(c) ==> c.gunzip(data).Some? && m.uncompressed == |c.gunzip(data).value|)
    && IsRange(Range(m.first, m.last), seq(|records|, i requires 0 <= i < |records| => records[i].timestamp))
  }

  lemma LinesArchive(c: Codec, meta: Meta, records: seq<Record>)
    requires Faithful(c) && Encodable(c, LinesOf(c, meta, records))
    ensures Archives(c, meta, records, c.gzip(Text(c, LinesOf(c, meta, records))))
  {
    TextDecodes(c, LinesOf(c, meta, records));
  }

  lemma ManifestDescribes(c: Codec, meta: Meta, records: seq<Record>, now: int)
    requires Encodable(c, LinesOf(c, meta, records))
    ensures Describes(c, meta, records, c.gzip(Text(c, LinesOf(c, meta, records))),
                      ManifestOf(c, meta, LinesOf(c, meta, records), now))
  {
    var lines := LinesOf(c, meta, records);
    assert Stamps(lines) == seq(|records|, i requires 0 <= i < |records| => records[i].timestamp);
    RangeIsMinMax(Stamps(lines));
  }

  /** Encoding bytes as text keeps them apart. */
  ghost predicate KeepsApart(base64: seq<int> -> string) {
    (forall a, b :: base64(a) == base64(b) ==> a == b) && forall a :: a != [] ==> base64(a) != ""
  }

  /** An object determines the records it archives, except that it does not tell an
      absent payload from an empty one. */
  lemma ObjectsDiffer(c: Codec, meta: Meta, records: seq<Record>, others: seq<Record>, data: string)
    requires Faithful(c) && KeepsApart(c.base64)
    requires Archives(c, meta, records, data) && Archives(c, meta, others, data)
    ensures |records| == |others|
    ensures forall i :: 0 <= i < |records| ==>
              records[i].(payload := None) == others[i].(payload := None) && Fields(records[i]) == Fields(others[i])
  {
    var lines := Scanned(c, data).value.1;
    forall i | 0 <= i < |records|
      ensures records[i].(payload := None) == others[i].(payload := None) && Fields(records[i]) == Fields(others[i])
    {
      LineTells(c, meta, records[i], others[i], lines[i]);
    }
  }

  lemma LineTells(c: Codec, meta: Meta, r: Record, s: Record, line: Line)
    requires KeepsApart(c.base64) && Holds(c, meta, r, line) && Holds(c, meta, s, line)
    ensures r.(payload := None) == s.(payload := None) && Fields(r) == Fields(s)
  {
    assert r.replayId == s.replayId;
  }

  /** Encodes all records and hands them to the store, or fails: on a missing source,
      on the first record without a JSON form, when the temporary file cannot be
      completed, or when the store refuses it. */
  method EncodeObject(codec: Codec, meta: Meta, records: seq<Record>, fileWorks: bool, storeWorks: bool, now: int)
      returns (m: Option<Manifest>, handed: Option<string>)
    ensures handed.Some? <==> meta.source != "" && Encodable(codec, LinesOf(codec, meta, records)) && fileWorks
    ensures handed.Some? ==> handed.value == codec.gzip(Text(codec, LinesOf(codec, meta, records)))
    ensures handed.Some? && Faithful(codec) ==> Archives(codec, meta, records, handed.value)
    ensures m.Some? <==> handed.Some? && storeWorks
    ensures m.Some? ==> Describes(codec, meta, records, handed.value, m.value) && m.value.ingestedAt == now
    ensures m.Some? ==> m.value == ManifestOf(codec, meta, LinesOf(codec, meta, records), now)
  {
    handed := None;
    if meta.source == "" {
      return None, None;
    }
    ghost var all := LinesOf(codec, meta, records);
    var enc := new Encoder(codec, meta);
    for i := 0 to |records|
      invariant enc.Valid() && enc.codec == codec && enc.meta == meta && fresh(enc) && fresh(enc.times)
      invariant enc.lines == all[..i]
    {
      var ok := enc.WriteRecord(records[i]);
      if !ok {
        assert codec.encode(all[i]).None?;
        return None, None;
      }
    }
    assert all[..|records|] == all;
    if !fileWorks {
      return None, None;
    }
    var manifest, data := enc.Finish();
    handed := Some(data);
    if Faithful(codec) { LinesArchive(codec, meta, records); }
    ManifestDescribes(codec, meta, records, now);
    manifest := manifest.(ingestedAt := now);
    m := if storeWorks then Some(manifest) else None;
  }

  // ----------------------------------------------------------------- comparison

  datatype Problem = Records | Compressed | Uncompressed | Hash | Times

  function Problems(s: Stats, m: Manifest): seq<Problem> {
    (if s.records != m.records then [Records] else [])
    + (if s.compressed != m.compressed then [Compressed] else [])
    + (if s.uncompressed != m.uncompressed then [Uncompressed] else [])
    + (if s.sha256 != m.sha256 then [Hash] else [])
    + (if s.first != m.first || s.last != m.last then [Times] else [])
  }

  ghost predicate CollisionFree(c: Codec) {
    forall a, b :: c.hash(a) == c.hash(b) ==> a == b
  }

  /** The verifier accepts an object against a manifest the writer produced exactly
      when it is, byte for byte, the object the writer produced. */
  lemma AcceptsWhatWasWritten(c: Codec, meta: Meta, lines: seq<Line>, data: string, ingestedAt: int)
    requires Faithful(c) && CollisionFree(c) && Encodable(c, lines)
    ensures data == c.gzip(Text(c, lines)) <==>
            Scanned(c, data).Some? && Problems(Scanned(c, data).value.0, ManifestOf(c, meta, lines, ingestedAt)) == []
    ensures data == c.gzip(Text(c, lines)) ==> Scanned(c, data).value.1 == lines
  {
    TextDecodes(c, lines);
    var m := ManifestOf(c, meta, lines, ingestedAt);
    if Scanned(c, data).Some? && Problems(Scanned(c, data).value.0, m) == [] {
      assert Hash !in Problems(Scanned(c, data).value.0, m);
      assert Scanned(c, data).value.0.sha256 == m.sha256;
    }
  }
}
