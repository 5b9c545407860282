/**
 What the keys of the archive look like: a key taken apart at its slashes, and the
 characters of a sanitised value.
 */
module PathsWritten {
  import opened Common
  import opened Numerals
  import opened Paths

  // ------------------------------------------------------------------------ segments

  /** A path taken apart at its slashes. */
  function Segments(path: string): seq<string>
    decreases |path|
  {
    if '/' !in path then [path]
    else
      var i := IndexOf(path, '/');
      [path[..i]] + Segments(path[i + 1..])
  }

  lemma NextSegment(a: string, rest: string)
    requires '/' !in a
    ensures Segments(a + "/" + rest) == [a] + Segments(rest)
  {
    var path := a + ['/'] + rest;
    IndexOfSeparator(a, '/', rest);
    assert path[|a|] == '/';
    assert path[..|a|] == a && path[|a| + 1..] == rest;
    assert a + "/" + rest == path;
  }

  /** The last segment with something behind it. */
  function WithTail(parts: seq<string>, tail: string): seq<string>
    requires parts != []
  {
    parts[..|parts| - 1] + [parts[|parts| - 1] + tail]
  }

  lemma WithTailRest(parts: seq<string>, tail: string)
    requires |parts| > 1
    ensures WithTail(parts, tail) == [parts[0]] + WithTail(parts[1..], tail)
  {
  }

  lemma Regrouped(a: string, b: string, c: string)
    ensures a + b + c == a + (b + c)
  {
  }

  lemma {:induction false} JoinedSegments(parts: seq<string>, tail: string)
    requires parts != [] && NoSlash(parts) && '/' !in tail
    ensures Segments(Join(parts) + tail) == WithTail(parts, tail)
    decreases |parts|
  {
    if |parts| == 1 {
      assert '/' !in parts[0] + tail;
    } else {
      JoinedSegments(parts[1..], tail);
      Regrouped(parts[0] + "/", Join(parts[1..]), tail);
      NextSegment(parts[0], Join(parts[1..]) + tail);
      WithTailRest(parts, tail);
    }
  }

  lemma RootedSegments(root: string, parts: seq<string>, tail: string)
    requires parts != [] && NoSlash(parts) && '/' !in tail && '/' !in root
    ensures Segments(root + "/" + Join(parts) + tail) == [root] + WithTail(parts, tail)
  {
    JoinedSegments(parts, tail);
    Regrouped(root + "/", Join(parts), tail);
    NextSegment(root, Join(parts) + tail);
  }

  /** The segments that say where an object belongs. */
  function Hive(meta: Meta, digest: string -> string): seq<string> {
    ["source=" + Sanitize(meta.source, "unknown", digest), "org_id=" + Sanitize(meta.orgId, "unknown", digest),
     "event_type=" + Sanitize(meta.eventType, "unknown", digest), "year=" + Signed(meta.partition.year, 4, 3),
     "month=" + Padded(meta.partition.month, 2), "day=" + Padded(meta.partition.day, 2),
     "hour=" + Padded(meta.partition.hour, 2)]
  }

  lemma PartsTold(meta: Meta, name: string, digest: string -> string, tail: string)
    ensures WithTail(Parts(meta, name, digest), tail)
         == Hive(meta, digest) + [Sanitize(name, "object", digest) + tail]
  {
  }

  /** A data key names the source, organisation and type, then year, month, day and
      hour, each under its own label, and then the object; a manifest's key differs in
      its first and last segment alone. */
  lemma KeyWritten(meta: Meta, name: string, digest: string -> string)
    requires SixDigits(digest)
    ensures var last := Sanitize(name, "object", digest);
            && Segments(DataKey(meta, name, digest)) == ["raw"] + (Hive(meta, digest) + [last + ".json.gz"])
            && Segments(ManifestKey(meta, name, digest))
            == ["manifests"] + (Hive(meta, digest) + [last + ".manifest.json"])
  {
    var parts := Parts(meta, name, digest);
    PartsHaveNoSlash(meta, name, digest);
    SuffixesHaveNoSlash();
    RootedSegments("raw", parts, ".json.gz");
    RootedSegments("manifests", parts, ".manifest.json");
    PartsTold(meta, name, digest, ".json.gz");
    PartsTold(meta, name, digest, ".manifest.json");
    assert "raw" + "/" == "raw/" && "manifests" + "/" == "manifests/";
  }

  lemma SuffixesHaveNoSlash()
    ensures '/' !in ".json.gz" && '/' !in ".manifest.json" && '/' !in "raw" && '/' !in "manifests"
  {
  }

  function FileTail(kind: Kind): string {
    match kind
    case Data => ".json.gz"
    case Quarantine => "-quarantine.json.gz"
    case Tombstone => "-unavailable.json.gz"
  }

  lemma TailsWritten(kind: Kind)
    ensures Suffix(kind) + ".json.gz" == FileTail(kind)
  {
  }

  /** The place of a log file's object: under its organisation, type and hour, named
      after the file and, unless it is the data itself, what became of it. */
  lemma PlaceWritten(site: Site, d: Deposit)
    requires SixDigits(site.digest) && Alphanumeric(d.file.id)
    ensures var meta := Meta("eventlog", site.orgId, d.file.eventType, d.file.logged);
            exists key :: Place(site, d) == JoinPrefix(site.prefix, key)
                          && Segments(key)
                             == ["raw"] + (Hive(meta, site.digest) + ["elf-" + d.file.id + FileTail(d.kind)])
                          && Hive(meta, site.digest)[0] == "source=eventlog"
  {
    var meta, name := Meta("eventlog", site.orgId, d.file.eventType, d.file.logged), ObjectName(d.kind, d.file.id);
    KeyWritten(meta, name, site.digest);
    NameIsKept(d.kind, d.file.id, site.digest);
    SourceKept(site.digest);
    Regrouped("elf-" + d.file.id, Suffix(d.kind), ".json.gz");
    TailsWritten(d.kind);
    var key := DataKey(meta, name, site.digest);
    assert Place(site, d) == JoinPrefix(site.prefix, key);
  }

  lemma SourceKept(digest: string -> string)
    ensures "source=" + Sanitize("eventlog", "unknown", digest) == "source=eventlog"
  {
    TrimKeepsSafe("eventlog");
    CleanedSafe("eventlog");
    assert "source=" + "eventlog" == "source=eventlog";
  }

  // ------------------------------------------------------------- sanitised values

  predicate AllSpace(s: string) { forall i :: 0 <= i < |s| ==> Space(s[i]) }

  /** Trimming takes away all white space at both ends and nothing else. */
  lemma {:induction false} TrimmedExactly(s: string) returns (before: string, after: string)
    ensures s == before + Trim(s) + after && AllSpace(before) && AllSpace(after)
    ensures Trim(s) != "" ==> !Space(Trim(s)[0]) && !Space(Trim(s)[|Trim(s)| - 1])
    decreases |s|
  {
    if s == "" {
      before, after := "", "";
    } else if Space(s[0]) {
      before, after := TrimmedExactly(s[1..]);
      before := [s[0]] + before;
      assert s == [s[0]] + s[1..];
    } else if Space(s[|s| - 1]) {
      before, after := TrimmedExactly(s[..|s| - 1]);
      after := after + [s[|s| - 1]];
      assert s == s[..|s| - 1] + [s[|s| - 1]];
    } else {
      before, after := "", "";
    }
  }

  /** The characters a key may hold. */
  predicate Plain(c: char) {
    'A' <= c <= 'Z' || 'a' <= c <= 'z' || '0' <= c <= '9' || c in "_.-"
  }

  /** An empty value becomes its fallback, a plain one stays as it is, and any other
      has an underscore for each character that is not plain, and its digest. */
  lemma SanitizedExactly(s: string, fallback: string, digest: string -> string)
    ensures var t, out := Trim(s), Sanitize(s, fallback, digest);
            && (t == "" ==> out == fallback)
            && (t != "" && (forall i :: 0 <= i < |t| ==> Plain(t[i])) ==> out == t)
            && (!(forall i :: 0 <= i < |t| ==> Plain(t[i])) ==>
                  && |out| == |t| + 1 + |digest(t)| && out[|t|] == '-' && out[|t| + 1..] == digest(t)
                  && forall i :: 0 <= i < |t| ==> out[i] == if Plain(t[i]) then t[i] else '_')
  {
    var t := Trim(s);
    assert forall c :: Safe(c) <==> Plain(c);
    CleanedSafe(t);
    assert (Cleaned(t) + "-" + digest(t))[|t| + 1..] == digest(t);
  }

  predicate AllSlash(s: string) { forall i :: 0 <= i < |s| ==> s[i] == '/' }

  lemma {:induction false} SlashesTrimmed(before: string, p: string, after: string)
    requires AllSlash(before) && AllSlash(after) && p != "" && p[0] != '/' && p[|p| - 1] != '/'
    ensures TrimSlashes(before + p + after) == p
    decreases |before| + |after|
  {
    var s := before + p + after;
    if before != "" {
      assert s[0] == '/' && s[1..] == before[1..] + p + after;
      SlashesTrimmed(before[1..], p, after);
    } else if after != "" {
      assert s[0] == p[0] && s[|s| - 1] == '/' && s[..|s| - 1] == before + p + after[..|after| - 1];
      SlashesTrimmed(before, p, after[..|after| - 1]);
    } else {
      assert s == p;
    }
  }

  lemma {:induction false} OnlySlashes(s: string)
    requires AllSlash(s)
    ensures TrimSlashes(s) == ""
  {
    if s != "" { OnlySlashes(s[1..]); }
  }

  /** A prefix stands in front of the key with one slash between, whatever slashes it
      was written with; a prefix of slashes alone is none. */
  lemma PrefixWritten(before: string, p: string, after: string, key: string)
    requires AllSlash(before) && AllSlash(after) && (p == "" || (p[0] != '/' && p[|p| - 1] != '/'))
    ensures JoinPrefix(before + p + after, key) == if p == "" then key else p + "/" + key
  {
    if p == "" {
      OnlySlashes(before + p + after);
    } else {
      SlashesTrimmed(before, p, after);
    }
  }
}
