/** Object keys: a deterministic place in the archive for every object. */
module Paths {
  import opened Common
  import opened Numerals

  // --------------------------------------------------------------- sanitising

  predicate Safe(c: char) {
    || 'A' <= c <= 'Z' || 'a' <= c <= 'z' || '0' <= c <= '9'
    || c == '_' || c == '.' || c == '-'
  }

  /** The white space of Unicode. */
  predicate Space(c: char) {
    || c in "\t\n\r " || c == '\U{b}' || c == '\U{c}' || c == '\U{85}' || c == '\U{a0}' || c == '\U{1680}'
    || '\U{2000}' <= c <= '\U{200a}' || c == '\U{2028}' || c == '\U{2029}' || c == '\U{202f}'
    || c == '\U{205f}' || c == '\U{3000}'
  }

  function Trim(s: string): string
    decreases |s|
  {
    if s == "" then ""
    else if Space(s[0]) then Trim(s[1..])
    else if Space(s[|s| - 1]) then Trim(s[..|s| - 1])
    else s
  }

  predicate AllSafe(s: string) { forall i :: 0 <= i < |s| ==> Safe(s[i]) }

  function Cleaned(s: string): string {
    seq(|s|, i requires 0 <= i < |s| => if Safe(s[i]) then s[i] else '_')
  }

  /** The digest is the first three bytes of a hash, as six hexadecimal digits. */
  ghost predicate SixDigits(digest: string -> string) {
    forall s :: |digest(s)| == 6 && AllSafe(digest(s))
  }

  function Sanitize(s: string, fallback: string, digest: string -> string): string {
    var trimmed := Trim(s);
    var clean := Cleaned(trimmed);
    if clean == "" then fallback
    else if clean != trimmed then clean + "-" + digest(trimmed)
    else clean
  }

  /** Whatever is sanitised is safe in a key; in particular it has no slash. */
  lemma SanitizedIsSafe(s: string, fallback: string, digest: string -> string)
    requires SixDigits(digest) && AllSafe(fallback)
    ensures AllSafe(Sanitize(s, fallback, digest)) && '/' !in Sanitize(s, fallback, digest)
  {
    assert AllSafe(digest(Trim(s)));
  }

  lemma CleanedSafe(s: string)
    ensures AllSafe(s) <==> Cleaned(s) == s
  {
    forall i | AllSafe(s) && 0 <= i < |s| ensures Cleaned(s)[i] == s[i] {}
    forall i | Cleaned(s) == s && 0 <= i < |s| ensures Safe(s[i]) {
      assert Safe(Cleaned(s)[i]);
    }
  }

  /** Exactly when two values share a sanitised form. Values that were safe already
      never do, but a safe value can be the hashed form of an unsafe one. */
  lemma SanitizedAlike(a: string, b: string, fallback: string, digest: string -> string)
    requires SixDigits(digest) && AllSafe(fallback) && '-' !in fallback
    ensures Sanitize(a, fallback, digest) == Sanitize(b, fallback, digest) <==>
            var x, y := Trim(a), Trim(b);
            || x == y
            || (!AllSafe(x) && !AllSafe(y) && Cleaned(x) == Cleaned(y) && digest(x) == digest(y))
            || (AllSafe(x) && !AllSafe(y) && x == Cleaned(y) + "-" + digest(y))
            || (AllSafe(y) && !AllSafe(x) && y == Cleaned(x) + "-" + digest(x))
            || (x == "" && y == fallback) || (y == "" && x == fallback)
  {
    var x, y := Trim(a), Trim(b);
    CleanedSafe(x);
    CleanedSafe(y);
    HashedParts(Cleaned(x), digest(x), Cleaned(y), digest(y));
    assert '-' in Cleaned(x) + "-" + digest(x) by { assert (Cleaned(x) + "-" + digest(x))[|x|] == '-'; }
    assert '-' in Cleaned(y) + "-" + digest(y) by { assert (Cleaned(y) + "-" + digest(y))[|y|] == '-'; }
  }

  /** The safe values are not out of reach of the hashed ones: whatever an unsafe
      value turns into is itself a safe value that stays as it is. */
  lemma EveryHashHasAnAlias(s: string, fallback: string, digest: string -> string)
    requires SixDigits(digest) && AllSafe(fallback) && !AllSafe(Trim(s))
    ensures var alias := Sanitize(s, fallback, digest);
            && alias == Cleaned(Trim(s)) + "-" + digest(Trim(s))
            && Trim(alias) != Trim(s)
            && Sanitize(alias, fallback, digest) == Sanitize(s, fallback, digest)
  {
    var alias := Sanitize(s, fallback, digest);
    CleanedSafe(Trim(s));
    SanitizedIsSafe(s, fallback, digest);
    TrimKeepsSafe(alias);
    CleanedSafe(alias);
  }

  lemma HashedParts(p: string, d: string, q: string, e: string)
    requires |d| == |e|
    ensures p + "-" + d == q + "-" + e <==> p == q && d == e
  {
    if p + "-" + d == q + "-" + e {
      assert |p| == |q|;
      assert p == (p + "-" + d)[..|p|] && q == (q + "-" + e)[..|q|];
      assert d == (p + "-" + d)[|p| + 1..] && e == (q + "-" + e)[|q| + 1..];
    }
  }

  // ---------------------------------------------------------------------- keys

  datatype Hour = Hour(year: int, month: nat, day: nat, hour: nat)

  datatype Meta = Meta(source: string, orgId: string, eventType: string, partition: Hour)

  function Join(parts: seq<string>): string
    requires |parts| > 0
  {
    if |parts| == 1 then parts[0] else parts[0] + "/" + Join(parts[1..])
  }

  function Parts(meta: Meta, name: string, digest: string -> string): seq<string> {
    [ "source=" + Sanitize(meta.source, "unknown", digest),
      "org_id=" + Sanitize(meta.orgId, "unknown", digest),
      "event_type=" + Sanitize(meta.eventType, "unknown", digest),
      "year=" + Signed(meta.partition.year, 4, 3),
      "month=" + Padded(meta.partition.month, 2),
      "day=" + Padded(meta.partition.day, 2),
      "hour=" + Padded(meta.partition.hour, 2),
      Sanitize(name, "object", digest) ]
  }

  function DataKey(meta: Meta, name: string, digest: string -> string): string {
    "raw/" + Join(Parts(meta, name, digest)) + ".json.gz"
  }

  function ManifestKey(meta: Meta, name: string, digest: string -> string): string {
    "manifests/" + Join(Parts(meta, name, digest)) + ".manifest.json"
  }

  predicate NoSlash(parts: seq<string>) {
    forall i :: 0 <= i < |parts| ==> '/' !in parts[i]
  }

  /** Parts without a slash are read back from their path. */
  lemma {:induction false} JoinInjective(p: seq<string>, q: seq<string>)
    requires |p| == |q| > 0 && NoSlash(p) && NoSlash(q) && Join(p) == Join(q)
    ensures p == q
  {
    if |p| > 1 {
      SplitUnique(p[0], Join(p[1..]), q[0], Join(q[1..]), '/');
      JoinInjective(p[1..], q[1..]);
      assert p == [p[0]] + p[1..] && q == [q[0]] + q[1..];
    }
  }

  lemma FieldHasNoSlash(prefix: string, value: string)
    requires '/' !in prefix && '/' !in value
    ensures '/' !in prefix + value
  {
  }

  lemma NumberHasNoSlash(prefix: string, n: nat, width: nat)
    requires '/' !in prefix
    ensures '/' !in prefix + Padded(n, width)
  {
    PaddedReads(n, width);
  }

  lemma PartsHaveNoSlash(meta: Meta, name: string, digest: string -> string)
    requires SixDigits(digest)
    ensures NoSlash(Parts(meta, name, digest))
  {
    var p := Parts(meta, name, digest);
    SanitizedIsSafe(meta.source, "unknown", digest);
    FieldHasNoSlash("source=", Sanitize(meta.source, "unknown", digest));
    SanitizedIsSafe(meta.orgId, "unknown", digest);
    FieldHasNoSlash("org_id=", Sanitize(meta.orgId, "unknown", digest));
    SanitizedIsSafe(meta.eventType, "unknown", digest);
    FieldHasNoSlash("event_type=", Sanitize(meta.eventType, "unknown", digest));
    SanitizedIsSafe(name, "object", digest);
    NumberHasNoSlash("", if meta.partition.year < 0 then -meta.partition.year else meta.partition.year,
                     if meta.partition.year < 0 then 3 else 4);
    assert '/' !in Signed(meta.partition.year, 4, 3);
    FieldHasNoSlash("year=", Signed(meta.partition.year, 4, 3));
    NumberHasNoSlash("month=", meta.partition.month, 2);
    NumberHasNoSlash("day=", meta.partition.day, 2);
    NumberHasNoSlash("hour=", meta.partition.hour, 2);
    assert '/' !in p[0] && '/' !in p[1] && '/' !in p[2] && '/' !in p[3];
    assert '/' !in p[4] && '/' !in p[5] && '/' !in p[6] && '/' !in p[7];
  }

  /** The sanitised fields and the hour can be read back from the parts. */
  lemma PartsDetermine(m: Meta, a: string, n: Meta, b: string, digest: string -> string)
    requires Parts(m, a, digest) == Parts(n, b, digest)
    ensures Sanitize(m.source, "unknown", digest) == Sanitize(n.source, "unknown", digest)
    ensures Sanitize(m.orgId, "unknown", digest) == Sanitize(n.orgId, "unknown", digest)
    ensures Sanitize(m.eventType, "unknown", digest) == Sanitize(n.eventType, "unknown", digest)
    ensures m.partition == n.partition
    ensures Sanitize(a, "object", digest) == Sanitize(b, "object", digest)
  {
    var p, q := Parts(m, a, digest), Parts(n, b, digest);
    assert p[0] == q[0] && p[1] == q[1] && p[2] == q[2] && p[7] == q[7];
    SameTail("source=", Sanitize(m.source, "unknown", digest), Sanitize(n.source, "unknown", digest));
    SameTail("org_id=", Sanitize(m.orgId, "unknown", digest), Sanitize(n.orgId, "unknown", digest));
    SameTail("event_type=", Sanitize(m.eventType, "unknown", digest), Sanitize(n.eventType, "unknown", digest));
    assert p[3] == q[3] && p[4] == q[4] && p[5] == q[5] && p[6] == q[6];
    SameTail("year=", Signed(m.partition.year, 4, 3), Signed(n.partition.year, 4, 3));
    SignedReads(m.partition.year, n.partition.year, 4, 3);
    SamePadded("month=", m.partition.month, n.partition.month, 2);
    SamePadded("day=", m.partition.day, n.partition.day, 2);
    SamePadded("hour=", m.partition.hour, n.partition.hour, 2);
  }

  ghost predicate SamePlace(m: Meta, a: string, n: Meta, b: string, digest: string -> string) {
    && Sanitize(m.source, "unknown", digest) == Sanitize(n.source, "unknown", digest)
    && Sanitize(m.orgId, "unknown", digest) == Sanitize(n.orgId, "unknown", digest)
    && Sanitize(m.eventType, "unknown", digest) == Sanitize(n.eventType, "unknown", digest)
    && m.partition == n.partition
    && Sanitize(a, "object", digest) == Sanitize(b, "object", digest)
  }

  lemma RelativeKeysDetermine(m: Meta, a: string, n: Meta, b: string, digest: string -> string)
    requires SixDigits(digest)
    ensures DataKey(m, a, digest) == DataKey(n, b, digest) <==> SamePlace(m, a, n, b, digest)
    ensures ManifestKey(m, a, digest) == ManifestKey(n, b, digest) <==> SamePlace(m, a, n, b, digest)
    ensures DataKey(m, a, digest) != ManifestKey(n, b, digest)
  {
    var p, q := Parts(m, a, digest), Parts(n, b, digest);
    PartsHaveNoSlash(m, a, digest);
    PartsHaveNoSlash(n, b, digest);
    if DataKey(m, a, digest) == DataKey(n, b, digest) {
      SameHead("raw/" + Join(p), "raw/" + Join(q), ".json.gz");
      SameTail("raw/", Join(p), Join(q));
      JoinInjective(p, q);
      PartsDetermine(m, a, n, b, digest);
    }
    if ManifestKey(m, a, digest) == ManifestKey(n, b, digest) {
      SameHead("manifests/" + Join(p), "manifests/" + Join(q), ".manifest.json");
      SameTail("manifests/", Join(p), Join(q));
      JoinInjective(p, q);
      PartsDetermine(m, a, n, b, digest);
    }
    if SamePlace(m, a, n, b, digest) {
      assert p == q;
    }
    assert DataKey(m, a, digest)[0] == 'r' && ManifestKey(n, b, digest)[0] == 'm';
  }

  function TrimSlashes(s: string): string
    decreases |s|
  {
    if s == "" then ""
    else if s[0] == '/' then TrimSlashes(s[1..])
    else if s[|s| - 1] == '/' then TrimSlashes(s[..|s| - 1])
    else s
  }

  /** The configured prefix in front of a key. */
  function JoinPrefix(prefix: string, key: string): string {
    var p := TrimSlashes(prefix);
    if p == "" then key else p + "/" + key
  }

  lemma PrefixKeeps(prefix: string, a: string, b: string)
    ensures JoinPrefix(prefix, a) == JoinPrefix(prefix, b) <==> a == b
  {
    if JoinPrefix(prefix, a) == JoinPrefix(prefix, b) && TrimSlashes(prefix) != "" {
      SameTail(TrimSlashes(prefix) + "/", a, b);
    }
  }

  /** Under any prefix two objects share a data key exactly when every sanitised
      field, the hour and the sanitised name agree; their manifests then share a key
      too, and only then. */
  lemma KeysDetermine(prefix: string, m: Meta, a: string, n: Meta, b: string, digest: string -> string)
    requires SixDigits(digest)
    ensures JoinPrefix(prefix, DataKey(m, a, digest)) == JoinPrefix(prefix, DataKey(n, b, digest))
       <==> SamePlace(m, a, n, b, digest)
    ensures JoinPrefix(prefix, ManifestKey(m, a, digest)) == JoinPrefix(prefix, ManifestKey(n, b, digest))
       <==> SamePlace(m, a, n, b, digest)
    ensures JoinPrefix(prefix, DataKey(m, a, digest)) != JoinPrefix(prefix, ManifestKey(n, b, digest))
  {
    RelativeKeysDetermine(m, a, n, b, digest);
    PrefixKeeps(prefix, DataKey(m, a, digest), DataKey(n, b, digest));
    PrefixKeeps(prefix, ManifestKey(m, a, digest), ManifestKey(n, b, digest));
    PrefixKeeps(prefix, DataKey(m, a, digest), ManifestKey(n, b, digest));
  }

  // -------------------------------------------------------------- EventLogFiles

  datatype Kind = Data | Quarantine | Tombstone

  datatype LogFile = LogFile(id: string, eventType: string, logged: Hour)

  datatype Deposit = Deposit(kind: Kind, file: LogFile)

  /** Where one collector writes: the prefix, its organisation and the hash in use. */
  datatype Site = Site(prefix: string, orgId: string, digest: string -> string)

  predicate Alphanumeric(id: string) {
    forall i :: 0 <= i < |id| ==> 'A' <= id[i] <= 'Z' || 'a' <= id[i] <= 'z' || '0' <= id[i] <= '9'
  }

  function Suffix(kind: Kind): string {
    match kind
    case Data => ""
    case Quarantine => "-quarantine"
    case Tombstone => "-unavailable"
  }

  function ObjectName(kind: Kind, id: string): string { "elf-" + id + Suffix(kind) }

  function Place(site: Site, d: Deposit): string {
    JoinPrefix(site.prefix, DataKey(Meta("eventlog", site.orgId, d.file.eventType, d.file.logged),
                                    ObjectName(d.kind, d.file.id), site.digest))
  }

  lemma {:induction false} TrimKeepsSafe(s: string)
    requires AllSafe(s)
    ensures Trim(s) == s
  {
    if s != "" {
      assert Safe(s[0]) && Safe(s[|s| - 1]);
    }
  }

  lemma NameIsKept(kind: Kind, id: string, digest: string -> string)
    requires Alphanumeric(id)
    ensures Sanitize(ObjectName(kind, id), "object", digest) == ObjectName(kind, id)
  {
    var name := ObjectName(kind, id);
    assert AllSafe("elf-") && AllSafe(Suffix(kind)) && AllSafe(id);
    assert AllSafe(name);
    TrimKeepsSafe(name);
    CleanedSafe(name);
  }

  /** A string splits before its first dash in one way only. */
  lemma SplitAtDash(a: string, s: string, b: string, t: string)
    requires '-' !in a && '-' !in b && a + s == b + t
    requires (s == "" || s[0] == '-') && (t == "" || t[0] == '-')
    ensures a == b && s == t
  {
    DashFollows(a, s);
    DashFollows(b, t);
    assert a == (a + s)[..|a|] && b == (b + t)[..|b|];
    SameTail(a, s, t);
  }

  lemma DashFollows(a: string, s: string)
    requires '-' !in a && (s == "" || s[0] == '-')
    ensures IndexOf(a + s, '-') == |a|
  {
    if s == "" {
      assert a + s == a;
    } else {
      assert a + s == a + ['-'] + s[1..];
      IndexOfSeparator(a, '-', s[1..]);
    }
  }

  lemma NameTail(k: Kind, id: string)
    ensures ObjectName(k, id)[4..] == id + Suffix(k)
  {
    Dropped("elf-", id, Suffix(k));
  }

  lemma Dropped(p: string, a: string, s: string)
    ensures (p + a + s)[|p|..] == a + s
  {
  }

  /** Names never meet: not for two files, and not for two kinds of object. */
  lemma NamesApart(k: Kind, a: string, l: Kind, b: string)
    requires Alphanumeric(a) && Alphanumeric(b) && ObjectName(k, a) == ObjectName(l, b)
    ensures k == l && a == b
  {
    NameTail(k, a);
    NameTail(l, b);
    SuffixShape(k);
    SuffixShape(l);
    SplitAtDash(a, Suffix(k), b, Suffix(l));
    SuffixesApart(k, l);
  }

  lemma SuffixShape(k: Kind)
    ensures Suffix(k) == "" || Suffix(k)[0] == '-'
  {
  }

  lemma SuffixesApart(k: Kind, l: Kind)
    requires Suffix(k) == Suffix(l)
    ensures k == l
  {
    assert |Suffix(k)| == |Suffix(l)|;
  }

  lemma PlacesApart(site: Site, d: Deposit, e: Deposit)
    requires SixDigits(site.digest) && Alphanumeric(d.file.id) && Alphanumeric(e.file.id)
    requires Place(site, d) == Place(site, e)
    ensures d.kind == e.kind && d.file.id == e.file.id
  {
    KeysDetermine(site.prefix,
                  Meta("eventlog", site.orgId, d.file.eventType, d.file.logged), ObjectName(d.kind, d.file.id),
                  Meta("eventlog", site.orgId, e.file.eventType, e.file.logged), ObjectName(e.kind, e.file.id),
                  site.digest);
    NameIsKept(d.kind, d.file.id, site.digest);
    NameIsKept(e.kind, e.file.id, site.digest);
    NamesApart(d.kind, d.file.id, e.kind, e.file.id);
  }

  /** The archive after a history of writes, however often each was repeated. */
  function Stored(site: Site, history: seq<Deposit>): map<string, Deposit> {
    if history == [] then map[]
    else
      var last := history[|history| - 1];
      Stored(site, history[..|history| - 1])[Place(site, last) := last]
  }

  /** A file's description does not change while it exists. */
  ghost predicate Steady(history: seq<Deposit>) {
    && (forall d :: d in history ==> Alphanumeric(d.file.id))
    && (forall d, e :: d in history && e in history && d.file.id == e.file.id ==> d.file == e.file)
  }

  /** Over any history of writes, with any number of repeats, every object written
      is stored at its own key and under no other, and holds what was written for
      that file and kind: at most one data, one quarantine and one tombstone object
      a file, and no file ever overwrites another. */
  lemma {:induction false} OneKeyEach(site: Site, history: seq<Deposit>)
    requires SixDigits(site.digest) && Steady(history)
    ensures forall key :: key in Stored(site, history) ==>
              Stored(site, history)[key] in history && key == Place(site, Stored(site, history)[key])
    ensures forall d :: d in history ==>
              Place(site, d) in Stored(site, history) && Stored(site, history)[Place(site, d)] == d
  {
    if history != [] {
      var front, last := history[..|history| - 1], history[|history| - 1];
      assert history == front + [last];
      assert Steady(front);
      OneKeyEach(site, front);
      forall d | d in history
        ensures Place(site, d) in Stored(site, history) && Stored(site, history)[Place(site, d)] == d
      {
        if Place(site, d) == Place(site, last) {
          PlacesApart(site, d, last);
        }
      }
    }
  }
}
