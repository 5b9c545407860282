/**
 What flattening guarantees: every declared name resolves, well-typed records
 flatten without an error, and for schemas whose unions only say "nullable" the
 flattened record still determines the original.
 */
module FlattenProofs {
  import opened Common
  import opened Flatten

  // ---------------------------------------------------------- schema resolution

  /** Every name stands for a type of that name, never for another reference. */
  predicate NamesStand(declared: Names) {
    forall n :: n in declared ==> (declared[n].Record? || declared[n].Named?) && declared[n].name == n
  }

  lemma {:induction false} NamespaceFound(full: string, enclosing: string)
    ensures if exists ns :: BeginsWith(full, ns) then BeginsWith(full, NamespaceOf(full, enclosing))
            else NamespaceOf(full, enclosing) == enclosing
    decreases |full|
  {
    forall ns | BeginsWith(full, ns) ensures full != "" { NeverEmpty(full, ns); }
    if full != "" {
      var front, last := full[..|full| - 1], full[|full| - 1];
      if last == '.' {
        assert full == front + "." + "" && '.' !in "";
        assert BeginsWith(full, front);
      } else {
        NamespaceFound(front, enclosing);
        forall ns ensures BeginsWith(full, ns) <==> BeginsWith(front, ns) { BeginsLonger(front, last, ns); }
        assert full == front + [last];
      }
    }
  }

  lemma NeverEmpty(full: string, ns: string)
    requires BeginsWith(full, ns)
    ensures full != ""
  {
    var simple :| '.' !in simple && full == ns + "." + simple;
    assert |full| == |ns| + 1 + |simple|;
  }

  lemma BeginsLonger(front: string, last: char, ns: string)
    requires last != '.'
    ensures BeginsWith(front + [last], ns) <==> BeginsWith(front, ns)
  {
    if BeginsWith(front, ns) {
      var simple :| '.' !in simple && front == ns + "." + simple;
      assert front + [last] == ns + "." + (simple + [last]);
    }
    if BeginsWith(front + [last], ns) {
      var simple :| '.' !in simple && front + [last] == ns + "." + simple;
      assert (ns + "." + simple)[|ns|] == '.';
      assert (front + [last])[|front|] == last;
      var rest := simple[..|simple| - 1];
      assert simple == rest + [simple[|simple| - 1]];
      assert front + [last] == (ns + "." + rest) + [simple[|simple| - 1]];
      assert front == (front + [last])[..|front|] == ns + "." + rest;
    }
  }

  lemma OneNamespace(full: string, a: string, b: string)
    requires BeginsWith(full, a) && BeginsWith(full, b)
    ensures a == b
  {
    LastDot(full, a);
    LastDot(full, b);
    assert a == full[..|a|] && b == full[..|b|];
  }

  lemma LastDot(full: string, ns: string)
    requires BeginsWith(full, ns)
    ensures |ns| < |full| && full[..|ns|] == ns && full[|ns|] == '.'
    ensures forall i :: |ns| < i < |full| ==> full[i] != '.'
  {
    var simple :| '.' !in simple && full == ns + "." + simple;
    assert forall i :: |ns| < i < |full| ==> full[i] == simple[i - |ns| - 1];
  }

  /** The parser's two ways with names are the specification's. */
  lemma NamesAgree(name: string, namespace: string, enclosing: string)
    ensures FullName(name, namespace) == InNamespace(name, namespace)
    ensures NamespaceOf(name, enclosing) == Inner(name, enclosing)
  {
    NamespaceFound(name, enclosing);
    if exists ns :: BeginsWith(name, ns) {
      OneNamespace(name, NamespaceOf(name, enclosing), Inner(name, enclosing));
    }
  }

  /** Parsing collects exactly the names the schema declares, at any depth and
      before or after their uses, and gives each a type of its own. */
  lemma {:induction false} ParseDeclares(raw: Json, namespace: string)
    requires ParseType(raw, namespace).Parsed?
    ensures ParseType(raw, namespace).declared.Keys == Declared(raw, namespace)
    ensures NamesStand(ParseType(raw, namespace).declared)
    decreases raw, 1
  {
    match raw
    case JArray(items) => BranchesDeclare(items, namespace);
    case JObject(members) =>
      var kind := Text(raw, "type");
      var ns := if Text(raw, "namespace") != "" then Text(raw, "namespace") else namespace;
      NamesAgree(Text(raw, "name"), ns, ns);
      NamesAgree(FullName(Text(raw, "name"), ns), ns, ns);
      if kind == "record" || kind == "error" {
        if "fields" in members && members["fields"].JArray? {
          FieldsDeclare(members["fields"].items, NamespaceOf(FullName(Text(raw, "name"), ns), ns));
        }
      } else if kind == "array" {
        ParseDeclares(members["items"], ns);
      } else if kind == "map" {
        ParseDeclares(members["values"], ns);
      }
    case _ =>
  }

  lemma {:induction false} BranchesDeclare(items: seq<Json>, namespace: string)
    requires ParseBranches(items, namespace).Parsed?
    ensures ParseBranches(items, namespace).declared.Keys == DeclaredIn(items, namespace, false)
    ensures NamesStand(ParseBranches(items, namespace).declared)
    decreases items, 0
  {
    if items != [] {
      ParseDeclares(items[0], namespace);
      BranchesDeclare(items[1..], namespace);
    }
  }

  lemma {:induction false} FieldsDeclare(items: seq<Json>, namespace: string)
    requires ParseFields(items, namespace).Parsed?
    ensures ParseFields(items, namespace).declared.Keys == DeclaredIn(items, namespace, true)
    ensures NamesStand(ParseFields(items, namespace).declared)
    decreases items, 0
  {
    if items != [] {
      ParseDeclares(items[0].members["type"], namespace);
      FieldsDeclare(items[1..], namespace);
    }
  }

  /** A reference to a declared name resolves in one step, to the type of that
      name; resolving again changes nothing, whatever the type was. */
  lemma ResolvesInOneStep(raw: Json, t: AvroType)
    requires ParseType(raw, "").Parsed?
    ensures var named := ParseType(raw, "").declared;
            && Resolve(named, Resolve(named, t)) == Resolve(named, t)
            && (t.Ref? && t.name != "" && t.name in Declared(raw, "") ==>
                  && !Resolve(named, t).Ref?
                  && BranchName(Resolve(named, t)) == t.name)
  {
    ParseDeclares(raw, "");
  }

  /** A reference that only matches one declared name by its last components
      resolves to that name's type. */
  lemma SuffixResolves(named: Names, ref: string, n: string)
    requires NamesStand(named) && Unambiguous(named, ref)
    requires ref != "" && ref !in named && n in named && EndsIn(n, ref)
    ensures Resolve(named, Ref(ref)) == named[n] && BranchName(named[n]) == n
  {
    assert BySuffix(named, ref, n);
  }

  // -------------------------------------------------------------- typed values

  const MICRO: int := 1_000

  /** A name in the sense of the specification, as every enum symbol is. */
  predicate IsName(s: string) {
    && s != "" && !('0' <= s[0] <= '9')
    && forall i :: 0 <= i < |s| ==> 'A' <= s[i] <= 'Z' || 'a' <= s[i] <= 'z' || '0' <= s[i] <= '9' || s[i] == '_'
  }

  const INT_LIMIT: int := 0x8000_0000
  const LONG_LIMIT: int := 0x8000_0000_0000_0000

  /** So many units, as a number of 32 or of 64 bits. */
  predicate IntOf(n: int, unit: int)
    requires unit > 0
  {
    n % unit == 0 && -INT_LIMIT <= n / unit < INT_LIMIT
  }

  predicate LongOf(n: int, unit: int)
    requires unit > 0
  {
    n % unit == 0 && -LONG_LIMIT <= n / unit < LONG_LIMIT
  }

  /** What a decoder yields for a primitive type: the plain value, or for a logical
      type it knows an instant, a duration or a ratio of that precision. */
  predicate PrimitiveFits(kind: string, logical: string, s: Scalar) {
    if kind == "string" then s.Str?
    else if kind == "bytes" then if logical == "decimal" then s.Ratio? else s.Bytes?
    else if kind == "boolean" then s.Bool?
    else if kind == "float" then s.Float?
    else if kind == "double" then s.Double?
    else if kind == "int" then
      if logical == "date" then s.Moment? && IntOf(s.nanos, NANOS_PER_DAY)
      else if logical == "time-millis" then s.Span? && IntOf(s.nanos, NANOS_PER_MILLI)
      else s.Int? && IntOf(s.n, 1)
    else if kind == "long" then
      if logical == "timestamp-millis" then s.Moment? && LongOf(s.nanos, NANOS_PER_MILLI)
      else if logical == "timestamp-micros" then s.Moment? && LongOf(s.nanos, MICRO)
      else if logical == "time-micros" then s.Span? && LongOf(s.nanos, MICRO)
      else s.Long? && LongOf(s.n, 1)
    else false
  }

  predicate NamedFits(kind: string, logical: string, s: Scalar) {
    if kind == "enum" then s.Str? && IsName(s.s)
    else if logical == "decimal" then s.Ratio?
    else s.Bytes?
  }

  predicate IsNull(t: AvroType) { t.Primitive? && t.kind == "null" }

  predicate HasField(fields: seq<Field>, name: string) {
    exists i :: 0 <= i < |fields| && fields[i].name == name
  }

  predicate DistinctFields(fields: seq<Field>) {
    forall i, j :: 0 <= i < j < |fields| ==> fields[i].name != fields[j].name
  }

  /** The value is one a decoder yields for the type: null unwrapped, any other
      union value under its branch's name. A whole value has every field of its
      records; the code also takes records that lack some. */
  ghost predicate Fits(named: Names, whole: bool, t0: AvroType, v: Value)
    decreases v
  {
    var t := Resolve(named, t0);
    match t
    case Primitive(kind, logical) =>
      if kind == "null" then v.Nil? else v.Leaf? && PrimitiveFits(kind, logical, v.scalar)
    case Named(kind, _, logical) => v.Leaf? && NamedFits(kind, logical, v.scalar)
    case Record(_, fields) =>
      && v.Obj?
      && (forall n :: n in v.members ==> HasField(fields, n))
      && (whole ==> forall n :: HasField(fields, n) ==> n in v.members)
      && (forall i :: 0 <= i < |fields| && fields[i].name in v.members ==>
            Fits(named, whole, fields[i].typ, v.members[fields[i].name]))
    case Array(items) => v.Arr? && forall i :: 0 <= i < |v.items| ==> Fits(named, whole, items, v.items[i])
    case Map(values) => v.Obj? && forall k :: k in v.members ==> Fits(named, whole, values, v.members[k])
    case Union(branches) =>
      if v.Nil? then exists i :: 0 <= i < |branches| && IsNull(Resolve(named, branches[i]))
      else
        && v.Obj?
        && |v.members| == 1
        && exists i :: 0 <= i < |branches| && ChosenBranch(named, branches[i], OnlyKey(v.members))
                       && Fits(named, whole, branches[i], v.members[OnlyKey(v.members)])
    case Ref(_) => false
  }

  ghost predicate ChosenBranch(named: Names, b: AvroType, key: string) {
    !IsNull(Resolve(named, b)) && BranchName(Resolve(named, b)) == key
  }

  /** The branches of every union in the type have different names. */
  ghost predicate Lawful(named: Names, t: AvroType) {
    match t
    case Record(_, fields) => forall i :: 0 <= i < |fields| ==> Lawful(named, fields[i].typ)
    case Array(items) => Lawful(named, items)
    case Map(values) => Lawful(named, values)
    case Union(branches) =>
      && DistinctBranches(named, branches)
      && forall i :: 0 <= i < |branches| ==> Lawful(named, branches[i])
    case _ => true
  }

  ghost predicate DistinctBranches(named: Names, branches: seq<AvroType>) {
    forall i, j :: 0 <= i < j < |branches| ==>
      BranchName(Resolve(named, branches[i])) != BranchName(Resolve(named, branches[j]))
  }

  ghost predicate AllLawful(named: Names) {
    forall n :: n in named ==> Lawful(named, named[n])
  }

  lemma {:induction false} FindsTheBranch(named: Names, branches: seq<AvroType>, i: nat)
    requires i < |branches| && DistinctBranches(named, branches)
    ensures FindBranch(named, branches, BranchName(Resolve(named, branches[i]))) == Some(branches[i])
  {
    if i > 0 {
      var tail := branches[1..];
      assert DistinctBranches(named, tail) by {
        forall a, b | 0 <= a < b < |tail|
          ensures BranchName(Resolve(named, tail[a])) != BranchName(Resolve(named, tail[b]))
        {
          assert tail[a] == branches[a + 1] && tail[b] == branches[b + 1];
        }
      }
      FindsTheBranch(named, tail, i - 1);
    }
  }

  lemma {:induction false} FieldsConvert(named: Names, fields: seq<Field>, v: Value)
    requires v.Obj?
    requires forall i :: 0 <= i < |fields| && fields[i].name in v.members ==>
               Flat(named, fields[i].typ, v.members[fields[i].name]).Some?
    ensures FlatFields(named, fields, v).Some?
  {
    if fields != [] {
      FieldsConvert(named, fields[..|fields| - 1], v);
    }
  }

  /** The branch a wrapped value fits. */
  lemma BranchOf(named: Names, whole: bool, t: AvroType, v: Value) returns (i: nat)
    requires Resolve(named, t).Union? && Fits(named, whole, t, v) && !v.Nil?
    ensures v.Obj? && |v.members| == 1
    ensures i < |Resolve(named, t).branches|
    ensures ChosenBranch(named, Resolve(named, t).branches[i], OnlyKey(v.members))
    ensures Fits(named, whole, Resolve(named, t).branches[i], v.members[OnlyKey(v.members)])
  {
    var branches := Resolve(named, t).branches;
    i :| 0 <= i < |branches| && ChosenBranch(named, branches[i], OnlyKey(v.members))
         && Fits(named, whole, branches[i], v.members[OnlyKey(v.members)]);
  }

  /** Flattening a well-typed value does not fail. */
  lemma {:induction false} FlatSucceeds(named: Names, whole: bool, t: AvroType, v: Value)
    requires AllLawful(named) && Lawful(named, t) && Fits(named, whole, t, v)
    ensures Flat(named, t, v).Some?
    decreases v
  {
    var r := Resolve(named, t);
    assert Lawful(named, r);
    match r
    case Record(_, fields) =>
      forall i | 0 <= i < |fields| && fields[i].name in v.members
        ensures Flat(named, fields[i].typ, v.members[fields[i].name]).Some?
      {
        FlatSucceeds(named, whole, fields[i].typ, v.members[fields[i].name]);
      }
      FieldsConvert(named, fields, v);
    case Array(items) =>
      forall i | 0 <= i < |v.items| ensures Flat(named, items, v.items[i]).Some? {
        FlatSucceeds(named, whole, items, v.items[i]);
      }
    case Map(values) =>
      forall k | k in v.members ensures Flat(named, values, v.members[k]).Some? {
        FlatSucceeds(named, whole, values, v.members[k]);
      }
    case Union(branches) =>
      if !v.Nil? {
        var i := BranchOf(named, whole, t, v);
        FindsTheBranch(named, branches, i);
        FlatSucceeds(named, whole, branches[i], v.members[OnlyKey(v.members)]);
      }
    case _ =>
  }

  lemma FlatArray(named: Names, t: AvroType, v: Value)
    requires Resolve(named, t).Array? && v.Arr? && Flat(named, t, v).Some?
    ensures var w := Flat(named, t, v).value;
            && w.Arr? && |w.items| == |v.items|
            && forall i :: 0 <= i < |v.items| ==> Flat(named, Resolve(named, t).items, v.items[i]) == Some(w.items[i])
  {
  }

  lemma FlatMap(named: Names, t: AvroType, v: Value)
    requires Resolve(named, t).Map? && v.Obj? && Flat(named, t, v).Some?
    ensures var w := Flat(named, t, v).value;
            && w.Obj? && w.members.Keys == v.members.Keys
            && forall k :: k in v.members ==> Flat(named, Resolve(named, t).values, v.members[k]) == Some(w.members[k])
  {
  }

  // ---------------------------------------------------------- what records keep

  function TypeOf(fields: seq<Field>, name: string): AvroType
    requires HasField(fields, name)
  {
    if fields[|fields| - 1].name == name then fields[|fields| - 1].typ
    else
      assert HasField(fields[..|fields| - 1], name) by {
        var i :| 0 <= i < |fields| && fields[i].name == name;
        assert fields[..|fields| - 1][i].name == name;
      }
      TypeOf(fields[..|fields| - 1], name)
  }

  /** A flattened record has exactly the schema's fields that the record has,
      each converted with its own type; anything else is dropped. */
  lemma {:induction false} KeepsPresentFields(named: Names, fields: seq<Field>, v: Value)
    requires v.Obj? && FlatFields(named, fields, v).Some?
    ensures forall n :: n in FlatFields(named, fields, v).value <==> n in v.members && HasField(fields, n)
    ensures forall n :: n in FlatFields(named, fields, v).value ==>
              Flat(named, TypeOf(fields, n), v.members[n]) == Some(FlatFields(named, fields, v).value[n])
  {
    if fields != [] {
      var front, last := fields[..|fields| - 1], fields[|fields| - 1];
      KeepsPresentFields(named, front, v);
      forall n ensures HasField(fields, n) <==> HasField(front, n) || last.name == n {
        if HasField(front, n) {
          var i :| 0 <= i < |front| && front[i].name == n;
          assert fields[i].name == n;
        }
        if HasField(fields, n) && last.name != n {
          var i :| 0 <= i < |fields| && fields[i].name == n;
          assert front[i].name == n;
        }
      }
    }
  }

  // ----------------------------------------------------------------- round trip

  /** No logical types, and unions only of null and one other type. */
  ghost predicate Simple(named: Names, t: AvroType) {
    match t
    case Primitive(_, logical) => logical == ""
    case Named(_, _, logical) => logical == ""
    case Record(_, fields) => forall i :: 0 <= i < |fields| ==> Simple(named, fields[i].typ)
    case Array(items) => Simple(named, items)
    case Map(values) => Simple(named, values)
    case Union(branches) =>
      && |branches| == 2
      && (forall i :: 0 <= i < |branches| ==> Simple(named, branches[i]))
      && (|| (NullBranch(named, branches[0]) && Plain(named, branches[1]))
          || (NullBranch(named, branches[1]) && Plain(named, branches[0])))
    case Ref(_) => !Resolve(named, t).Ref?
  }

  ghost predicate NullBranch(named: Names, b: AvroType) {
    Resolve(named, b) == Primitive("null", "")
  }

  ghost predicate Plain(named: Names, b: AvroType) {
    var r := Resolve(named, b);
    !r.Union? && BranchName(r) != "null"
  }

  ghost predicate AllSimple(named: Names) {
    forall n :: n in named ==> Simple(named, named[n])
  }

  ghost function OtherBranch(named: Names, branches: seq<AvroType>): AvroType
    requires |branches| == 2
  {
    if IsNull(Resolve(named, branches[0])) then branches[1] else branches[0]
  }

  /** Puts the union wrappers back, reading the schema alone. */
  ghost function Wrap(named: Names, t0: AvroType, w: Value): Value
    decreases w, 1
  {
    var t := Resolve(named, t0);
    if !t.Union? then WrapPlain(named, t, w)
    else if w.Nil? || |t.branches| != 2 then Nil
    else
      var r := Resolve(named, OtherBranch(named, t.branches));
      Obj(map[BranchName(r) := WrapPlain(named, r, w)])
  }

  ghost function WrapPlain(named: Names, t: AvroType, w: Value): Value
    decreases w, 0
  {
    if t.Record? && w.Obj? then
      Obj(map n | n in w.members && HasField(t.fields, n) :: Wrap(named, TypeOf(t.fields, n), w.members[n]))
    else if t.Array? && w.Arr? then
      Arr(seq(|w.items|, i requires 0 <= i < |w.items| => Wrap(named, t.items, w.items[i])))
    else if t.Map? && w.Obj? then Obj(map k | k in w.members :: Wrap(named, t.values, w.members[k]))
    else w
  }

  lemma SimpleResolved(named: Names, t: AvroType)
    requires AllSimple(named) && Simple(named, t)
    ensures Simple(named, Resolve(named, t)) && !Resolve(named, t).Ref?
  {
  }

  lemma SimpleIsDistinct(named: Names, branches: seq<AvroType>)
    requires Simple(named, Union(branches))
    ensures DistinctBranches(named, branches)
  {
  }

  /** Each case of the round trip below, given it for the parts. */
  ghost predicate GoesRound(named: Names, t: AvroType, v: Value) {
    && Flat(named, t, v).Some?
    && Wrap(named, t, Flat(named, t, v).value) == v
    && (Flat(named, t, v).value.Nil? <==> v.Nil?)
  }

  lemma RecordFlat(named: Names, fields: seq<Field>, v: Value)
    requires v.Obj?
    requires forall n :: n in v.members ==> HasField(fields, n)
    requires forall i :: 0 <= i < |fields| && fields[i].name in v.members ==>
               GoesRound(named, fields[i].typ, v.members[fields[i].name])
    ensures FlatFields(named, fields, v).Some?
    ensures var out := FlatFields(named, fields, v).value;
            && (forall n :: n in out <==> n in v.members)
            && (forall n :: n in v.members ==> Wrap(named, TypeOf(fields, n), out[n]) == v.members[n])
  {
    FieldsConvert(named, fields, v);
    KeepsPresentFields(named, fields, v);
    forall n | n in v.members
      ensures Wrap(named, TypeOf(fields, n), FlatFields(named, fields, v).value[n]) == v.members[n]
    {
      var i := LastField(fields, n);
      assert GoesRound(named, fields[i].typ, v.members[fields[i].name]);
    }
  }

  lemma RecordGoesRound(named: Names, t: AvroType, fields: seq<Field>, v: Value)
    requires Resolve(named, t).Record? && Resolve(named, t).fields == fields && v.Obj?
    requires forall n :: n in v.members ==> HasField(fields, n)
    requires forall i :: 0 <= i < |fields| && fields[i].name in v.members ==>
               GoesRound(named, fields[i].typ, v.members[fields[i].name])
    ensures GoesRound(named, t, v)
  {
    RecordFlat(named, fields, v);
    var out := FlatFields(named, fields, v).value;
    assert Flat(named, t, v) == Some(Obj(out));
    var back := Wrap(named, t, Obj(out));
    assert back == WrapPlain(named, Resolve(named, t), Obj(out));
    assert back.Obj? && back.members == v.members;
  }

  /** The position TypeOf reads. */
  ghost function LastField(fields: seq<Field>, name: string): (i: nat)
    requires HasField(fields, name)
    ensures i < |fields| && fields[i].name == name && fields[i].typ == TypeOf(fields, name)
  {
    if fields[|fields| - 1].name == name then |fields| - 1
    else
      assert HasField(fields[..|fields| - 1], name) by {
        var i :| 0 <= i < |fields| && fields[i].name == name;
        assert fields[..|fields| - 1][i].name == name;
      }
      LastField(fields[..|fields| - 1], name)
  }

  lemma PlainGoesRound(named: Names, whole: bool, t: AvroType, v: Value)
    requires Simple(named, Resolve(named, t)) && Fits(named, whole, t, v)
    requires v.Nil? || Resolve(named, t).Primitive? || Resolve(named, t).Named?
    ensures GoesRound(named, t, v)
  {
  }

  lemma ArrayGoesRound(named: Names, t: AvroType, v: Value)
    requires Resolve(named, t).Array? && v.Arr?
    requires forall i :: 0 <= i < |v.items| ==> GoesRound(named, Resolve(named, t).items, v.items[i])
    ensures GoesRound(named, t, v)
  {
    assert Flat(named, t, v).Some?;
    var out := Flat(named, t, v).value;
    var back := Wrap(named, t, out);
    assert back == WrapPlain(named, Resolve(named, t), out);
    assert back.Arr? && |back.items| == |v.items|;
    forall i | 0 <= i < |v.items| ensures back.items[i] == v.items[i] {
      assert GoesRound(named, Resolve(named, t).items, v.items[i]);
    }
    assert back.items == v.items;
  }

  lemma MapGoesRound(named: Names, t: AvroType, v: Value)
    requires Resolve(named, t).Map? && v.Obj?
    requires forall k :: k in v.members ==> GoesRound(named, Resolve(named, t).values, v.members[k])
    ensures GoesRound(named, t, v)
    ensures Flat(named, t, v).value.Obj? && Flat(named, t, v).value.members.Keys == v.members.Keys
  {
    assert Flat(named, t, v).Some?;
    var out := Flat(named, t, v).value;
    var back := Wrap(named, t, out);
    assert back == WrapPlain(named, Resolve(named, t), out);
    assert back.Obj? && back.members.Keys == v.members.Keys;
    forall k | k in v.members ensures back.members[k] == v.members[k] {
      assert GoesRound(named, Resolve(named, t).values, v.members[k]);
    }
    assert back.members == v.members;
  }

  lemma UnionGoesRound(named: Names, t: AvroType, branches: seq<AvroType>, i: nat, v: Value)
    requires Resolve(named, t) == Union(branches) && Simple(named, Union(branches)) && i < |branches|
    requires v.Obj? && |v.members| == 1 && ChosenBranch(named, branches[i], OnlyKey(v.members))
    requires GoesRound(named, branches[i], v.members[OnlyKey(v.members)])
    requires !v.members[OnlyKey(v.members)].Nil?
    ensures GoesRound(named, t, v)
  {
    var key := OnlyKey(v.members);
    SimpleIsDistinct(named, branches);
    FindsTheBranch(named, branches, i);
    assert OtherBranch(named, branches) == branches[i];
    assert Resolve(named, branches[i]) != Primitive("null", "");
    assert v.members == map[key := v.members[key]];
  }

  /** The parts of a well-typed record are well typed. */
  lemma RecordParts(named: Names, whole: bool, t: AvroType, v: Value, i: nat)
    requires Resolve(named, t).Record? && Simple(named, Resolve(named, t)) && Fits(named, whole, t, v)
    requires v.Obj? && i < |Resolve(named, t).fields| && Resolve(named, t).fields[i].name in v.members
    ensures var f := Resolve(named, t).fields[i];
            Simple(named, f.typ) && Fits(named, whole, f.typ, v.members[f.name])
  {
  }

  lemma {:induction false} RecordRoundTrip(named: Names, whole: bool, t: AvroType, v: Value)
    requires AllSimple(named) && Simple(named, Resolve(named, t)) && Fits(named, whole, t, v)
    requires Resolve(named, t).Record?
    ensures GoesRound(named, t, v)
    decreases v, 0
  {
    var fields := Resolve(named, t).fields;
    forall i | 0 <= i < |fields| && fields[i].name in v.members
      ensures GoesRound(named, fields[i].typ, v.members[fields[i].name])
    {
      RecordParts(named, whole, t, v, i);
      FlatRoundTrip(named, whole, fields[i].typ, v.members[fields[i].name]);
    }
    RecordGoesRound(named, t, fields, v);
  }

  lemma {:induction false} ArrayRoundTrip(named: Names, whole: bool, t: AvroType, v: Value)
    requires AllSimple(named) && Simple(named, Resolve(named, t)) && Fits(named, whole, t, v)
    requires Resolve(named, t).Array?
    ensures GoesRound(named, t, v)
    decreases v, 0
  {
    forall i | 0 <= i < |v.items| ensures GoesRound(named, Resolve(named, t).items, v.items[i]) {
      FlatRoundTrip(named, whole, Resolve(named, t).items, v.items[i]);
    }
    ArrayGoesRound(named, t, v);
  }

  lemma {:induction false} MapRoundTrip(named: Names, whole: bool, t: AvroType, v: Value)
    requires AllSimple(named) && Simple(named, Resolve(named, t)) && Fits(named, whole, t, v) && Resolve(named, t).Map?
    ensures GoesRound(named, t, v)
    decreases v, 0
  {
    forall k | k in v.members ensures GoesRound(named, Resolve(named, t).values, v.members[k]) {
      FlatRoundTrip(named, whole, Resolve(named, t).values, v.members[k]);
    }
    MapGoesRound(named, t, v);
  }

  lemma PlainChoice(named: Names, whole: bool, branches: seq<AvroType>, i: nat, v: Value)
    requires Simple(named, Union(branches)) && i < |branches| && !IsNull(Resolve(named, branches[i]))
    requires Fits(named, whole, branches[i], v)
    ensures Simple(named, branches[i]) && !v.Nil?
  {
    assert !Resolve(named, branches[i]).Union?;
  }

  lemma {:induction false} UnionRoundTrip(named: Names, whole: bool, t: AvroType, v: Value)
    requires AllSimple(named) && Simple(named, Resolve(named, t)) && Fits(named, whole, t, v)
    requires Resolve(named, t).Union?
    requires !v.Nil?
    ensures GoesRound(named, t, v)
    decreases v, 0
  {
    var i := BranchOf(named, whole, t, v);
    var branches := Resolve(named, t).branches;
    PlainChoice(named, whole, branches, i, v.members[OnlyKey(v.members)]);
    FlatRoundTrip(named, whole, branches[i], v.members[OnlyKey(v.members)]);
    UnionGoesRound(named, t, branches, i, v);
  }

  /** For every schema without logical types whose unions only make one type
      nullable, putting the wrappers back gives the original value: through
      recursive records, arrays and maps of any keys. */
  lemma {:induction false} FlatRoundTrip(named: Names, whole: bool, t: AvroType, v: Value)
    requires AllSimple(named) && Simple(named, t) && Fits(named, whole, t, v)
    ensures GoesRound(named, t, v)
    decreases v, 1
  {
    SimpleResolved(named, t);
    var r := Resolve(named, t);
    if r.Record? {
      RecordRoundTrip(named, whole, t, v);
    } else if r.Array? {
      ArrayRoundTrip(named, whole, t, v);
    } else if r.Map? {
      MapRoundTrip(named, whole, t, v);
    } else if r.Union? && !v.Nil? {
      UnionRoundTrip(named, whole, t, v);
    } else {
      PlainGoesRound(named, whole, t, v);
    }
  }
}
