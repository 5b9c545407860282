/**
 Schema-directed flattening of decoded Avro records: the schema parser, the
 resolution of named types, and the conversion of values.

 Names and unions follow the sections "Names" and "Unions" of the Apache Avro
 specification.
 */
module Flatten {
  import opened Common
  import opened Numerals
  import opened Calendar

  // -------------------------------------------------------------------- schemas

  /** A schema as parsed JSON. */
  datatype Json =
    | JNull
    | JBool(b: bool)
    | JNumber(n: int)
    | JString(s: string)
    | JArray(items: seq<Json>)
    | JObject(members: map<string, Json>)

  datatype AvroType =
    | Primitive(kind: string, logical: string)
    | Named(kind: string, name: string, logical: string)   // enum or fixed
    | Record(name: string, fields: seq<Field>)
    | Array(items: AvroType)
    | Map(values: AvroType)
    | Union(branches: seq<AvroType>)
    | Ref(name: string)

  datatype Field = Field(name: string, typ: AvroType)

  const PRIMITIVES := {"null", "boolean", "int", "long", "float", "double", "bytes", "string"}

  function FullName(name: string, namespace: string): string {
    if name == "" || '.' in name || namespace == "" then name else namespace + "." + name
  }

  /** Everything before the last dot; the enclosing namespace if there is none. */
  function NamespaceOf(full: string, enclosing: string): string
    decreases |full|
  {
    if full == "" then enclosing
    else if full[|full| - 1] == '.' then full[..|full| - 1]
    else NamespaceOf(full[..|full| - 1], enclosing)
  }

  function Member(o: Json, key: string): Json
    requires o.JObject?
  {
    if key in o.members then o.members[key] else JNull
  }

  function Text(o: Json, key: string): string
    requires o.JObject?
  {
    if Member(o, key).JString? then Member(o, key).s else ""
  }

  /** Types declared by name. Later declarations win. */
  type Names = map<string, AvroType>

  datatype Parsed<T> = Failed | Parsed(value: T, declared: Names)

  function ParseType(raw: Json, namespace: string): Parsed<AvroType>
    decreases raw, 1
  {
    match raw
    case JString(s) =>
      if s in PRIMITIVES then Parsed(Primitive(s, ""), map[]) else Parsed(Ref(FullName(s, namespace)), map[])
    case JArray(items) =>
      var bs := ParseBranches(items, namespace);
      if bs.Failed? then Failed else Parsed(Union(bs.value), bs.declared)
    case JObject(members) =>
      var kind := Text(raw, "type");
      var ns := if Text(raw, "namespace") != "" then Text(raw, "namespace") else namespace;
      if kind == "record" || kind == "error" then
        var full := FullName(Text(raw, "name"), ns);
        var fields := if "fields" in members && members["fields"].JArray?
                      then ParseFields(members["fields"].items, NamespaceOf(full, ns)) else Parsed([], map[]);
        if fields.Failed? then Failed
        else
          var r := Record(full, fields.value);
          Parsed(r, map[full := r] + fields.declared)
      else if kind == "enum" || kind == "fixed" then
        var t := Named(kind, FullName(Text(raw, "name"), ns), Text(raw, "logicalType"));
        Parsed(t, map[t.name := t])
      else if kind == "array" then
        if "items" !in members then Failed
        else
          var it := ParseType(members["items"], ns);
          if it.Failed? then Failed else Parsed(Array(it.value), it.declared)
      else if kind == "map" then
        if "values" !in members then Failed
        else
          var vt := ParseType(members["values"], ns);
          if vt.Failed? then Failed else Parsed(Map(vt.value), vt.declared)
      else if kind in PRIMITIVES then Parsed(Primitive(kind, Text(raw, "logicalType")), map[])
      else Failed
    case _ => Failed
  }

  function ParseBranches(items: seq<Json>, namespace: string): Parsed<seq<AvroType>>
    decreases items, 0
  {
    if items == [] then Parsed([], map[])
    else
      var first := ParseType(items[0], namespace);
      if first.Failed? then Failed
      else
        var rest := ParseBranches(items[1..], namespace);
        if rest.Failed? then Failed else Parsed([first.value] + rest.value, first.declared + rest.declared)
  }

  function ParseFields(items: seq<Json>, namespace: string): Parsed<seq<Field>>
    decreases items, 0
  {
    if items == [] then Parsed([], map[])
    else if !items[0].JObject? || "type" !in items[0].members then Failed
    else
      var typ := ParseType(items[0].members["type"], namespace);
      if typ.Failed? then Failed
      else
        var rest := ParseFields(items[1..], namespace);
        if rest.Failed? then Failed
        else Parsed([Field(Text(items[0], "name"), typ.value)] + rest.value, typ.declared + rest.declared)
  }

  /** A name as the specification reads it inside a namespace: a simple one belongs to
      the namespace, one with dots is already full. */
  function InNamespace(name: string, namespace: string): string {
    if '.' !in name && |name| > 0 && |namespace| > 0 then namespace + "." + name else name
  }

  /** The namespace that a full name begins with. */
  ghost predicate BeginsWith(full: string, namespace: string) {
    exists simple :: '.' !in simple && full == namespace + "." + simple
  }

  ghost function Inner(full: string, enclosing: string): string {
    if namespace :| BeginsWith(full, namespace) then namespace else enclosing
  }

  /** The full names a schema declares, in the words of the specification: those of
      its records, errors, enums and fixed types, wherever they are nested. */
  ghost function Declared(raw: Json, namespace: string): set<string>
    decreases raw, 1
  {
    match raw
    case JArray(items) => DeclaredIn(items, namespace, false)
    case JObject(members) =>
      var kind := Text(raw, "type");
      var ns := if Text(raw, "namespace") != "" then Text(raw, "namespace") else namespace;
      var full := InNamespace(Text(raw, "name"), ns);
      if kind == "record" || kind == "error" then
        {full} + (if "fields" in members && members["fields"].JArray?
                  then DeclaredIn(members["fields"].items, Inner(full, ns), true) else {})
      else if kind == "enum" || kind == "fixed" then {full}
      else if kind == "array" && "items" in members then Declared(members["items"], ns)
      else if kind == "map" && "values" in members then Declared(members["values"], ns)
      else {}
    case _ => {}
  }

  ghost function DeclaredIn(items: seq<Json>, namespace: string, fields: bool): set<string>
    decreases items, 0
  {
    if items == [] then {}
    else
      (if !fields then Declared(items[0], namespace)
       else if items[0].JObject? && "type" in items[0].members then Declared(items[0].members["type"], namespace)
       else {})
      + DeclaredIn(items[1..], namespace, fields)
  }

  // ----------------------------------------------------------------- resolution

  predicate HasSuffix(s: string, suffix: string) {
    |suffix| <= |s| && s[|s| - |suffix|..] == suffix
  }

  predicate EndsIn(name: string, ref: string) { HasSuffix(name, "." + ref) }

  predicate BySuffix(named: Names, ref: string, n: string) { n in named && EndsIn(n, ref) }

  /** The suffix fallback visits names in no particular order, so it is only
      meaningful when at most one name matches. */
  ghost predicate Unambiguous(named: Names, ref: string) {
    forall a, b :: BySuffix(named, ref, a) && BySuffix(named, ref, b) ==> a == b
  }

  ghost function Resolve(named: Names, t: AvroType): AvroType {
    if !t.Ref? || t.name == "" then t
    else if t.name in named then named[t.name]
    else if exists n :: BySuffix(named, t.name, n) then
      var n :| BySuffix(named, t.name, n);
      named[n]
    else t
  }

  function BranchName(t: AvroType): string {
    match t
    case Record(name, _) => name
    case Named(_, name, _) => name
    case Primitive(kind, logical) => if logical != "" then kind + "." + logical else kind
    case Array(_) => "array"
    case Map(_) => "map"
    case Union(_) => "union"
    case Ref(_) => ""
  }

  // --------------------------------------------------------------------- values

  /** What a decoder puts at the leaves: numbers of two widths each, and for logical
      types an instant, a duration or a ratio. Flattening leaves none of the last
      three. */
  datatype Scalar =
    | Str(s: string)
    | Int(n: int)
    | Long(n: int)
    | Float(r: real)
    | Double(r: real)
    | Bool(b: bool)
    | Bytes(bytes: seq<int>)
    | Moment(nanos: int)
    | Span(nanos: int)
    | Ratio(num: int, den: Positive)

  datatype Value =
    | Nil
    | Leaf(scalar: Scalar)
    | Obj(members: map<string, Value>)
    | Arr(items: seq<Value>)

  const NANOS_PER_MILLI: int := 1_000_000
  const NANOS_PER_DAY: int := 86_400_000_000_000

  /** Milliseconds of a duration, truncated towards zero. */
  function Milliseconds(nanos: int): int {
    if nanos >= 0 then nanos / NANOS_PER_MILLI else -((-nanos) / NANOS_PER_MILLI)
  }

  function ConvertScalar(t: AvroType, s: Scalar): Scalar {
    match s
    case Moment(nanos) =>
      if (t.Primitive? || t.Named?) && t.logical == "date" then Str(DateText(nanos / NANOS_PER_DAY))
      else Long(nanos / NANOS_PER_MILLI)
    case Span(nanos) => Long(Milliseconds(nanos))
    case Ratio(num, den) => Str(FixedPoint(num, den))
    case _ => s
  }

  /** The first branch a wrapper's key selects. */
  ghost function FindBranch(named: Names, branches: seq<AvroType>, key: string): Option<AvroType> {
    if branches == [] then None
    else if BranchName(Resolve(named, branches[0])) == key then Some(branches[0])
    else FindBranch(named, branches[1..], key)
  }

  ghost function OnlyKey(members: map<string, Value>): (key: string)
    requires |members| == 1
    ensures members.Keys == {key}
  {
    SingleKey(members);
    var key :| key in members;
    key
  }

  lemma SingleKey(members: map<string, Value>)
    requires |members| == 1
    ensures exists key :: key in members
    ensures forall key :: key in members ==> members.Keys == {key}
  {
    assert |members.Keys| == 1;
    forall key | key in members ensures members.Keys == {key} {
      assert |members.Keys - {key}| == 0;
    }
    assert members.Keys != {};
    var key :| key in members.Keys;
  }

  /** Flattening; None is an error. */
  ghost function Flat(named: Names, t0: AvroType, v: Value): Option<Value>
    decreases v, 1, 0
  {
    var t := Resolve(named, t0);
    if v.Nil? then Some(Nil)
    else
      match t
      case Union(branches) =>
        if !v.Obj? || |v.members| != 1 then None
        else
          var key := OnlyKey(v.members);
          var b := FindBranch(named, branches, key);
          if b.None? then None else Flat(named, b.value, v.members[key])
      case Record(_, fields) =>
        if !v.Obj? then None
        else
          var out := FlatFields(named, fields, v);
          if out.None? then None else Some(Obj(out.value))
      case Array(items) =>
        if !v.Arr? then None
        else if exists i :: 0 <= i < |v.items| && Flat(named, items, v.items[i]).None? then None
        else Some(Arr(seq(|v.items|, i requires 0 <= i < |v.items| && Flat(named, items, v.items[i]).Some? =>
                                       Flat(named, items, v.items[i]).value)))
      case Map(values) =>
        if !v.Obj? then None
        else if exists k :: k in v.members && Flat(named, values, v.members[k]).None? then None
        else Some(Obj(map k | k in v.members && Flat(named, values, v.members[k]).Some? ::
                        Flat(named, values, v.members[k]).value))
      case _ => if v.Leaf? then Some(Leaf(ConvertScalar(t, v.scalar))) else Some(v)
  }

  /** The fields of a record in order; absent ones are left out. */
  ghost function FlatFields(named: Names, fields: seq<Field>, v: Value): Option<map<string, Value>>
    requires v.Obj?
    decreases v, 0, |fields|
  {
    if fields == [] then Some(map[])
    else
      var rest := FlatFields(named, fields[..|fields| - 1], v);
      var f := fields[|fields| - 1];
      if rest.None? || f.name !in v.members then rest
      else
        var c := Flat(named, f.typ, v.members[f.name]);
        if c.None? then None else Some(rest.value[f.name := c.value])
  }

  /** Flatten converts a decoded record with the schema's root type. */
  ghost function FlattenRecord(root: AvroType, named: Names, members: map<string, Value>): Option<map<string, Value>> {
    var out := Flat(named, root, Obj(members));
    if out.Some? && out.value.Obj? then Some(out.value.members) else None
  }
}
