/**
 What flattening guarantees of a schema with one reading, and parsed schemas with
 more than one.
 */
module FlattenEvents {
  import opened Common
  import opened Flatten
  import opened FlattenProofs
  import opened FlattenChoice
  import opened FlattenRounds
  import opened FlattenOutcomes

  /** Flattening a well-typed value never fails: it has a result and no error. */
  lemma Totality(named: Names, whole: bool, t: AvroType, v: Value)
    requires OneReading(named, t) && AllLawful(named) && Lawful(named, t) && Fits(named, whole, t, v)
    ensures exists w :: MayFlatten(named, t, v, Some(w))
    ensures !MayFlatten(named, t, v, None)
  {
    OneReadingSettles(named, t, v);
    FlatSucceeds(named, whole, t, v);
    assert MayFlatten(named, t, v, Some(Flat(named, t, v).value));
  }

  /** A well-typed event record flattens to a record with the same field names. */
  lemma EventFlattens(named: Names, whole: bool, root: AvroType, members: map<string, Value>, out: Option<Value>)
    requires OneReading(named, root) && AllLawful(named) && Lawful(named, root) && Resolve(named, root).Record?
    requires Fits(named, whole, root, Obj(members)) && MayFlatten(named, root, Obj(members), out)
    ensures out.Some? && out.value.Obj? && out.value.members.Keys == members.Keys
  {
    OneReadingSettles(named, root, Obj(members));
    FlatSucceeds(named, whole, root, Obj(members));
    KeepsPresentFields(named, Resolve(named, root).fields, Obj(members));
    assert out.value.members.Keys <= members.Keys;
    assert members.Keys <= out.value.members.Keys;
  }

  /** For every schema without logical types whose unions only make one type
      nullable, putting the wrappers back gives the original value, whatever
      flattening yielded: through recursive records, arrays and maps of any keys. */
  lemma RoundTrip(named: Names, whole: bool, t: AvroType, v: Value, w: Value)
    requires OneReading(named, t) && AllSimple(named) && Simple(named, t) && Fits(named, whole, t, v)
    requires MayFlatten(named, t, v, Some(w))
    ensures Wrap(named, t, w) == v
  {
    OneReadingSettles(named, t, v);
    FlatRoundTrip(named, whole, t, v);
  }

  /** So no two well-typed values of such a schema flatten to the same one. */
  lemma FlatInjective(named: Names, whole: bool, t: AvroType, v: Value, u: Value, a: Option<Value>, b: Option<Value>)
    requires OneReading(named, t) && AllSimple(named) && Simple(named, t)
    requires Fits(named, whole, t, v) && Fits(named, whole, t, u)
    requires MayFlatten(named, t, v, a) && MayFlatten(named, t, u, b)
    ensures a == b <==> v == u
  {
    OneReadingSettles(named, t, v);
    OneReadingSettles(named, t, u);
    FlatRoundTrip(named, whole, t, v);
    FlatRoundTrip(named, whole, t, u);
  }

  // ------------------------------------------------------ schemas with two readings

  /** The JSON of a record type, of a field and of an enum. */
  function RecordJson(name: string, fields: seq<Json>): Json {
    JObject(map["type" := JString("record"), "name" := JString(name), "fields" := JArray(fields)])
  }

  function FieldJson(name: string, typ: Json): Json { JObject(map["name" := JString(name), "type" := typ]) }

  function EnumJson(name: string): Json { JObject(map["type" := JString("enum"), "name" := JString(name)]) }

  lemma ParseRecordJson(name: string, items: seq<Json>, ns: string, fields: seq<Field>, declared: Names)
    requires FullName(name, ns) == name
    requires ParseFields(items, NamespaceOf(name, ns)) == Parsed(fields, declared)
    ensures ParseType(RecordJson(name, items), ns)
         == Parsed(Record(name, fields), map[name := Record(name, fields)] + declared)
  {
    var raw := RecordJson(name, items);
    assert Text(raw, "type") == "record" && Text(raw, "name") == name && Text(raw, "namespace") == "";
  }

  lemma ParseEnumJson(name: string, ns: string)
    requires FullName(name, ns) == name
    ensures ParseType(EnumJson(name), ns) == Parsed(Named("enum", name, ""), map[name := Named("enum", name, "")])
  {
    var raw := EnumJson(name);
    assert Text(raw, "type") == "enum" && Text(raw, "name") == name;
    assert Text(raw, "namespace") == "" && Text(raw, "logicalType") == "";
  }

  lemma ParseOneField(name: string, typ: Json, rest: seq<Json>, ns: string, t: AvroType, d: Names,
                      fields: seq<Field>, declared: Names)
    requires ParseType(typ, ns) == Parsed(t, d) && ParseFields(rest, ns) == Parsed(fields, declared)
    ensures ParseFields([FieldJson(name, typ)] + rest, ns) == Parsed([Field(name, t)] + fields, d + declared)
  {
    var items := [FieldJson(name, typ)] + rest;
    assert Text(items[0], "name") == name && items[1..] == rest;
  }

  /** A record R whose fields declare p.X and q.X, and a third field of type X. */
  function TwoXJson(px: Json, qx: Json): Json {
    RecordJson("R", [FieldJson("a", px), FieldJson("b", qx), FieldJson("c", JString("X"))])
  }

  function TwoX(p: AvroType, q: AvroType): AvroType {
    Record("R", [Field("a", p), Field("b", q), Field("c", Ref("X"))])
  }

  function TwoXNames(p: AvroType, q: AvroType): Names { map["R" := TwoX(p, q), "p.X" := p, "q.X" := q] }

  lemma NoNamespace()
    ensures FullName("R", "") == "R" && NamespaceOf("R", "") == ""
    ensures FullName("X", "") == "X" && FullName("p.X", "") == "p.X" && FullName("q.X", "") == "q.X"
    ensures "X" !in PRIMITIVES && "string" in PRIMITIVES
  {
    assert "R"[..0] == "";
    assert |"X"| == 1;
  }

  lemma ParseX()
    ensures ParseFields([FieldJson("c", JString("X"))], "") == Parsed([Field("c", Ref("X"))], map[])
  {
    NoNamespace();
    assert ParseType(JString("X"), "") == Parsed(Ref("X"), map[]);
    ParseOneField("c", JString("X"), [], "", Ref("X"), map[], [], map[]);
    assert [FieldJson("c", JString("X"))] + [] == [FieldJson("c", JString("X"))];
    assert [Field("c", Ref("X"))] + [] == [Field("c", Ref("X"))];
  }

  lemma ParseTwoX(px: Json, qx: Json, p: AvroType, q: AvroType)
    requires ParseType(px, "") == Parsed(p, map["p.X" := p]) && ParseType(qx, "") == Parsed(q, map["q.X" := q])
    ensures ParseFields([FieldJson("a", px), FieldJson("b", qx), FieldJson("c", JString("X"))], "")
         == Parsed(TwoX(p, q).fields, map["p.X" := p] + map["q.X" := q])
  {
    var c, b, a := FieldJson("c", JString("X")), FieldJson("b", qx), FieldJson("a", px);
    var x := Field("c", Ref("X"));
    ParseX();
    ParseOneField("b", qx, [c], "", q, map["q.X" := q], [x], map[]);
    assert [b] + [c] == [b, c] && [Field("b", q)] + [x] == [Field("b", q), x];
    assert map["q.X" := q] + map[] == map["q.X" := q];
    ParseOneField("a", px, [b, c], "", p, map["p.X" := p], [Field("b", q), x], map["q.X" := q]);
    assert [a] + [b, c] == [a, b, c];
    assert [Field("a", p)] + [Field("b", q), x] == TwoX(p, q).fields;
  }

  lemma TwoXTable(p: AvroType, q: AvroType)
    ensures map["R" := TwoX(p, q)] + (map["p.X" := p] + map["q.X" := q]) == TwoXNames(p, q)
  {
  }

  lemma TwoXParses(px: Json, qx: Json, p: AvroType, q: AvroType)
    requires ParseType(px, "") == Parsed(p, map["p.X" := p]) && ParseType(qx, "") == Parsed(q, map["q.X" := q])
    ensures ParseType(TwoXJson(px, qx), "") == Parsed(TwoX(p, q), TwoXNames(p, q))
  {
    NoNamespace();
    ParseTwoX(px, qx, p, q);
    TwoXTable(p, q);
    ParseRecordJson("R", [FieldJson("a", px), FieldJson("b", qx), FieldJson("c", JString("X"))], "",
                    TwoX(p, q).fields, map["p.X" := p] + map["q.X" := q]);
  }

  lemma XMeansEither(p: AvroType, q: AvroType, r: AvroType)
    ensures MayResolve(TwoXNames(p, q), Ref("X"), r) <==> r == p || r == q
  {
    var named := TwoXNames(p, q);
    assert "p.X"[1..] == ".X" && "q.X"[1..] == ".X" && "." + "X" == ".X";
    assert "p.X"[0] != "q.X"[0] && |"R"| == 1 && |"X"| == 1 && |"p.X"| == 3 && |"q.X"| == 3;
    assert "R"[0] != "X"[0];
    assert BySuffix(named, "X", "p.X") && BySuffix(named, "X", "q.X") && !BySuffix(named, "X", "R");
  }

  /** What either type makes of a value, the field makes of it. */
  lemma TwoXMay(p: AvroType, q: AvroType, r: AvroType, v: Value, out: Option<Value>)
    requires (r == p || r == q) && MayFlattenAs(TwoXNames(p, q), r, v, out)
    ensures MayFlatten(TwoXNames(p, q), TwoX(p, q), Single("c", v),
                       if out.None? then None else Some(Single("c", out.value)))
  {
    var named, root := TwoXNames(p, q), TwoX(p, q);
    XMeansEither(p, q, r);
    assert MayFlatten(named, root.fields[2].typ, v, out);
    FieldNamesDiffer();
    OneField(named, root.fields, 2, v, out);
    FieldsMay(named, root, "c", v, if out.None? then None else Some(map["c" := out.value]));
  }

  lemma FieldNamesDiffer()
    ensures "a" != "b" && "a" != "c" && "b" != "c"
  {
    assert "a"[0] != "b"[0] && "a"[0] != "c"[0] && "b"[0] != "c"[0];
  }

  /** A parsed schema may lose a field without an error: p.X has a field f and q.X has
      none, and the same event flattens with it or without it. */
  lemma AmbiguityLosesAField()
    ensures var raw := TwoXJson(RecordJson("p.X", [FieldJson("f", JString("string"))]), RecordJson("q.X", []));
            var parsed := ParseType(raw, "");
            && parsed.Parsed? && parsed.value.Record? && !OneReading(parsed.declared, parsed.value)
            && var v := Single("c", Single("f", Nil));
               MayFlatten(parsed.declared, parsed.value, v, Some(v))
               && MayFlatten(parsed.declared, parsed.value, v, Some(Single("c", Obj(map[]))))
  {
    var p, q := Record("p.X", [Field("f", Primitive("string", ""))]), Record("q.X", []);
    ParseFieldful();
    ParseFieldless();
    TwoXParses(RecordJson("p.X", [FieldJson("f", JString("string"))]), RecordJson("q.X", []), p, q);
    KeepsOrLoses(p, q, "f");
    var x := Single("f", Nil);
    assert "f" in x.members && Single("c", x).members["c"] != Single("c", Obj(map[])).members["c"];
    TwoOutcomes(TwoXNames(p, q), TwoX(p, q), Single("c", x), Some(Single("c", x)), Some(Single("c", Obj(map[]))));
  }

  lemma KeepsOrLoses(p: AvroType, q: AvroType, f: string)
    requires p.Record? && q.Record? && q.fields == [] && |p.fields| == 1 && p.fields[0].name == f
    ensures var v := Single("c", Single(f, Nil));
            MayFlatten(TwoXNames(p, q), TwoX(p, q), v, Some(v))
            && MayFlatten(TwoXNames(p, q), TwoX(p, q), v, Some(Single("c", Obj(map[]))))
  {
    var named, x := TwoXNames(p, q), Single(f, Nil);
    NilMay(named, p.fields[0].typ);
    OneField(named, p.fields, 0, Nil, Some(Nil));
    FieldsMay(named, p, f, Nil, Some(map[f := Nil]));
    TwoXMay(p, q, p, x, Some(x));
    OtherField(named, q.fields, f, Nil);
    FieldsMay(named, q, f, Nil, Some(map[]));
    TwoXMay(p, q, q, x, Some(Obj(map[])));
  }

  lemma TwoOutcomes(named: Names, t: AvroType, v: Value, a: Option<Value>, b: Option<Value>)
    requires MayFlatten(named, t, v, a) && MayFlatten(named, t, v, b) && a != b
    ensures !OneReading(named, t)
  {
    if OneReading(named, t) { OneReadingSettles(named, t, v); }
  }

  lemma ParseFieldful()
    ensures ParseType(RecordJson("p.X", [FieldJson("f", JString("string"))]), "")
         == Parsed(Record("p.X", [Field("f", Primitive("string", ""))]),
                   map["p.X" := Record("p.X", [Field("f", Primitive("string", ""))])])
  {
    NoNamespace();
    var ns := NamespaceOf("p.X", "");
    ParseOneField("f", JString("string"), [], ns, Primitive("string", ""), map[], [], map[]);
    assert [FieldJson("f", JString("string"))] + [] == [FieldJson("f", JString("string"))];
    assert [Field("f", Primitive("string", ""))] + [] == [Field("f", Primitive("string", ""))];
    ParseRecordJson("p.X", [FieldJson("f", JString("string"))], "", [Field("f", Primitive("string", ""))],
                    map[] + map[]);
  }

  lemma ParseFieldless()
    ensures ParseType(RecordJson("q.X", []), "") == Parsed(Record("q.X", []), map["q.X" := Record("q.X", [])])
  {
    NoNamespace();
    ParseRecordJson("q.X", [], "", [], map[]);
  }

  /** Or the same event flattens or fails: p.X is an enum and q.X a record. */
  lemma AmbiguityFails(symbol: string)
    ensures var parsed := ParseType(TwoXJson(EnumJson("p.X"), RecordJson("q.X", [])), "");
            && parsed.Parsed? && parsed.value.Record? && !OneReading(parsed.declared, parsed.value)
            && var v := Single("c", Leaf(Str(symbol)));
               MayFlatten(parsed.declared, parsed.value, v, Some(v))
               && MayFlatten(parsed.declared, parsed.value, v, None)
  {
    var p, q := Named("enum", "p.X", ""), Record("q.X", []);
    NoNamespace();
    ParseEnumJson("p.X", "");
    ParseFieldless();
    TwoXParses(EnumJson("p.X"), RecordJson("q.X", []), p, q);
    var x := Leaf(Str(symbol));
    TwoXMay(p, q, p, x, Some(x));
    TwoXMay(p, q, q, x, None);
    TwoOutcomes(TwoXNames(p, q), TwoX(p, q), Single("c", x), Some(Single("c", x)), None);
  }

  /** An unclear reference need not matter: two enums flatten alike. */
  lemma HarmlessAmbiguity()
    ensures var parsed := ParseType(TwoXJson(EnumJson("p.X"), EnumJson("q.X")), "");
            parsed.Parsed? && !AllClear(parsed.declared, parsed.value) && OneReading(parsed.declared, parsed.value)
  {
    var p, q := Named("enum", "p.X", ""), Named("enum", "q.X", "");
    NoNamespace();
    ParseEnumJson("p.X", "");
    ParseEnumJson("q.X", "");
    TwoXParses(EnumJson("p.X"), EnumJson("q.X"), p, q);
    TwoEnumsUnclear(p, q);
    if !OneReading(TwoXNames(p, q), TwoX(p, q)) {
      EnumsAlike(p, q, |Pairs(Universe(TwoXNames(p, q), TwoX(p, q)))| + 1);
    }
  }

  lemma TwoEnumsUnclear(p: AvroType, q: AvroType)
    requires p != q && p.Named? && q.Named? && p.name == "p.X" && q.name == "q.X"
    ensures !AllClear(TwoXNames(p, q), TwoX(p, q))
  {
    var named := TwoXNames(p, q);
    XMeansEither(p, q, p);
    XMeansEither(p, q, q);
    if AllClear(named, TwoX(p, q)) {
      assert Clear(named, TwoX(p, q).fields[2].typ);
      ResolveSettled(named, Ref("X"), p);
      ResolveSettled(named, Ref("X"), q);
    }
  }

  /** References that only mean undated leaves are never told apart. */
  lemma LeavesAlike(named: Names, n: nat, s: AvroType, t: AvroType)
    requires forall r :: MayResolve(named, s, r) || MayResolve(named, t, r) ==> r.Named? && !Dated(r)
    ensures !Differ(named, n, s, t)
  {
  }

  /** Fields of one name in TwoX are the same field. */
  lemma SameField(p: AvroType, q: AvroType, i: nat, j: nat)
    requires i < 3 && j < 3 && TwoX(p, q).fields[i].name == TwoX(p, q).fields[j].name
    ensures i == j
  {
    FieldNamesDiffer();
  }

  lemma FieldAlike(p: AvroType, q: AvroType, n: nat, i: nat)
    requires p.Named? && q.Named? && p.logical == "" && q.logical == "" && i < 3
    ensures !Differ(TwoXNames(p, q), n, TwoX(p, q).fields[i].typ, TwoX(p, q).fields[i].typ)
  {
    forall r ensures MayResolve(TwoXNames(p, q), Ref("X"), r) <==> r == p || r == q { XMeansEither(p, q, r); }
    LeavesAlike(TwoXNames(p, q), n, TwoX(p, q).fields[i].typ, TwoX(p, q).fields[i].typ);
  }

  lemma EnumsAlike(p: AvroType, q: AvroType, n: nat)
    requires p.Named? && q.Named? && p.logical == "" && q.logical == ""
    ensures !Differ(TwoXNames(p, q), n, TwoX(p, q), TwoX(p, q))
  {
    var named, root := TwoXNames(p, q), TwoX(p, q);
    if Differ(named, n, root, root) {
      assert DifferAs(named, n - 1, root, root);
      var i, j :| 0 <= i < 3 && 0 <= j < 3 && root.fields[i].name == root.fields[j].name
                  && Differ(named, n - 1, root.fields[i].typ, root.fields[j].typ);
      SameField(p, q, i, j);
      FieldAlike(p, q, n - 1, i);
    }
  }
}
