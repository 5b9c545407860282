/**
 Names and the parser: what namespaces do to the names of a schema, which schemas
 parse, and that a schema written out in full parses back to itself.
 */
module FlattenNames {
  import opened Flatten
  import opened FlattenProofs
  import opened FlattenRounds

  // ------------------------------------------------------------- names in a namespace

  predicate Simple(name: string) { name != "" && '.' !in name }

  /** The namespace an object is read in: its own, or the one around it. */
  function Around(raw: Json, namespace: string): string
    requires raw.JObject?
  {
    if Text(raw, "namespace") != "" then Text(raw, "namespace") else namespace
  }

  predicate Declares(raw: Json) {
    raw.JObject? && Text(raw, "type") in {"record", "error", "enum", "fixed"}
  }

  /** A simple name declared in a namespace belongs to it; a name with dots stands for
      itself. */
  lemma DeclaredNames(raw: Json, namespace: string)
    requires Declares(raw) && ParseType(raw, namespace).Parsed?
    ensures var name, ns := Text(raw, "name"), Around(raw, namespace);
            var parsed := ParseType(raw, namespace);
            && (Simple(name) && ns != "" ==>
                  BranchName(parsed.value) == ns + "." + name && ns + "." + name in parsed.declared)
            && ('.' in name || ns == "" ==> BranchName(parsed.value) == name && name in parsed.declared)
  {
    ParseDeclares(raw, namespace);
    NamesAgree(Text(raw, "name"), Around(raw, namespace), namespace);
  }

  /** The same for a name that refers to a type. */
  lemma ReferredNames(name: string, namespace: string)
    requires name !in PRIMITIVES
    ensures ParseType(JString(name), namespace)
         == Parsed(Ref(if Simple(name) && namespace != "" then namespace + "." + name else name), map[])
  {
  }

  /** One schema stands inside another with nothing in between that changes the
      namespace: no namespace of its own, and no record with a dotted name. */
  ghost predicate Inside(raw: Json, inner: Json)
    decreases raw
  {
    raw == inner ||
    match raw
    case JArray(items) => exists i :: 0 <= i < |items| && Inside(items[i], inner)
    case JObject(members) =>
      Text(raw, "namespace") == "" && InsideObject(raw, inner)
    case _ => false
  }

  ghost predicate InsideObject(raw: Json, inner: Json)
    requires raw.JObject?
    decreases raw, 0
  {
    var kind := Text(raw, "type");
    if kind == "record" || kind == "error" then
      '.' !in Text(raw, "name") && "fields" in raw.members && raw.members["fields"].JArray?
      && var items := raw.members["fields"].items;
         exists i :: 0 <= i < |items| && items[i].JObject? && "type" in items[i].members
                     && Inside(items[i].members["type"], inner)
    else if kind == "array" then "items" in raw.members && Inside(raw.members["items"], inner)
    else if kind == "map" then "values" in raw.members && Inside(raw.members["values"], inner)
    else false
  }

  lemma ScopeKept(name: string, namespace: string)
    requires '.' !in name && namespace != ""
    ensures NamespaceOf(FullName(name, namespace), namespace) == namespace
  {
    NamesAgree(name, namespace, namespace);
    NamesAgree(FullName(name, namespace), namespace, namespace);
    if name != "" {
      assert BeginsWith(namespace + "." + name, namespace);
      OneNamespace(namespace + "." + name, Inner(namespace + "." + name, namespace), namespace);
    } else {
      assert NamespaceOf("", namespace) == namespace;
    }
  }

  lemma {:induction false} FieldParsed(items: seq<Json>, namespace: string, i: nat)
    requires ParseFields(items, namespace).Parsed? && i < |items|
    ensures |ParseFields(items, namespace).value| == |items|
    ensures items[i].JObject? && "type" in items[i].members
    ensures var inner, outer := ParseType(items[i].members["type"], namespace), ParseFields(items, namespace);
            && inner.Parsed? && outer.value[i] == Field(Text(items[i], "name"), inner.value)
            && inner.declared.Keys <= outer.declared.Keys
    decreases |items|
  {
    if i > 0 {
      FieldParsed(items[1..], namespace, i - 1);
    } else if |items| > 1 {
      FieldParsed(items[1..], namespace, 0);
    } else {
      assert items[1..] == [];
    }
  }

  lemma {:induction false} BranchParsed(items: seq<Json>, namespace: string, i: nat)
    requires ParseBranches(items, namespace).Parsed? && i < |items|
    ensures |ParseBranches(items, namespace).value| == |items|
    ensures var inner, outer := ParseType(items[i], namespace), ParseBranches(items, namespace);
            && inner.Parsed? && outer.value[i] == inner.value
            && inner.declared.Keys <= outer.declared.Keys
    decreases |items|
  {
    if i > 0 {
      BranchParsed(items[1..], namespace, i - 1);
    } else if |items| > 1 {
      BranchParsed(items[1..], namespace, 0);
    } else {
      assert items[1..] == [];
    }
  }

  /** Whatever parsing makes of the inner schema is part of what it makes of the outer. */
  ghost predicate Within(inner: Parsed<AvroType>, outer: Parsed<AvroType>) {
    inner.Parsed? && outer.Parsed?
    && inner.value in Parts(outer.value) && inner.declared.Keys <= outer.declared.Keys
  }

  lemma {:induction false} InsideParses(raw: Json, namespace: string, inner: Json)
    requires namespace != "" && Inside(raw, inner) && ParseType(raw, namespace).Parsed?
    ensures Within(ParseType(inner, namespace), ParseType(raw, namespace))
    decreases raw, 2
  {
    if raw != inner {
      match raw
      case JArray(items) =>
        var i :| 0 <= i < |items| && Inside(items[i], inner);
        BranchParsed(items, namespace, i);
        InsideParses(items[i], namespace, inner);
      case JObject(members) =>
        InsideObjectParses(raw, namespace, inner);
    }
  }

  lemma {:induction false} InsideObjectParses(raw: Json, namespace: string, inner: Json)
    requires namespace != "" && raw.JObject? && Text(raw, "namespace") == ""
    requires InsideObject(raw, inner) && ParseType(raw, namespace).Parsed?
    ensures Within(ParseType(inner, namespace), ParseType(raw, namespace))
    decreases raw, 1
  {
    var kind := Text(raw, "type");
    if kind == "record" || kind == "error" {
      ScopeKept(Text(raw, "name"), namespace);
      FieldInside(raw, namespace, namespace, inner);
    } else if kind == "array" {
      InsideParses(raw.members["items"], namespace, inner);
    } else {
      InsideParses(raw.members["values"], namespace, inner);
    }
  }

  /** A field's type is read in the namespace of the record's full name. */
  lemma {:induction false} FieldInside(raw: Json, namespace: string, scope: string, inner: Json)
    requires scope != "" && raw.JObject? && (Text(raw, "type") == "record" || Text(raw, "type") == "error")
    requires ParseType(raw, namespace).Parsed? && "fields" in raw.members && raw.members["fields"].JArray?
    requires NamespaceOf(FullName(Text(raw, "name"), Around(raw, namespace)), Around(raw, namespace)) == scope
    requires var items := raw.members["fields"].items;
             exists i :: 0 <= i < |items| && items[i].JObject? && "type" in items[i].members
                         && Inside(items[i].members["type"], inner)
    ensures Within(ParseType(inner, scope), ParseType(raw, namespace))
    decreases raw, 0
  {
    var items := raw.members["fields"].items;
    var i :| 0 <= i < |items| && items[i].JObject? && "type" in items[i].members
             && Inside(items[i].members["type"], inner);
    FieldParsed(items, scope, i);
    InsideParses(items[i].members["type"], scope, inner);
    var outer := ParseType(raw, namespace).value;
    assert outer.fields[i].typ == ParseType(items[i].members["type"], scope).value;
  }

  /** Inside a record whose full name begins with a namespace, a simple name that any
      field, at any depth, declares or refers to belongs to that namespace; and it
      resolves in one step to the type declared so, whatever else ends in the name. */
  lemma NamesInside(raw: Json, outer: string, namespace: string, inner: Json)
    requires raw.JObject? && (Text(raw, "type") == "record" || Text(raw, "type") == "error")
    requires ParseType(raw, outer).Parsed? && "fields" in raw.members && raw.members["fields"].JArray?
    requires namespace != "" && BeginsWith(BranchName(ParseType(raw, outer).value), namespace)
    requires var items := raw.members["fields"].items;
             exists i :: 0 <= i < |items| && items[i].JObject? && "type" in items[i].members
                         && Inside(items[i].members["type"], inner)
    ensures var (root, named) := (ParseType(raw, outer).value, ParseType(raw, outer).declared);
            && (Declares(inner) && Text(inner, "namespace") == "" && Simple(Text(inner, "name")) ==>
                  namespace + "." + Text(inner, "name") in named)
            && (inner.JString? && Simple(inner.s) && inner.s !in PRIMITIVES ==>
                  && Ref(namespace + "." + inner.s) in Parts(root)
                  && (namespace + "." + inner.s in named ==>
                        BranchName(Resolve(named, Ref(namespace + "." + inner.s))) == namespace + "." + inner.s))
  {
    var full := FullName(Text(raw, "name"), Around(raw, outer));
    NamesAgree(full, Around(raw, outer), Around(raw, outer));
    OneNamespace(full, Inner(full, Around(raw, outer)), namespace);
    FieldInside(raw, outer, namespace, inner);
    ParseDeclares(raw, outer);
    if Declares(inner) { DeclaredNames(inner, namespace); }
    if inner.JString? && inner.s !in PRIMITIVES { ReferredNames(inner.s, namespace); }
  }

  // --------------------------------------------------------------- which schemas parse

  /** What the parser demands: known types, fields that are objects with a type, and the
      type of items and values. Names and namespaces never matter. */
  predicate WellFormed(raw: Json)
    decreases raw
  {
    match raw
    case JString(_) => true
    case JArray(items) => forall i :: 0 <= i < |items| ==> WellFormed(items[i])
    case JObject(members) =>
      (match Text(raw, "type")
       case "enum" => true
       case "fixed" => true
       case "array" => "items" in members && WellFormed(members["items"])
       case "map" => "values" in members && WellFormed(members["values"])
       case kind =>
         if kind == "record" || kind == "error" then
           "fields" in members && members["fields"].JArray? ==>
             forall i :: 0 <= i < |members["fields"].items| ==>
               var field := members["fields"].items[i];
               field.JObject? && "type" in field.members && WellFormed(field.members["type"])
         else kind in {"null", "boolean", "int", "long", "float", "double", "bytes", "string"})
    case _ => false
  }

  lemma {:induction false} FieldsParse(items: seq<Json>, namespace: string)
    requires forall i :: 0 <= i < |items| && items[i].JObject? && "type" in items[i].members ==>
               (ParseType(items[i].members["type"], namespace).Parsed? <==> WellFormed(items[i].members["type"]))
    ensures ParseFields(items, namespace).Parsed? <==>
              forall i :: 0 <= i < |items| ==>
                items[i].JObject? && "type" in items[i].members && WellFormed(items[i].members["type"])
    decreases |items|
  {
    if items != [] {
      assert forall i :: 0 < i < |items| ==> items[i] == items[1..][i - 1];
      FieldsParse(items[1..], namespace);
    }
  }

  lemma {:induction false} BranchesParse(items: seq<Json>, namespace: string)
    requires forall i :: 0 <= i < |items| ==> (ParseType(items[i], namespace).Parsed? <==> WellFormed(items[i]))
    ensures ParseBranches(items, namespace).Parsed? <==> forall i :: 0 <= i < |items| ==> WellFormed(items[i])
    decreases |items|
  {
    if items != [] {
      assert forall i :: 0 < i < |items| ==> items[i] == items[1..][i - 1];
      BranchesParse(items[1..], namespace);
    }
  }

  /** A schema parses exactly when it is well formed, in any namespace. */
  lemma {:induction false} ParsesExactly(raw: Json, namespace: string)
    ensures ParseType(raw, namespace).Parsed? <==> WellFormed(raw)
    decreases raw, 1
  {
    match raw
    case JArray(items) =>
      forall i | 0 <= i < |items| ensures ParseType(items[i], namespace).Parsed? <==> WellFormed(items[i]) {
        ParsesExactly(items[i], namespace);
      }
      BranchesParse(items, namespace);
    case JObject(members) => ObjectParsesExactly(raw, namespace);
    case _ =>
  }

  lemma {:induction false} ObjectParsesExactly(raw: Json, namespace: string)
    requires raw.JObject?
    ensures ParseType(raw, namespace).Parsed? <==> WellFormed(raw)
    decreases raw, 0
  {
    var members, ns, kind := raw.members, Around(raw, namespace), Text(raw, "type");
    if kind == "array" && "items" in members {
      ParsesExactly(members["items"], ns);
    } else if kind == "map" && "values" in members {
      ParsesExactly(members["values"], ns);
    } else if (kind == "record" || kind == "error") && "fields" in members && members["fields"].JArray? {
      var items, scope := members["fields"].items, NamespaceOf(FullName(Text(raw, "name"), ns), ns);
      forall i | 0 <= i < |items| && items[i].JObject? && "type" in items[i].members
        ensures ParseType(items[i].members["type"], scope).Parsed? <==> WellFormed(items[i].members["type"])
      {
        ParsesExactly(items[i].members["type"], scope);
      }
      FieldsParse(items, scope);
    }
  }

  // -------------------------------------------------------------- written out in full

  /** The JSON of a type, with names in full. */
  function Written(t: AvroType): Json {
    match t
    case Primitive(kind, logical) =>
      if logical == "" then JString(kind)
      else JObject(map["type" := JString(kind), "logicalType" := JString(logical)])
    case Named(kind, name, logical) =>
      JObject(map["type" := JString(kind), "name" := JString(name), "logicalType" := JString(logical)])
    case Record(name, fields) =>
      JObject(map["type" := JString("record"), "name" := JString(name),
                  "fields" := JArray(seq(|fields|, i requires 0 <= i < |fields| => WrittenField(fields[i])))])
    case Array(items) => JObject(map["type" := JString("array"), "items" := Written(items)])
    case Map(values) => JObject(map["type" := JString("map"), "values" := Written(values)])
    case Union(branches) => JArray(seq(|branches|, i requires 0 <= i < |branches| => Written(branches[i])))
    case Ref(name) => JString(name)
  }

  function WrittenField(f: Field): Json {
    JObject(map["name" := JString(f.name), "type" := Written(f.typ)])
  }

  /** A type whose names can stand as they are inside a namespace: with dots, or where
      there is no namespace. */
  predicate Full(t: AvroType, namespace: string) {
    match t
    case Primitive(kind, _) => kind in PRIMITIVES
    case Named(kind, name, _) => (kind == "enum" || kind == "fixed") && !(Simple(name) && namespace != "")
    case Record(name, fields) =>
      !(Simple(name) && namespace != "")
      && forall i :: 0 <= i < |fields| ==> Full(fields[i].typ, NamespaceOf(name, namespace))
    case Array(items) => Full(items, namespace)
    case Map(values) => Full(values, namespace)
    case Union(branches) => forall i :: 0 <= i < |branches| ==> Full(branches[i], namespace)
    case Ref(name) => name !in PRIMITIVES && !(Simple(name) && namespace != "")
  }

  lemma {:induction false} WrittenFieldsParse(fields: seq<Field>, namespace: string)
    requires forall i :: 0 <= i < |fields| ==>
               var p := ParseType(Written(fields[i].typ), namespace);
               p.Parsed? && p.value == fields[i].typ
    ensures var p := ParseFields(seq(|fields|, i requires 0 <= i < |fields| => WrittenField(fields[i])), namespace);
            p.Parsed? && p.value == fields
    decreases |fields|
  {
    if fields != [] {
      var all := seq(|fields|, i requires 0 <= i < |fields| => WrittenField(fields[i]));
      var rest := fields[1..];
      assert all[1..] == seq(|rest|, i requires 0 <= i < |rest| => WrittenField(rest[i]));
      assert forall i :: 0 <= i < |rest| ==> rest[i] == fields[i + 1];
      WrittenFieldsParse(rest, namespace);
      FieldReads(fields[0]);
      assert [fields[0]] + rest == fields;
    }
  }

  lemma FieldReads(f: Field)
    ensures var raw := WrittenField(f);
            "type" in raw.members && raw.members["type"] == Written(f.typ) && Text(raw, "name") == f.name
  {
  }

  lemma {:induction false} WrittenBranchesParse(branches: seq<AvroType>, namespace: string)
    requires forall i :: 0 <= i < |branches| ==>
               var p := ParseType(Written(branches[i]), namespace);
               p.Parsed? && p.value == branches[i]
    ensures var p := ParseBranches(seq(|branches|, i requires 0 <= i < |branches| => Written(branches[i])), namespace);
            p.Parsed? && p.value == branches
    decreases |branches|
  {
    if branches != [] {
      var all := seq(|branches|, i requires 0 <= i < |branches| => Written(branches[i]));
      var rest := branches[1..];
      assert all[1..] == seq(|rest|, i requires 0 <= i < |rest| => Written(rest[i]));
      assert forall i :: 0 <= i < |rest| ==> rest[i] == branches[i + 1];
      WrittenBranchesParse(rest, namespace);
      assert [branches[0]] + rest == branches;
    }
  }

  lemma RecordReads(name: string, fields: seq<Field>)
    ensures var raw := Written(Record(name, fields));
            && Text(raw, "type") == "record" && Text(raw, "name") == name && Text(raw, "namespace") == ""
            && "fields" in raw.members
            && raw.members["fields"] == JArray(seq(|fields|, i requires 0 <= i < |fields| => WrittenField(fields[i])))
  {
  }

  lemma NamedReads(kind: string, name: string, logical: string)
    ensures var raw := Written(Named(kind, name, logical));
            && Text(raw, "type") == kind && Text(raw, "name") == name && Text(raw, "namespace") == ""
            && Text(raw, "logicalType") == logical
  {
  }

  lemma LogicalReads(kind: string, logical: string)
    requires logical != ""
    ensures var raw := Written(Primitive(kind, logical));
            Text(raw, "type") == kind && Text(raw, "logicalType") == logical
  {
  }

  lemma ContainerReads(t: AvroType)
    ensures var a := Written(Array(t));
            Text(a, "type") == "array" && Text(a, "namespace") == "" && "items" in a.members
            && a.members["items"] == Written(t)
    ensures var m := Written(Map(t));
            Text(m, "type") == "map" && Text(m, "namespace") == "" && "values" in m.members
            && m.members["values"] == Written(t)
  {
  }

  lemma RecordParsesBack(name: string, fields: seq<Field>, namespace: string)
    requires !(Simple(name) && namespace != "")
    requires forall i :: 0 <= i < |fields| ==>
               var p := ParseType(Written(fields[i].typ), NamespaceOf(name, namespace));
               p.Parsed? && p.value == fields[i].typ
    ensures var p := ParseType(Written(Record(name, fields)), namespace);
            p.Parsed? && p.value == Record(name, fields)
  {
    RecordReads(name, fields);
    WrittenFieldsParse(fields, NamespaceOf(name, namespace));
  }

  /** Every schema written out in full parses back to itself. */
  lemma {:induction false} ParsesBack(t: AvroType, namespace: string)
    requires Full(t, namespace)
    ensures var p := ParseType(Written(t), namespace);
            p.Parsed? && p.value == t
    decreases t
  {
    match t
    case Primitive(kind, logical) => if logical != "" { LogicalReads(kind, logical); }
    case Named(kind, name, logical) => NamedReads(kind, name, logical);
    case Record(name, fields) =>
      forall i | 0 <= i < |fields|
        ensures ParseType(Written(fields[i].typ), NamespaceOf(name, namespace)).Parsed?
        ensures ParseType(Written(fields[i].typ), NamespaceOf(name, namespace)).value == fields[i].typ
      {
        ParsesBack(fields[i].typ, NamespaceOf(name, namespace));
      }
      RecordParsesBack(name, fields, namespace);
    case Array(items) =>
      ContainerReads(items);
      ParsesBack(items, namespace);
    case Map(values) =>
      ContainerReads(values);
      ParsesBack(values, namespace);
    case Union(branches) =>
      forall i | 0 <= i < |branches|
        ensures ParseType(Written(branches[i]), namespace).Parsed?
        ensures ParseType(Written(branches[i]), namespace).value == branches[i]
      {
        ParsesBack(branches[i], namespace);
      }
      WrittenBranchesParse(branches, namespace);
    case Ref(name) =>
  }

  // --------------------------------------------------------- the latest declaration

  /** The types a schema declares by name, in the order they are written. */
  function InOrder(t: AvroType): seq<AvroType>
    decreases t
  {
    match t
    case Record(_, fields) => [t] + InFields(fields)
    case Named(_, _, _) => [t]
    case Array(items) => InOrder(items)
    case Map(values) => InOrder(values)
    case Union(branches) => InBranches(branches)
    case _ => []
  }

  function InFields(fields: seq<Field>): seq<AvroType>
    decreases fields
  {
    if fields == [] then [] else InOrder(fields[0].typ) + InFields(fields[1..])
  }

  function InBranches(branches: seq<AvroType>): seq<AvroType>
    decreases branches
  {
    if branches == [] then [] else InOrder(branches[0]) + InBranches(branches[1..])
  }

  predicate LatestAt(ds: seq<AvroType>, name: string, i: nat)
    requires i < |ds|
  {
    BranchName(ds[i]) == name && forall j :: i < j < |ds| ==> BranchName(ds[j]) != name
  }

  ghost predicate Latest(ds: seq<AvroType>, name: string, t: AvroType) {
    exists i :: 0 <= i < |ds| && LatestAt(ds, name, i) && ds[i] == t
  }

  /** A table holds the latest of some declarations for each name. */
  ghost predicate HoldsLatest(table: Names, ds: seq<AvroType>) {
    forall name, t :: name in table && table[name] == t <==> Latest(ds, name, t)
  }

  predicate Carried(ds: seq<AvroType>, name: string) {
    exists i :: 0 <= i < |ds| && BranchName(ds[i]) == name
  }

  lemma LatestJoin(a: seq<AvroType>, b: seq<AvroType>, name: string, t: AvroType)
    ensures Latest(a + b, name, t) <==> Latest(b, name, t) || (!Carried(b, name) && Latest(a, name, t))
  {
    var all := a + b;
    if i :| 0 <= i < |all| && LatestAt(all, name, i) && all[i] == t {
      if i < |a| {
        assert forall j :: i < j < |a| ==> a[j] == all[j];
        assert forall j :: 0 <= j < |b| ==> b[j] == all[|a| + j];
        assert LatestAt(a, name, i);
      } else {
        assert forall j :: i - |a| < j < |b| ==> b[j] == all[|a| + j];
        assert LatestAt(b, name, i - |a|);
      }
    }
    if i :| 0 <= i < |b| && LatestAt(b, name, i) && b[i] == t {
      assert LatestAt(all, name, |a| + i);
    }
    if !Carried(b, name) {
      if i :| 0 <= i < |a| && LatestAt(a, name, i) && a[i] == t {
        assert LatestAt(all, name, i);
      }
    }
  }

  lemma {:induction false} CarriedHasLatest(ds: seq<AvroType>, name: string)
    requires Carried(ds, name)
    ensures exists t :: Latest(ds, name, t)
  {
    var i :| 0 <= i < |ds| && BranchName(ds[i]) == name;
    if !LatestAt(ds, name, i) {
      var j :| i < j < |ds| && BranchName(ds[j]) == name;
      assert ds[1..][j - 1] == ds[j];
      CarriedHasLatest(ds[1..], name);
      var t :| Latest(ds[1..], name, t);
      LatestJoin(ds[..1], ds[1..], name, t);
      assert ds[..1] + ds[1..] == ds;
    } else {
      assert Latest(ds, name, ds[i]);
    }
  }

  lemma JoinHolds(x: Names, a: seq<AvroType>, y: Names, b: seq<AvroType>)
    requires HoldsLatest(x, a) && HoldsLatest(y, b)
    ensures HoldsLatest(x + y, a + b)
  {
    forall name, t ensures name in x + y && (x + y)[name] == t <==> Latest(a + b, name, t) {
      LatestJoin(a, b, name, t);
      if name in y {
        assert Latest(b, name, y[name]);
        assert Carried(b, name);
      }
      if Carried(b, name) {
        CarriedHasLatest(b, name);
      }
    }
  }

  lemma OneHolds(t: AvroType)
    ensures HoldsLatest(map[BranchName(t) := t], [t]) && HoldsLatest(map[], [])
  {
    assert LatestAt([t], BranchName(t), 0);
  }

  /** The parser's table holds, for every name, the declaration written last. */
  lemma {:induction false} LastDeclarationWins(raw: Json, namespace: string)
    ensures var p := ParseType(raw, namespace);
            p.Parsed? ==> HoldsLatest(p.declared, InOrder(p.value))
    decreases raw, 1
  {
    var p := ParseType(raw, namespace);
    if p.Parsed? {
      OneHolds(p.value);
      match raw
      case JArray(items) => BranchesHold(items, namespace);
      case JObject(members) =>
        var ns := Around(raw, namespace);
        if p.value.Record? && "fields" in members && members["fields"].JArray? {
          FieldsHold(members["fields"].items, NamespaceOf(p.value.name, ns));
          RecordHolds(p, members["fields"].items, NamespaceOf(p.value.name, ns));
        } else if p.value.Record? {
          assert InOrder(p.value) == [p.value] && p.declared == map[BranchName(p.value) := p.value];
        }
        if p.value.Array? { LastDeclarationWins(members["items"], ns); }
        if p.value.Map? { LastDeclarationWins(members["values"], ns); }
      case _ =>
    }
  }

  lemma RecordHolds(p: Parsed<AvroType>, items: seq<Json>, scope: string)
    requires p.Parsed? && p.value.Record? && ParseFields(items, scope).Parsed?
    requires p.value.fields == ParseFields(items, scope).value
    requires p.declared == map[p.value.name := p.value] + ParseFields(items, scope).declared
    requires HoldsLatest(ParseFields(items, scope).declared, InFields(p.value.fields))
    ensures HoldsLatest(p.declared, InOrder(p.value))
  {
    OneHolds(p.value);
    JoinHolds(map[p.value.name := p.value], [p.value], ParseFields(items, scope).declared, InFields(p.value.fields));
  }

  lemma {:induction false} BranchesHold(items: seq<Json>, namespace: string)
    ensures var p := ParseBranches(items, namespace);
            p.Parsed? ==> HoldsLatest(p.declared, InBranches(p.value))
    decreases items, 0
  {
    if items == [] {
      OneHolds(Primitive("", ""));
    } else if ParseBranches(items, namespace).Parsed? {
      LastDeclarationWins(items[0], namespace);
      BranchesHold(items[1..], namespace);
      var first, rest := ParseType(items[0], namespace), ParseBranches(items[1..], namespace);
      JoinHolds(first.declared, InOrder(first.value), rest.declared, InBranches(rest.value));
      assert ([first.value] + rest.value)[1..] == rest.value;
    }
  }

  lemma {:induction false} FieldsHold(items: seq<Json>, namespace: string)
    ensures var p := ParseFields(items, namespace);
            p.Parsed? ==> HoldsLatest(p.declared, InFields(p.value))
    decreases items, 0
  {
    if items == [] {
      OneHolds(Primitive("", ""));
    } else if ParseFields(items, namespace).Parsed? {
      var first, rest := ParseType(items[0].members["type"], namespace), ParseFields(items[1..], namespace);
      LastDeclarationWins(items[0].members["type"], namespace);
      FieldsHold(items[1..], namespace);
      JoinHolds(first.declared, InOrder(first.value), rest.declared, InFields(rest.value));
      assert ParseFields(items, namespace).value[1..] == rest.value;
    }
  }
}
