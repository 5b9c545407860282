/** The flattener object: its table of named types is filled in place while parsing. */
module Flattening {
  import opened Common
  import opened Flatten

  lemma MergeAssociates(a: Names, b: Names, c: Names)
    ensures (a + b) + c == a + (b + c)
  {
  }

  class Flattener {
    var named: Names
    var root: AvroType

    /** A schema that does not parse leaves no flattener to use. */
    constructor ()
      ensures named == map[]
    {
      named := map[];
      root := Ref("");
    }

    method Load(schema: Json) returns (ok: bool)
      requires named == map[]
      modifies this
      ensures ok <==> ParseType(schema, "").Parsed?
      ensures ok ==> root == ParseType(schema, "").value && named == ParseType(schema, "").declared
    {
      var t := Parse(schema, "");
      ok := t.Some?;
      if ok {
        assert map[] + ParseType(schema, "").declared == ParseType(schema, "").declared;
        root := t.value;
      }
    }

    method Parse(raw: Json, namespace: string) returns (t: Option<AvroType>)
      modifies this`named
      ensures t.None? <==> ParseType(raw, namespace).Failed?
      ensures t.Some? ==> t.value == ParseType(raw, namespace).value
                          && named == old(named) + ParseType(raw, namespace).declared
      decreases raw, 2
    {
      if raw.JString? {
        t := Some(if raw.s in PRIMITIVES then Primitive(raw.s, "") else Ref(FullName(raw.s, namespace)));
      } else if raw.JArray? {
        t := ParseUnion(raw.items, namespace);
      } else if raw.JObject? {
        t := ParseObject(raw, namespace);
      } else {
        t := None;
      }
    }

    method ParseUnion(items: seq<Json>, namespace: string) returns (t: Option<AvroType>)
      modifies this`named
      ensures t.None? <==> ParseBranches(items, namespace).Failed?
      ensures t.Some? ==> t.value == Union(ParseBranches(items, namespace).value)
                          && named == old(named) + ParseBranches(items, namespace).declared
      decreases items, 0
    {
      var branches: seq<AvroType> := [];
      ghost var all := ParseBranches(items, namespace);
      for i := 0 to |items|
        invariant all.Failed? <==> ParseBranches(items[i..], namespace).Failed?
        invariant all.Parsed? ==> all.value == branches + ParseBranches(items[i..], namespace).value
        invariant all.Parsed? ==>
                    old(named) + all.declared == named + ParseBranches(items[i..], namespace).declared
      {
        assert items[i..][0] == items[i] && items[i..][1..] == items[i + 1..];
        ghost var before := named;
        var b := Parse(items[i], namespace);
        if b.None? {
          return None;
        }
        if all.Parsed? {
          MergeAssociates(before, ParseType(items[i], namespace).declared,
                          ParseBranches(items[i + 1..], namespace).declared);
        }
        branches := branches + [b.value];
      }
      t := Some(Union(branches));
    }

    method ParseObject(raw: Json, namespace: string) returns (t: Option<AvroType>)
      requires raw.JObject?
      modifies this`named
      ensures t.None? <==> ParseType(raw, namespace).Failed?
      ensures t.Some? ==> t.value == ParseType(raw, namespace).value
                          && named == old(named) + ParseType(raw, namespace).declared
      decreases raw, 1
    {
      var kind := Text(raw, "type");
      var ns := if Text(raw, "namespace") != "" then Text(raw, "namespace") else namespace;
      if kind == "record" || kind == "error" {
        t := ParseRecord(raw, FullName(Text(raw, "name"), ns), ns);
      } else if kind == "enum" || kind == "fixed" {
        var e := Named(kind, FullName(Text(raw, "name"), ns), Text(raw, "logicalType"));
        named := named[e.name := e];
        t := Some(e);
      } else if kind == "array" {
        if "items" !in raw.members { return None; }
        var it := Parse(raw.members["items"], ns);
        t := if it.None? then None else Some(Array(it.value));
      } else if kind == "map" {
        if "values" !in raw.members { return None; }
        var vt := Parse(raw.members["values"], ns);
        t := if vt.None? then None else Some(Map(vt.value));
      } else if kind in PRIMITIVES {
        t := Some(Primitive(kind, Text(raw, "logicalType")));
      } else {
        t := None;
      }
    }

    /** The record is in the table before its fields are read, and a field that
        declares the same name again replaces it there. */
    method ParseRecord(raw: Json, full: string, ns: string) returns (t: Option<AvroType>)
      requires raw.JObject?
      modifies this`named
      ensures var fields := RecordFields(raw, full, ns);
              && (t.None? <==> fields.Failed?)
              && (t.Some? ==> t.value == Record(full, fields.value)
                              && named == old(named) + (map[full := t.value] + fields.declared))
      decreases raw, 0
    {
      var outer := named;
      named := map[];
      var fields: seq<Field> := [];
      if "fields" in raw.members && raw.members["fields"].JArray? {
        var read := ParseEach(raw.members["fields"].items, NamespaceOf(full, ns));
        if read.None? {
          return None;
        }
        fields := read.value;
      }
      named := outer[full := Record(full, fields)] + named;
      t := Some(Record(full, fields));
    }

    method ParseEach(items: seq<Json>, namespace: string) returns (fields: Option<seq<Field>>)
      requires named == map[]
      modifies this`named
      ensures fields.None? <==> ParseFields(items, namespace).Failed?
      ensures fields.Some? ==> fields.value == ParseFields(items, namespace).value
                               && named == ParseFields(items, namespace).declared
      decreases items, 0
    {
      var done: seq<Field> := [];
      ghost var all := ParseFields(items, namespace);
      for i := 0 to |items|
        invariant all.Failed? <==> ParseFields(items[i..], namespace).Failed?
        invariant all.Parsed? ==> all.value == done + ParseFields(items[i..], namespace).value
        invariant all.Parsed? ==> all.declared == named + ParseFields(items[i..], namespace).declared
      {
        assert items[i..][0] == items[i] && items[i..][1..] == items[i + 1..];
        if !items[i].JObject? || "type" !in items[i].members {
          return None;
        }
        ghost var before := named;
        var typ := Parse(items[i].members["type"], namespace);
        if typ.None? {
          return None;
        }
        if all.Parsed? {
          MergeAssociates(before, ParseType(items[i].members["type"], namespace).declared,
                          ParseFields(items[i + 1..], namespace).declared);
        }
        done := done + [Field(Text(items[i], "name"), typ.value)];
      }
      fields := Some(done);
    }
  }

  /** What ParseType reads as the fields of a record. */
  function RecordFields(raw: Json, full: string, ns: string): Parsed<seq<Field>>
    requires raw.JObject?
  {
    if "fields" in raw.members && raw.members["fields"].JArray?
    then ParseFields(raw.members["fields"].items, NamespaceOf(full, ns)) else Parsed([], map[])
  }
}
