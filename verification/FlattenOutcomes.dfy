/**
 When flattening has one result whatever is picked for each reference: computed in
 rounds on the types alone, and proved to be exactly so.
 */
module FlattenOutcomes {
  import opened Common
  import opened Flatten
  import opened FlattenProofs
  import opened FlattenChoice
  import opened FlattenRounds

  // ------------------------------------------------------ types that can be told apart

  predicate SameForm(p: AvroType, q: AvroType) {
    p.Record? == q.Record? && p.Array? == q.Array? && p.Map? == q.Map? && p.Union? == q.Union?
  }

  /** A leaf type under which an instant becomes a date. */
  predicate Dated(t: AvroType) { (t.Primitive? || t.Named?) && t.logical == "date" }

  /** Two types, as n rounds find, that some value flattens to different results with,
      for some picks of the references in them. */
  ghost predicate Differ(named: Names, n: nat, s: AvroType, t: AvroType)
    decreases n, 0
  {
    n > 0 && exists p, q :: MayResolve(named, s, p) && MayResolve(named, t, q) && DifferAs(named, n - 1, p, q)
  }

  /** The same once references are resolved: types of different forms, one leaf a
      date and the other not, a record field that only one has, or parts that differ. */
  ghost predicate DifferAs(named: Names, n: nat, p: AvroType, q: AvroType)
    decreases n, 2
  {
    || !SameForm(p, q)
    || match p
       case Union(branches) =>
         exists key, f, g :: MayFind(named, branches, key, f) && MayFind(named, q.branches, key, g)
                             && FindsDiffer(named, n, f, g)
       case Record(_, fields) =>
         || (exists i :: 0 <= i < |fields| && !HasField(q.fields, fields[i].name))
         || (exists j :: 0 <= j < |q.fields| && !HasField(fields, q.fields[j].name))
         || (exists i, j :: 0 <= i < |fields| && 0 <= j < |q.fields| && fields[i].name == q.fields[j].name
                            && Differ(named, n, fields[i].typ, q.fields[j].typ))
       case Array(items) => Differ(named, n, items, q.items)
       case Map(values) => Differ(named, n, values, q.values)
       case _ => Dated(p) != Dated(q)
  }

  ghost predicate FindsDiffer(named: Names, n: nat, f: Option<AvroType>, g: Option<AvroType>)
    decreases n, 1
  {
    f.Some? != g.Some? || (f.Some? && Differ(named, n, f.value, g.value))
  }

  /** A value with two results. */
  ghost predicate Splits(named: Names, s: AvroType, t: AvroType, v: Value, a: Option<Value>, b: Option<Value>) {
    MayFlatten(named, s, v, a) && MayFlatten(named, t, v, b) && a != b
  }

  ghost predicate SplitsAs(named: Names, p: AvroType, q: AvroType, v: Value, a: Option<Value>, b: Option<Value>) {
    MayFlattenAs(named, p, v, a) && MayFlattenAs(named, q, v, b) && a != b
  }

  lemma {:induction false} DifferMore(named: Names, n: nat, m: nat, s: AvroType, t: AvroType)
    requires n <= m && Differ(named, n, s, t)
    ensures Differ(named, m, s, t)
    decreases n, 0
  {
    var p, q :| MayResolve(named, s, p) && MayResolve(named, t, q) && DifferAs(named, n - 1, p, q);
    DifferAsMore(named, n - 1, m - 1, p, q);
  }

  lemma {:induction false} DifferAsMore(named: Names, n: nat, m: nat, p: AvroType, q: AvroType)
    requires n <= m && DifferAs(named, n, p, q)
    ensures DifferAs(named, m, p, q)
    decreases n, 1
  {
    if SameForm(p, q) {
      if p.Union? {
        var key, f, g :| MayFind(named, p.branches, key, f) && MayFind(named, q.branches, key, g)
                         && FindsDiffer(named, n, f, g);
        if f.Some? && g.Some? { DifferMore(named, n, m, f.value, g.value); }
        assert FindsDiffer(named, m, f, g);
      } else if p.Record? {
        if i, j :| 0 <= i < |p.fields| && 0 <= j < |q.fields| && p.fields[i].name == q.fields[j].name
                   && Differ(named, n, p.fields[i].typ, q.fields[j].typ) {
          DifferMore(named, n, m, p.fields[i].typ, q.fields[j].typ);
        }
      } else if p.Array? {
        DifferMore(named, n, m, p.items, q.items);
      } else if p.Map? {
        DifferMore(named, n, m, p.values, q.values);
      }
    }
  }

  // ---------------------------------------------------- what is found is really there

  /** The fields of every record in the type have different names. */
  predicate FieldsApart(t: AvroType) {
    match t
    case Record(_, fields) => DistinctFields(fields) && forall i :: 0 <= i < |fields| ==> FieldsApart(fields[i].typ)
    case Array(items) => FieldsApart(items)
    case Map(values) => FieldsApart(values)
    case Union(branches) => forall i :: 0 <= i < |branches| ==> FieldsApart(branches[i])
    case _ => true
  }

  ghost predicate AllApart(named: Names, t: AvroType) {
    FieldsApart(t) && forall n :: n in named ==> FieldsApart(named[n])
  }

  lemma ApartResolved(named: Names, t: AvroType, r: AvroType)
    requires AllApart(named, t) && MayResolve(named, t, r)
    ensures AllApart(named, r)
  {
  }

  lemma {:induction false} FoundIsBranch(named: Names, branches: seq<AvroType>, key: string, b: AvroType)
    requires MayFind(named, branches, key, Some(b))
    ensures b in branches
  {
    var r :| MayResolve(named, branches[0], r) &&
             if BranchName(r) == key then Some(b) == Some(branches[0]) else MayFind(named, branches[1..], key, Some(b));
    if BranchName(r) != key {
      FoundIsBranch(named, branches[1..], key, b);
    }
  }

  lemma NilMay(named: Names, t: AvroType)
    ensures MayFlatten(named, t, Nil, Some(Nil))
  {
    ResolveMay(named, t);
    assert MayFlattenAs(named, Resolve(named, t), Nil, Some(Nil));
  }

  function Single(key: string, x: Value): Value { Obj(map[key := x]) }

  lemma SingleIs(key: string, x: Value)
    ensures |map[key := x]| == 1 && OnlyKey(map[key := x]) == key
  {
    assert key in map[key := x].Keys;
    assert map[key := x].Keys == {key};
  }

  lemma UnionMay(named: Names, branches: seq<AvroType>, key: string, found: Option<AvroType>,
                 x: Value, out: Option<Value>)
    requires MayFind(named, branches, key, found)
    requires if found.None? then out == None else MayFlatten(named, found.value, x, out)
    ensures MayFlattenAs(named, Union(branches), Single(key, x), out)
  {
    SingleIs(key, x);
  }

  lemma ArrayMay(named: Names, items: AvroType, x: Value, out: Option<Value>)
    requires MayFlatten(named, items, x, out)
    ensures MayFlattenAs(named, Array(items), Arr([x]), if out.None? then None else Some(Arr([out.value])))
  {
    assert Arr([x]).items[0] == x;
  }

  lemma MapMay(named: Names, values: AvroType, x: Value, out: Option<Value>)
    requires MayFlatten(named, values, x, out)
    ensures MayFlattenAs(named, Map(values), Single("", x), if out.None? then None else Some(Single("", out.value)))
  {
    assert "" in Single("", x).members;
  }

  /** A field the record does not have is dropped. */
  lemma {:induction false} OtherField(named: Names, fields: seq<Field>, name: string, x: Value)
    requires forall i :: 0 <= i < |fields| ==> fields[i].name != name
    ensures MayFlattenFields(named, fields, Single(name, x), Some(map[]))
  {
    if fields != [] {
      OtherField(named, fields[..|fields| - 1], name, x);
    }
  }

  /** A record with one member is what that member makes of it. */
  lemma {:induction false} OneField(named: Names, fields: seq<Field>, i: nat, x: Value, c: Option<Value>)
    requires DistinctFields(fields) && i < |fields| && MayFlatten(named, fields[i].typ, x, c)
    ensures MayFlattenFields(named, fields, Single(fields[i].name, x),
                             if c.None? then None else Some(map[fields[i].name := c.value]))
    decreases |fields|
  {
    var front, last, name := fields[..|fields| - 1], fields[|fields| - 1], fields[i].name;
    var v := Single(name, x);
    if i == |fields| - 1 {
      OtherField(named, front, name, x);
      FieldMay(named, fields, v, map[], c);
    } else {
      OneField(named, front, i, x, c);
      assert last.name !in v.members;
    }
  }

  lemma FieldsMay(named: Names, t: AvroType, name: string, x: Value, c: Option<map<string, Value>>)
    requires t.Record? && MayFlattenFields(named, t.fields, Single(name, x), c)
    ensures MayFlattenAs(named, t, Single(name, x), if c.None? then None else Some(Obj(c.value)))
  {
  }

  /** A name no field has. */
  lemma {:induction false} NewName(fields: seq<Field>) returns (name: string)
    ensures forall i :: 0 <= i < |fields| ==> |fields[i].name| < |name|
  {
    if fields == [] {
      name := "";
    } else {
      name := NewName(fields[..|fields| - 1]);
      name := name + fields[|fields| - 1].name + ".";
    }
  }

  lemma EmptyObject(named: Names, t: AvroType)
    ensures MayFlattenAs(named, t, Obj(map[]), if t.Union? || t.Array? then None else Some(Obj(map[])))
  {
    if t.Record? { EmptyRecord(named, t.fields); }
  }

  lemma {:induction false} EmptyRecord(named: Names, fields: seq<Field>)
    ensures MayFlattenFields(named, fields, Obj(map[]), Some(map[]))
  {
    if fields != [] { EmptyRecord(named, fields[..|fields| - 1]); }
  }

  lemma EmptyArray(named: Names, t: AvroType)
    ensures MayFlattenAs(named, t, Arr([]), if t.Union? || t.Record? || t.Map? then None else Some(Arr([])))
  {
  }

  /** Only a map keeps a member of any name. */
  lemma RecordOrMap(named: Names, r: AvroType, m: AvroType) returns (v: Value, a: Option<Value>, b: Option<Value>)
    requires r.Record? && m.Map?
    ensures SplitsAs(named, r, m, v, a, b)
  {
    var name := NewName(r.fields);
    OtherField(named, r.fields, name, Nil);
    FieldsMay(named, r, name, Nil, Some(map[]));
    NilMay(named, m.values);
    v, a, b := Single(name, Nil), Some(Obj(map[])), Some(Single(name, Nil));
    assert name in b.value.members && name !in a.value.members;
  }

  /** Types of different forms differ on something empty, or on an unheard-of member. */
  lemma FormsDiffer(named: Names, p: AvroType, q: AvroType) returns (v: Value, a: Option<Value>, b: Option<Value>)
    requires !SameForm(p, q)
    ensures SplitsAs(named, p, q, v, a, b)
  {
    EmptyArray(named, p);
    EmptyArray(named, q);
    EmptyObject(named, p);
    EmptyObject(named, q);
    a := if p.Union? || p.Record? || p.Map? then None else Some(Arr([]));
    b := if q.Union? || q.Record? || q.Map? then None else Some(Arr([]));
    v := Arr([]);
    if a == b {
      a := if p.Union? || p.Array? then None else Some(Obj(map[]));
      b := if q.Union? || q.Array? then None else Some(Obj(map[]));
      v := Obj(map[]);
      if a == b {
        if p.Record? {
          v, a, b := RecordOrMap(named, p, q);
        } else {
          v, b, a := RecordOrMap(named, q, p);
        }
      }
    }
  }

  /** A field that only one record has keeps its null there alone. */
  lemma LostField(named: Names, r: AvroType, s: AvroType, i: nat) returns (v: Value, a: Option<Value>, b: Option<Value>)
    requires r.Record? && s.Record? && DistinctFields(r.fields)
    requires i < |r.fields| && !HasField(s.fields, r.fields[i].name)
    ensures SplitsAs(named, r, s, v, a, b)
  {
    var name := r.fields[i].name;
    NilMay(named, r.fields[i].typ);
    OneField(named, r.fields, i, Nil, Some(Nil));
    OtherField(named, s.fields, name, Nil);
    v, a, b := Single(name, Nil), Some(Single(name, Nil)), Some(Obj(map[]));
    FieldsMay(named, r, name, Nil, Some(map[name := Nil]));
    FieldsMay(named, s, name, Nil, Some(map[]));
    assert name in a.value.members && name !in b.value.members;
  }

  lemma CommonField(named: Names, p: AvroType, q: AvroType, i: nat, j: nat,
                    x: Value, c: Option<Value>, d: Option<Value>)
      returns (v: Value, a: Option<Value>, b: Option<Value>)
    requires p.Record? && q.Record? && DistinctFields(p.fields) && DistinctFields(q.fields)
    requires i < |p.fields| && j < |q.fields| && p.fields[i].name == q.fields[j].name
    requires Splits(named, p.fields[i].typ, q.fields[j].typ, x, c, d)
    ensures SplitsAs(named, p, q, v, a, b)
  {
    var name := p.fields[i].name;
    OneField(named, p.fields, i, x, c);
    OneField(named, q.fields, j, x, d);
    FieldsMay(named, p, name, x, if c.None? then None else Some(map[name := c.value]));
    FieldsMay(named, q, name, x, if d.None? then None else Some(map[name := d.value]));
    v := Single(name, x);
    a := if c.None? then None else Some(Single(name, c.value));
    b := if d.None? then None else Some(Single(name, d.value));
    assert c.Some? && d.Some? ==> a.value.members[name] != b.value.members[name];
  }

  lemma SplitUnion(named: Names, p: AvroType, q: AvroType, key: string, f: Option<AvroType>, g: Option<AvroType>,
                   x: Value, a: Option<Value>, b: Option<Value>)
    requires p.Union? && q.Union? && MayFind(named, p.branches, key, f) && MayFind(named, q.branches, key, g)
    requires if f.None? then a == None else MayFlatten(named, f.value, x, a)
    requires if g.None? then b == None else MayFlatten(named, g.value, x, b)
    requires a != b
    ensures SplitsAs(named, p, q, Single(key, x), a, b)
  {
    UnionMay(named, p.branches, key, f, x, a);
    UnionMay(named, q.branches, key, g, x, b);
  }

  lemma SplitArray(named: Names, p: AvroType, q: AvroType, x: Value, c: Option<Value>, d: Option<Value>)
      returns (v: Value, a: Option<Value>, b: Option<Value>)
    requires p.Array? && q.Array? && Splits(named, p.items, q.items, x, c, d)
    ensures SplitsAs(named, p, q, v, a, b)
  {
    ArrayMay(named, p.items, x, c);
    ArrayMay(named, q.items, x, d);
    v := Arr([x]);
    a := if c.None? then None else Some(Arr([c.value]));
    b := if d.None? then None else Some(Arr([d.value]));
    assert c.Some? && d.Some? ==> a.value.items[0] != b.value.items[0];
  }

  lemma SplitMap(named: Names, p: AvroType, q: AvroType, x: Value, c: Option<Value>, d: Option<Value>)
      returns (v: Value, a: Option<Value>, b: Option<Value>)
    requires p.Map? && q.Map? && Splits(named, p.values, q.values, x, c, d)
    ensures SplitsAs(named, p, q, v, a, b)
  {
    MapMay(named, p.values, x, c);
    MapMay(named, q.values, x, d);
    v := Single("", x);
    a := if c.None? then None else Some(Single("", c.value));
    b := if d.None? then None else Some(Single("", d.value));
    assert c.Some? && d.Some? ==> a.value.members[""] != b.value.members[""];
  }

  /** A difference found is there: one value, two results. */
  lemma {:induction false} DifferReal(named: Names, n: nat, s: AvroType, t: AvroType)
      returns (v: Value, a: Option<Value>, b: Option<Value>)
    requires AllApart(named, s) && AllApart(named, t) && Differ(named, n, s, t)
    ensures Splits(named, s, t, v, a, b)
    decreases n, 0
  {
    var p, q :| MayResolve(named, s, p) && MayResolve(named, t, q) && DifferAs(named, n - 1, p, q);
    ApartResolved(named, s, p);
    ApartResolved(named, t, q);
    v, a, b := DifferAsReal(named, n - 1, p, q);
  }

  lemma {:induction false} DifferAsReal(named: Names, n: nat, p: AvroType, q: AvroType)
      returns (v: Value, a: Option<Value>, b: Option<Value>)
    requires AllApart(named, p) && AllApart(named, q) && DifferAs(named, n, p, q)
    ensures SplitsAs(named, p, q, v, a, b)
    decreases n, 2
  {
    if !SameForm(p, q) {
      v, a, b := FormsDiffer(named, p, q);
    } else if p.Union? {
      v, a, b := UnionsDiffer(named, n, p, q);
    } else if p.Record? {
      v, a, b := RecordsDiffer(named, n, p, q);
    } else if p.Array? {
      var x, c, d := DifferReal(named, n, p.items, q.items);
      v, a, b := SplitArray(named, p, q, x, c, d);
    } else if p.Map? {
      var x, c, d := DifferReal(named, n, p.values, q.values);
      v, a, b := SplitMap(named, p, q, x, c, d);
    } else {
      v := Leaf(Moment(0));
      a, b := Some(Leaf(ConvertScalar(p, Moment(0)))), Some(Leaf(ConvertScalar(q, Moment(0))));
    }
  }

  lemma {:induction false} UnionsDiffer(named: Names, n: nat, p: AvroType, q: AvroType)
      returns (v: Value, a: Option<Value>, b: Option<Value>)
    requires AllApart(named, p) && AllApart(named, q) && DifferAs(named, n, p, q) && p.Union? && q.Union?
    ensures SplitsAs(named, p, q, v, a, b)
    decreases n, 1
  {
    var key, f, g :| MayFind(named, p.branches, key, f) && MayFind(named, q.branches, key, g)
                     && FindsDiffer(named, n, f, g);
    var x: Value;
    if f.Some? && g.Some? {
      FoundIsBranch(named, p.branches, key, f.value);
      FoundIsBranch(named, q.branches, key, g.value);
      x, a, b := DifferReal(named, n, f.value, g.value);
    } else {
      x, a, b := Nil, if f.None? then None else Some(Nil), if g.None? then None else Some(Nil);
      if f.Some? { NilMay(named, f.value); } else { NilMay(named, g.value); }
    }
    SplitUnion(named, p, q, key, f, g, x, a, b);
    v := Single(key, x);
  }

  lemma {:induction false} RecordsDiffer(named: Names, n: nat, p: AvroType, q: AvroType)
      returns (v: Value, a: Option<Value>, b: Option<Value>)
    requires AllApart(named, p) && AllApart(named, q) && DifferAs(named, n, p, q) && p.Record? && q.Record?
    ensures SplitsAs(named, p, q, v, a, b)
    decreases n, 1
  {
    if i :| 0 <= i < |p.fields| && !HasField(q.fields, p.fields[i].name) {
      v, a, b := LostField(named, p, q, i);
    } else if j :| 0 <= j < |q.fields| && !HasField(p.fields, q.fields[j].name) {
      v, b, a := LostField(named, q, p, j);
    } else {
      var i, j :| 0 <= i < |p.fields| && 0 <= j < |q.fields| && p.fields[i].name == q.fields[j].name
                  && Differ(named, n, p.fields[i].typ, q.fields[j].typ);
      var x, c, d := DifferReal(named, n, p.fields[i].typ, q.fields[j].typ);
      v, a, b := CommonField(named, p, q, i, j, x, c, d);
    }
  }

  // ------------------------------------------------------ what is there is found

  lemma {:induction false} FieldsFail(named: Names, fields: seq<Field>, v: Value) returns (i: nat)
    requires v.Obj? && MayFlattenFields(named, fields, v, None)
    ensures i < |fields| && fields[i].name in v.members
    ensures MayFlatten(named, fields[i].typ, v.members[fields[i].name], None)
  {
    var front, f := fields[..|fields| - 1], fields[|fields| - 1];
    if MayFlattenFields(named, front, v, None) {
      i := FieldsFail(named, front, v);
    } else {
      i := |fields| - 1;
    }
  }

  /** What one more field does to a record that has come out so far. */
  lemma LastKept(named: Names, fields: seq<Field>, v: Value, m: map<string, Value>) returns (rest: map<string, Value>)
    requires v.Obj? && fields != [] && MayFlattenFields(named, fields, v, Some(m))
    ensures MayFlattenFields(named, fields[..|fields| - 1], v, Some(rest))
    ensures var f := fields[|fields| - 1];
            if f.name !in v.members then m == rest
            else f.name in m && MayFlatten(named, f.typ, v.members[f.name], Some(m[f.name]))
                 && m == rest[f.name := m[f.name]]
  {
    var f := fields[|fields| - 1];
    var r :| MayFlattenFields(named, fields[..|fields| - 1], v, r) &&
             if r.None? || f.name !in v.members then Some(m) == r
             else exists c :: MayFlatten(named, f.typ, v.members[f.name], c) &&
                    Some(m) == if c.None? then None else Some(r.value[f.name := c.value]);
    rest := r.value;
  }

  /** Every field that is there has come out. */
  lemma {:induction false} FieldKept(named: Names, fields: seq<Field>, v: Value, m: map<string, Value>, i: nat)
      returns (c: Value)
    requires v.Obj? && MayFlattenFields(named, fields, v, Some(m)) && i < |fields| && fields[i].name in v.members
    ensures fields[i].name in m && MayFlatten(named, fields[i].typ, v.members[fields[i].name], Some(c))
    decreases |fields|
  {
    var rest := LastKept(named, fields, v, m);
    if i == |fields| - 1 {
      c := m[fields[i].name];
    } else {
      c := FieldKept(named, fields[..|fields| - 1], v, rest, i);
    }
  }

  /** Everything that has come out comes from a field. */
  lemma {:induction false} FieldOf(named: Names, fields: seq<Field>, v: Value, m: map<string, Value>, n: string)
      returns (i: nat)
    requires v.Obj? && MayFlattenFields(named, fields, v, Some(m)) && n in m
    ensures i < |fields| && fields[i].name == n && n in v.members
    ensures MayFlatten(named, fields[i].typ, v.members[n], Some(m[n]))
    decreases |fields|
  {
    var rest := LastKept(named, fields, v, m);
    if fields[|fields| - 1].name == n && n in v.members {
      i := |fields| - 1;
    } else {
      i := FieldOf(named, fields[..|fields| - 1], v, rest, n);
    }
  }

  /** Where two records fail to come out the same: at a field that only one has, or at
      a common one. */
  lemma FieldsSplit(named: Names, p: AvroType, q: AvroType, v: Value,
                    a: Option<map<string, Value>>, b: Option<map<string, Value>>)
      returns (i: nat, j: nat, c: Option<Value>, d: Option<Value>)
    requires p.Record? && q.Record? && v.Obj? && a != b
    requires MayFlattenFields(named, p.fields, v, a) && MayFlattenFields(named, q.fields, v, b)
    ensures || (i < |p.fields| && !HasField(q.fields, p.fields[i].name))
            || (j < |q.fields| && !HasField(p.fields, q.fields[j].name))
            || (i < |p.fields| && j < |q.fields| && p.fields[i].name == q.fields[j].name
                && p.fields[i].name in v.members
                && Splits(named, p.fields[i].typ, q.fields[j].typ, v.members[p.fields[i].name], c, d))
  {
    i, j, c, d := 0, 0, None, None;
    if a.None? {
      i := FieldsFail(named, p.fields, v);
      if k :| 0 <= k < |q.fields| && q.fields[k].name == p.fields[i].name {
        j := k;
        var y := FieldKept(named, q.fields, v, b.value, j);
        d := Some(y);
      }
    } else if b.None? {
      j := FieldsFail(named, q.fields, v);
      if k :| 0 <= k < |p.fields| && p.fields[k].name == q.fields[j].name {
        i := k;
        var x := FieldKept(named, p.fields, v, a.value, i);
        c := Some(x);
      }
    } else if n :| n in a.value && n !in b.value {
      i := FieldOf(named, p.fields, v, a.value, n);
      if k :| 0 <= k < |q.fields| && q.fields[k].name == n {
        var y := FieldKept(named, q.fields, v, b.value, k);
      }
    } else if n :| n in b.value && n !in a.value {
      j := FieldOf(named, q.fields, v, b.value, n);
      if k :| 0 <= k < |p.fields| && p.fields[k].name == n {
        var x := FieldKept(named, p.fields, v, a.value, k);
      }
    } else {
      var n := DifferingMember(a.value, b.value);
      i := FieldOf(named, p.fields, v, a.value, n);
      j := FieldOf(named, q.fields, v, b.value, n);
      c, d := Some(a.value[n]), Some(b.value[n]);
    }
  }

  lemma DifferingMember(a: map<string, Value>, b: map<string, Value>) returns (n: string)
    requires a.Keys == b.Keys && a != b
    ensures n in a && a[n] != b[n]
  {
    n :| n in a && a[n] != b[n];
  }

  lemma DifferingElement(a: seq<Value>, b: seq<Value>) returns (i: nat)
    requires |a| == |b| && a != b
    ensures i < |a| && a[i] != b[i]
  {
    i :| 0 <= i < |a| && a[i] != b[i];
  }

  lemma ArraysSplit(named: Names, p: AvroType, q: AvroType, v: Value, a: Option<Value>, b: Option<Value>)
      returns (i: nat, c: Option<Value>, d: Option<Value>)
    requires p.Array? && q.Array? && v.Arr? && SplitsAs(named, p, q, v, a, b)
    ensures i < |v.items| && Splits(named, p.items, q.items, v.items[i], c, d)
  {
    if a.None? {
      i :| 0 <= i < |v.items| && MayFlatten(named, p.items, v.items[i], None);
      c, d := None, Some(b.value.items[i]);
    } else if b.None? {
      i :| 0 <= i < |v.items| && MayFlatten(named, q.items, v.items[i], None);
      c, d := Some(a.value.items[i]), None;
    } else {
      i := DifferingElement(a.value.items, b.value.items);
      c, d := Some(a.value.items[i]), Some(b.value.items[i]);
    }
  }

  lemma MapsSplit(named: Names, p: AvroType, q: AvroType, v: Value, a: Option<Value>, b: Option<Value>)
      returns (k: string, c: Option<Value>, d: Option<Value>)
    requires p.Map? && q.Map? && v.Obj? && SplitsAs(named, p, q, v, a, b)
    ensures k in v.members && Splits(named, p.values, q.values, v.members[k], c, d)
  {
    if a.None? {
      k :| k in v.members && MayFlatten(named, p.values, v.members[k], None);
      c, d := None, Some(b.value.members[k]);
    } else if b.None? {
      k :| k in v.members && MayFlatten(named, q.values, v.members[k], None);
      c, d := Some(a.value.members[k]), None;
    } else {
      k := DifferingMember(a.value.members, b.value.members);
      c, d := Some(a.value.members[k]), Some(b.value.members[k]);
    }
  }

  lemma UnionsSplit(named: Names, p: AvroType, q: AvroType, v: Value, a: Option<Value>, b: Option<Value>)
      returns (key: string, f: Option<AvroType>, g: Option<AvroType>)
    requires p.Union? && q.Union? && v.Obj? && |v.members| == 1 && SplitsAs(named, p, q, v, a, b)
    ensures key in v.members && MayFind(named, p.branches, key, f) && MayFind(named, q.branches, key, g)
    ensures f.Some? || g.Some?
    ensures f.Some? && g.Some? ==> Splits(named, f.value, g.value, v.members[key], a, b)
  {
    key := OnlyKey(v.members);
    f :| MayFind(named, p.branches, key, f) &&
         if f.None? then a == None else MayFlatten(named, f.value, v.members[key], a);
    g :| MayFind(named, q.branches, key, g) &&
         if g.None? then b == None else MayFlatten(named, g.value, v.members[key], b);
  }

  /** One value with two results is found in some round. */
  lemma {:induction false} SplitFound(named: Names, s: AvroType, t: AvroType, v: Value,
                                      a: Option<Value>, b: Option<Value>) returns (n: nat)
    requires Splits(named, s, t, v, a, b)
    ensures Differ(named, n, s, t)
    decreases v, 2
  {
    var p :| MayResolve(named, s, p) && MayFlattenAs(named, p, v, a);
    var q :| MayResolve(named, t, q) && MayFlattenAs(named, q, v, b);
    n := SplitAsFound(named, p, q, v, a, b);
    n := n + 1;
  }

  lemma {:induction false} SplitAsFound(named: Names, p: AvroType, q: AvroType, v: Value,
                                        a: Option<Value>, b: Option<Value>) returns (n: nat)
    requires SplitsAs(named, p, q, v, a, b)
    ensures DifferAs(named, n, p, q)
    decreases v, 1
  {
    n := 0;
    if SameForm(p, q) && !v.Nil? {
      if p.Union? {
        var key, f, g := UnionsSplit(named, p, q, v, a, b);
        if f.Some? && g.Some? {
          n := SplitFound(named, f.value, g.value, v.members[key], a, b);
        }
        assert FindsDiffer(named, n, f, g);
      } else if p.Record? {
        n := RecordsFound(named, p, q, v, a, b);
      } else if p.Array? {
        var i, c, d := ArraysSplit(named, p, q, v, a, b);
        n := SplitFound(named, p.items, q.items, v.items[i], c, d);
      } else if p.Map? {
        var k, c, d := MapsSplit(named, p, q, v, a, b);
        n := SplitFound(named, p.values, q.values, v.members[k], c, d);
      }
    }
  }

  lemma {:induction false} RecordsFound(named: Names, p: AvroType, q: AvroType, v: Value,
                                        a: Option<Value>, b: Option<Value>) returns (n: nat)
    requires SplitsAs(named, p, q, v, a, b) && p.Record? && q.Record? && !v.Nil?
    ensures DifferAs(named, n, p, q)
    decreases v, 0
  {
    var i, j, c, d := FieldsSplit(named, p, q, v, if a.None? then None else Some(a.value.members),
                                  if b.None? then None else Some(b.value.members));
    n := 0;
    if i < |p.fields| && j < |q.fields| && p.fields[i].name == q.fields[j].name && p.fields[i].name in v.members
       && Splits(named, p.fields[i].typ, q.fields[j].typ, v.members[p.fields[i].name], c, d) {
      n := SplitFound(named, p.fields[i].typ, q.fields[j].typ, v.members[p.fields[i].name], c, d);
    }
  }

  // ---------------------------------------------------------- rounds come to rest

  /** What a round has found. */
  ghost function ToldApart(named: Names, n: nat, types: set<AvroType>): set<(AvroType, AvroType)> {
    set s, t | s in types && t in types && Differ(named, n, s, t) :: (s, t)
  }

  function Pairs(types: set<AvroType>): set<(AvroType, AvroType)> { set s, t | s in types && t in types :: (s, t) }

  ghost predicate AgreeOn(named: Names, n: nat, m: nat, types: set<AvroType>) {
    forall s, t :: s in types && t in types ==> (Differ(named, n, s, t) <==> Differ(named, m, s, t))
  }

  lemma AgreeIsToldApart(named: Names, n: nat, m: nat, types: set<AvroType>)
    ensures AgreeOn(named, n, m, types) <==> ToldApart(named, n, types) == ToldApart(named, m, types)
  {
    if ToldApart(named, n, types) == ToldApart(named, m, types) {
      forall s, t | s in types && t in types ensures Differ(named, n, s, t) <==> Differ(named, m, s, t) {
        assert (s, t) in ToldApart(named, n, types) <==> (s, t) in ToldApart(named, m, types);
      }
    }
  }

  lemma DifferAsNext(named: Names, n: nat, m: nat, types: set<AvroType>, p: AvroType, q: AvroType)
    requires forall x :: MadeOf(p, x) || MadeOf(q, x) ==> x in types
    requires AgreeOn(named, n, m, types) && DifferAs(named, n, p, q)
    ensures DifferAs(named, m, p, q)
  {
    if SameForm(p, q) {
      if p.Union? {
        var key, f, g :| MayFind(named, p.branches, key, f) && MayFind(named, q.branches, key, g)
                         && FindsDiffer(named, n, f, g);
        if f.Some? && g.Some? {
          FoundIsBranch(named, p.branches, key, f.value);
          FoundIsBranch(named, q.branches, key, g.value);
          assert MadeOf(p, f.value) && MadeOf(q, g.value);
        }
        assert FindsDiffer(named, m, f, g);
      } else if p.Record? {
        if i, j :| 0 <= i < |p.fields| && 0 <= j < |q.fields| && p.fields[i].name == q.fields[j].name
                   && Differ(named, n, p.fields[i].typ, q.fields[j].typ) {
          assert MadeOf(p, p.fields[i].typ) && MadeOf(q, q.fields[j].typ);
        }
      } else if p.Array? {
        assert MadeOf(p, p.items) && MadeOf(q, q.items);
      } else if p.Map? {
        assert MadeOf(p, p.values) && MadeOf(q, q.values);
      }
    }
  }

  /** A round depends only on what the one before it found. */
  lemma DifferNext(named: Names, n: nat, m: nat, types: set<AvroType>, s: AvroType, t: AvroType)
    requires Closed(named, types) && AgreeOn(named, n, m, types) && s in types && t in types
    requires Differ(named, n + 1, s, t)
    ensures Differ(named, m + 1, s, t)
  {
    var p, q :| MayResolve(named, s, p) && MayResolve(named, t, q) && DifferAs(named, n, p, q);
    DifferAsNext(named, n, m, types, p, q);
  }

  ghost function ToldBy(named: Names, types: set<AvroType>): nat -> set<(AvroType, AvroType)> {
    (n: nat) => ToldApart(named, n, types)
  }

  lemma ToldNext(named: Names, types: set<AvroType>, n: nat, m: nat)
    requires Closed(named, types)
    ensures Follows(ToldBy(named, types), n, m)
  {
    if ToldApart(named, n, types) == ToldApart(named, m, types) {
      AgreeIsToldApart(named, n, m, types);
      forall s, t | s in types && t in types ensures Differ(named, n + 1, s, t) <==> Differ(named, m + 1, s, t) {
        if Differ(named, n + 1, s, t) { DifferNext(named, n, m, types, s, t); }
        if Differ(named, m + 1, s, t) { DifferNext(named, m, n, types, s, t); }
      }
      AgreeIsToldApart(named, n + 1, m + 1, types);
    }
  }

  lemma ToldMore(named: Names, types: set<AvroType>, n: nat)
    ensures Steps(ToldBy(named, types), Pairs(types), n)
  {
    forall s, t | s in types && t in types && Differ(named, n, s, t) ensures Differ(named, n + 1, s, t) {
      DifferMore(named, n, n + 1, s, t);
    }
  }

  lemma ToldIsGrowing(named: Names, types: set<AvroType>)
    requires Closed(named, types)
    ensures Growing(ToldBy(named, types), Pairs(types))
  {
    forall n: nat, m: nat ensures Follows(ToldBy(named, types), n, m) {
      ToldNext(named, types, n, m);
    }
    forall n: nat ensures Steps(ToldBy(named, types), Pairs(types), n) {
      ToldMore(named, types, n);
    }
  }

  lemma ToldRests(named: Names, types: set<AvroType>, n: nat)
    requires Closed(named, types) && n > |Pairs(types)|
    ensures ToldApart(named, n, types) == ToldApart(named, |Pairs(types)| + 1, types)
  {
    ToldIsGrowing(named, types);
    Rest(ToldBy(named, types), Pairs(types), n);
    assert ToldBy(named, types)(n) == ToldApart(named, n, types);
    assert ToldBy(named, types)(|Pairs(types)| + 1) == ToldApart(named, |Pairs(types)| + 1, types);
  }

  // -------------------------------------------------------------------- the verdict

  /** No two readings of the schema differ: as many rounds as there are pairs of its
      types, and one more, find nothing. */
  ghost predicate OneReading(named: Names, root: AvroType) {
    !Differ(named, |Pairs(Universe(named, root))| + 1, root, root)
  }

  lemma RoundsDecide(named: Names, root: AvroType, n: nat)
    requires Differ(named, n, root, root)
    ensures !OneReading(named, root)
  {
    var types := Universe(named, root);
    UniverseClosed(named, root);
    var last := |Pairs(types)| + 1;
    if n <= last {
      DifferMore(named, n, last, root, root);
    } else {
      ToldRests(named, types, n);
      assert (root, root) in ToldApart(named, n, types);
    }
  }

  ghost predicate OneOutcome(named: Names, t: AvroType, v: Value) {
    forall a, b :: MayFlatten(named, t, v, a) && MayFlatten(named, t, v, b) ==> a == b
  }

  lemma OneReadingSettles(named: Names, root: AvroType, v: Value)
    requires OneReading(named, root)
    ensures OneOutcome(named, root, v) && Settled(named, root, v)
  {
    forall a, b | MayFlatten(named, root, v, a) && MayFlatten(named, root, v, b) ensures a == b {
      if a != b {
        var n := SplitFound(named, root, root, v, a, b);
        RoundsDecide(named, root, n);
      }
    }
    FlatPossible(named, root, v);
  }

  /** Every value has one result, whatever is picked for each reference, exactly when
      no two readings of the schema differ. */
  lemma OutcomesExactly(named: Names, root: AvroType)
    requires AllApart(named, root)
    ensures (forall v :: OneOutcome(named, root, v)) <==> OneReading(named, root)
  {
    if OneReading(named, root) {
      forall v ensures OneOutcome(named, root, v) { OneReadingSettles(named, root, v); }
    } else {
      var v, a, b := DifferReal(named, |Pairs(Universe(named, root))| + 1, root, root);
      assert !OneOutcome(named, root, v);
    }
  }

  lemma OnlyObjects(named: Names, root: AvroType, v: Value, out: Option<Value>)
    requires root.Record? && MayFlatten(named, root, v, out)
    ensures !v.Obj? ==> out == if v.Nil? then Some(Nil) else None
  {
    var r :| MayResolve(named, root, r) && MayFlattenAs(named, r, v, out);
  }

  /** The same of events alone: a record schema that leaves something open leaves it
      open for some record. */
  lemma EventOutcomesExactly(named: Names, root: AvroType)
    requires AllApart(named, root) && root.Record?
    ensures (forall members :: OneOutcome(named, root, Obj(members))) <==> OneReading(named, root)
  {
    if OneReading(named, root) {
      forall members ensures OneOutcome(named, root, Obj(members)) { OneReadingSettles(named, root, Obj(members)); }
    } else {
      var v, a, b := DifferReal(named, |Pairs(Universe(named, root))| + 1, root, root);
      OnlyObjects(named, root, v, a);
      OnlyObjects(named, root, v, b);
      assert !OneOutcome(named, root, Obj(v.members));
    }
  }

  /** Clear references are enough. */
  lemma ClearIsOneReading(named: Names, root: AvroType)
    requires AllApart(named, root) && AllClear(named, root)
    ensures OneReading(named, root)
  {
    forall v ensures OneOutcome(named, root, v) { FlatSettles(named, root, v); }
    OutcomesExactly(named, root);
  }
}
