/**
 Flattening as the code does it, visiting a table of names in no particular order:
 each time a reference matches several names only by its last components, any of
 them may be taken. When every reference is clear, nothing depends on that choice.
 */
module FlattenChoice {
  import opened Common
  import opened Flatten
  import opened FlattenProofs

  // ------------------------------------------------------------ any possible result

  /** What one call of resolve may return. */
  ghost predicate MayResolve(named: Names, t: AvroType, r: AvroType) {
    if !t.Ref? || t.name == "" then r == t
    else if t.name in named then r == named[t.name]
    else if exists n :: BySuffix(named, t.name, n) then exists n :: BySuffix(named, t.name, n) && r == named[n]
    else r == t
  }

  lemma ResolveMay(named: Names, t: AvroType)
    ensures MayResolve(named, t, Resolve(named, t))
  {
  }

  /** Which branch the search for a wrapper's key may find. */
  ghost predicate MayFind(named: Names, branches: seq<AvroType>, key: string, found: Option<AvroType>) {
    if branches == [] then found == None
    else
      exists r :: MayResolve(named, branches[0], r) &&
        if BranchName(r) == key then found == Some(branches[0]) else MayFind(named, branches[1..], key, found)
  }

  /** What flattening a value may yield; None is an error. */
  ghost predicate MayFlatten(named: Names, t0: AvroType, v: Value, out: Option<Value>)
    decreases v, 2, 0
  {
    exists t :: MayResolve(named, t0, t) && MayFlattenAs(named, t, v, out)
  }

  ghost predicate MayFlattenAs(named: Names, t: AvroType, v: Value, out: Option<Value>)
    decreases v, 1, 0
  {
    if v.Nil? then out == Some(Nil)
    else
      match t
      case Union(branches) =>
        if !v.Obj? || |v.members| != 1 then out == None
        else
          var key := OnlyKey(v.members);
          exists b :: MayFind(named, branches, key, b) &&
            if b.None? then out == None else MayFlatten(named, b.value, v.members[key], out)
      case Record(_, fields) =>
        if !v.Obj? then out == None
        else if out.None? then MayFlattenFields(named, fields, v, None)
        else out.value.Obj? && MayFlattenFields(named, fields, v, Some(out.value.members))
      case Array(items) =>
        if !v.Arr? then out == None
        else if out.None? then exists i :: 0 <= i < |v.items| && MayFlatten(named, items, v.items[i], None)
        else
          && out.value.Arr? && |out.value.items| == |v.items|
          && forall i :: 0 <= i < |v.items| ==> MayFlatten(named, items, v.items[i], Some(out.value.items[i]))
      case Map(values) =>
        if !v.Obj? then out == None
        else if out.None? then exists k :: k in v.members && MayFlatten(named, values, v.members[k], None)
        else
          && out.value.Obj? && out.value.members.Keys == v.members.Keys
          && forall k :: k in v.members ==> MayFlatten(named, values, v.members[k], Some(out.value.members[k]))
      case _ => out == Some(if v.Leaf? then Leaf(ConvertScalar(t, v.scalar)) else v)
  }

  ghost predicate MayFlattenFields(named: Names, fields: seq<Field>, v: Value, out: Option<map<string, Value>>)
    requires v.Obj?
    decreases v, 0, |fields|
  {
    if fields == [] then out == Some(map[])
    else
      var f := fields[|fields| - 1];
      exists rest :: MayFlattenFields(named, fields[..|fields| - 1], v, rest) &&
        if rest.None? || f.name !in v.members then out == rest
        else exists c :: MayFlatten(named, f.typ, v.members[f.name], c) &&
               out == if c.None? then None else Some(rest.value[f.name := c.value])
  }

  // -------------------------------------------------------------- clear references

  /** Every reference in the type has at most one meaning. */
  ghost predicate Clear(named: Names, t: AvroType) {
    match t
    case Record(_, fields) => forall i :: 0 <= i < |fields| ==> Clear(named, fields[i].typ)
    case Array(items) => Clear(named, items)
    case Map(values) => Clear(named, values)
    case Union(branches) => forall i :: 0 <= i < |branches| ==> Clear(named, branches[i])
    case Ref(name) => name == "" || name in named || Unambiguous(named, name)
    case _ => true
  }

  ghost predicate AllClear(named: Names, root: AvroType) {
    Clear(named, root) && forall n :: n in named ==> Clear(named, named[n])
  }

  lemma ResolveSettled(named: Names, t: AvroType, r: AvroType)
    requires Clear(named, t)
    ensures MayResolve(named, t, r) <==> r == Resolve(named, t)
  {
  }

  /** In a table that keeps each type under its own name a reference has one meaning
      exactly when it is clear. */
  lemma OneMeaning(named: Names, name: string)
    requires NamesStand(named)
    ensures (forall r, s :: MayResolve(named, Ref(name), r) && MayResolve(named, Ref(name), s) ==> r == s)
       <==> Clear(named, Ref(name))
  {
    if !Clear(named, Ref(name)) {
      var a, b :| BySuffix(named, name, a) && BySuffix(named, name, b) && a != b;
      assert MayResolve(named, Ref(name), named[a]) && MayResolve(named, Ref(name), named[b]);
      assert named[a].name != named[b].name;
    }
  }

  lemma {:induction false} FindSettled(named: Names, branches: seq<AvroType>, key: string, found: Option<AvroType>)
    requires forall i :: 0 <= i < |branches| ==> Clear(named, branches[i])
    ensures MayFind(named, branches, key, found) <==> found == FindBranch(named, branches, key)
  {
    if branches != [] {
      FindSettled(named, branches[1..], key, found);
      ResolveSettled(named, branches[0], Resolve(named, branches[0]));
      forall r | MayResolve(named, branches[0], r) ensures r == Resolve(named, branches[0]) {
        ResolveSettled(named, branches[0], r);
      }
    }
  }

  lemma ClearResolved(named: Names, t: AvroType)
    requires AllClear(named, t)
    ensures AllClear(named, Resolve(named, t))
  {
  }

  ghost predicate Settled(named: Names, t: AvroType, v: Value) {
    forall out :: MayFlatten(named, t, v, out) <==> out == Flat(named, t, v)
  }

  lemma {:induction false} FieldsSettled(named: Names, fields: seq<Field>, v: Value, out: Option<map<string, Value>>)
    requires v.Obj?
    requires forall i :: 0 <= i < |fields| && fields[i].name in v.members ==>
               Settled(named, fields[i].typ, v.members[fields[i].name])
    ensures MayFlattenFields(named, fields, v, out) <==> out == FlatFields(named, fields, v)
  {
    if fields != [] {
      var front, f := fields[..|fields| - 1], fields[|fields| - 1];
      forall rest ensures MayFlattenFields(named, front, v, rest) <==> rest == FlatFields(named, front, v) {
        FieldsSettled(named, front, v, rest);
      }
      assert f.name in v.members ==> Settled(named, f.typ, v.members[f.name]);
    }
  }

  lemma RecordSettled(named: Names, t: AvroType, v: Value, out: Option<Value>)
    requires Resolve(named, t).Record?
    requires v.Obj? ==>
               forall i :: 0 <= i < |Resolve(named, t).fields| && Resolve(named, t).fields[i].name in v.members ==>
               Settled(named, Resolve(named, t).fields[i].typ, v.members[Resolve(named, t).fields[i].name])
    ensures MayFlattenAs(named, Resolve(named, t), v, out) <==> out == Flat(named, t, v)
  {
    if v.Obj? {
      var fields := Resolve(named, t).fields;
      FieldsSettled(named, fields, v, None);
      if out.Some? && out.value.Obj? {
        FieldsSettled(named, fields, v, Some(out.value.members));
      }
    }
  }

  lemma ArraySettled(named: Names, t: AvroType, v: Value, out: Option<Value>)
    requires Resolve(named, t).Array?
    requires v.Arr? ==> forall i :: 0 <= i < |v.items| ==> Settled(named, Resolve(named, t).items, v.items[i])
    ensures MayFlattenAs(named, Resolve(named, t), v, out) <==> out == Flat(named, t, v)
  {
    if v.Arr? && out.Some? && out.value.Arr? {
      var f := Flat(named, t, v);
      if f.Some? && MayFlattenAs(named, Resolve(named, t), v, out) {
        FlatArray(named, t, v);
        forall i | 0 <= i < |v.items| ensures out.value.items[i] == f.value.items[i] {
          assert Settled(named, Resolve(named, t).items, v.items[i]);
          assert MayFlatten(named, Resolve(named, t).items, v.items[i], Some(out.value.items[i]));
        }
        assert out.value.items == f.value.items;
      }
    }
  }

  lemma MapSettled(named: Names, t: AvroType, v: Value, out: Option<Value>)
    requires Resolve(named, t).Map?
    requires v.Obj? ==> forall k :: k in v.members ==> Settled(named, Resolve(named, t).values, v.members[k])
    ensures MayFlattenAs(named, Resolve(named, t), v, out) <==> out == Flat(named, t, v)
  {
    if v.Obj? && out.Some? && out.value.Obj? {
      var f := Flat(named, t, v);
      if f.Some? && MayFlattenAs(named, Resolve(named, t), v, out) {
        FlatMap(named, t, v);
        forall k | k in v.members ensures out.value.members[k] == f.value.members[k] {
          assert Settled(named, Resolve(named, t).values, v.members[k]);
          assert MayFlatten(named, Resolve(named, t).values, v.members[k], Some(out.value.members[k]));
        }
        assert out.value.members == f.value.members;
      }
    }
  }

  lemma UnionSettled(named: Names, t: AvroType, v: Value, out: Option<Value>)
    requires Resolve(named, t).Union? && Clear(named, Resolve(named, t))
    requires v.Obj? && |v.members| == 1 ==>
               forall i :: 0 <= i < |Resolve(named, t).branches| ==>
                 Settled(named, Resolve(named, t).branches[i], v.members[OnlyKey(v.members)])
    ensures MayFlattenAs(named, Resolve(named, t), v, out) <==> out == Flat(named, t, v)
  {
    var branches := Resolve(named, t).branches;
    if v.Obj? && |v.members| == 1 {
      var key := OnlyKey(v.members);
      forall b ensures MayFind(named, branches, key, b) <==> b == FindBranch(named, branches, key) {
        FindSettled(named, branches, key, b);
      }
      var b := FindBranch(named, branches, key);
      if b.Some? {
        var i := FoundAt(named, branches, key);
        assert Settled(named, branches[i], v.members[key]);
      }
    }
  }

  lemma {:induction false} FoundAt(named: Names, branches: seq<AvroType>, key: string) returns (i: nat)
    requires FindBranch(named, branches, key).Some?
    ensures i < |branches| && FindBranch(named, branches, key) == Some(branches[i])
  {
    if BranchName(Resolve(named, branches[0])) == key {
      i := 0;
    } else {
      i := FoundAt(named, branches[1..], key);
      i := i + 1;
    }
  }

  lemma OutcomeSettled(named: Names, t: AvroType, v: Value)
    requires Clear(named, t)
    requires forall out :: MayFlattenAs(named, Resolve(named, t), v, out) <==> out == Flat(named, t, v)
    ensures Settled(named, t, v)
  {
    ResolveSettled(named, t, Resolve(named, t));
    forall s | MayResolve(named, t, s) ensures s == Resolve(named, t) {
      ResolveSettled(named, t, s);
    }
  }

  /** With clear references flattening has exactly one result. */
  lemma {:induction false} FlatSettles(named: Names, t: AvroType, v: Value)
    requires AllClear(named, t)
    ensures Settled(named, t, v)
    decreases v, 1
  {
    ClearResolved(named, t);
    forall out ensures MayFlattenAs(named, Resolve(named, t), v, out) <==> out == Flat(named, t, v) {
      ResultSettled(named, t, v, out);
    }
    OutcomeSettled(named, t, v);
  }

  lemma {:induction false} ResultSettled(named: Names, t: AvroType, v: Value, out: Option<Value>)
    requires AllClear(named, Resolve(named, t))
    ensures MayFlattenAs(named, Resolve(named, t), v, out) <==> out == Flat(named, t, v)
    decreases v, 0
  {
    var r := Resolve(named, t);
    if r.Record? {
      forall i | v.Obj? && 0 <= i < |r.fields| && r.fields[i].name in v.members
        ensures Settled(named, r.fields[i].typ, v.members[r.fields[i].name])
      {
        FlatSettles(named, r.fields[i].typ, v.members[r.fields[i].name]);
      }
      RecordSettled(named, t, v, out);
    } else if r.Array? {
      forall i | v.Arr? && 0 <= i < |v.items| ensures Settled(named, r.items, v.items[i]) {
        FlatSettles(named, r.items, v.items[i]);
      }
      ArraySettled(named, t, v, out);
    } else if r.Map? {
      forall k | v.Obj? && k in v.members ensures Settled(named, r.values, v.members[k]) {
        FlatSettles(named, r.values, v.members[k]);
      }
      MapSettled(named, t, v, out);
    } else if r.Union? {
      forall i | v.Obj? && |v.members| == 1 && 0 <= i < |r.branches|
        ensures Settled(named, r.branches[i], v.members[OnlyKey(v.members)])
      {
        FlatSettles(named, r.branches[i], v.members[OnlyKey(v.members)]);
      }
      UnionSettled(named, t, v, out);
    }
  }

  // ---------------------------------------------------- there is always some result

  lemma {:induction false} FindPossible(named: Names, branches: seq<AvroType>, key: string)
    ensures MayFind(named, branches, key, FindBranch(named, branches, key))
  {
    if branches != [] {
      ResolveMay(named, branches[0]);
      FindPossible(named, branches[1..], key);
    }
  }

  lemma {:induction false} FieldsPossible(named: Names, fields: seq<Field>, v: Value)
    requires v.Obj?
    requires forall i :: 0 <= i < |fields| && fields[i].name in v.members ==>
               MayFlatten(named, fields[i].typ, v.members[fields[i].name],
                          Flat(named, fields[i].typ, v.members[fields[i].name]))
    ensures MayFlattenFields(named, fields, v, FlatFields(named, fields, v))
  {
    if fields != [] {
      var front, f := fields[..|fields| - 1], fields[|fields| - 1];
      FieldsPossible(named, front, v);
      var rest := FlatFields(named, front, v);
      if rest.Some? && f.name in v.members {
        var c := Flat(named, f.typ, v.members[f.name]);
        assert fields[|fields| - 1].name in v.members;
        FieldMay(named, fields, v, rest.value, c);
      } else {
        assert MayFlattenFields(named, front, v, rest);
      }
    }
  }

  /** One more field converted. */
  lemma FieldMay(named: Names, fields: seq<Field>, v: Value, rest: map<string, Value>, c: Option<Value>)
    requires v.Obj? && fields != [] && fields[|fields| - 1].name in v.members
    requires MayFlattenFields(named, fields[..|fields| - 1], v, Some(rest))
    requires MayFlatten(named, fields[|fields| - 1].typ, v.members[fields[|fields| - 1].name], c)
    ensures MayFlattenFields(named, fields, v,
                             if c.None? then None else Some(rest[fields[|fields| - 1].name := c.value]))
  {
  }

  lemma ArrayPossible(named: Names, t: AvroType, v: Value)
    requires Resolve(named, t).Array? && v.Arr?
    requires forall i :: 0 <= i < |v.items| ==>
               MayFlatten(named, Resolve(named, t).items, v.items[i], Flat(named, Resolve(named, t).items, v.items[i]))
    ensures MayFlattenAs(named, Resolve(named, t), v, Flat(named, t, v))
  {
    var items, out := Resolve(named, t).items, Flat(named, t, v);
    if out.Some? {
      FlatArray(named, t, v);
      assert forall i :: 0 <= i < |v.items| ==> MayFlatten(named, items, v.items[i], Some(out.value.items[i]));
    } else {
      var i :| 0 <= i < |v.items| && Flat(named, items, v.items[i]).None?;
      assert MayFlatten(named, items, v.items[i], None);
    }
  }

  lemma MapPossible(named: Names, t: AvroType, v: Value)
    requires Resolve(named, t).Map? && v.Obj?
    requires forall k :: k in v.members ==>
               MayFlatten(named, Resolve(named, t).values, v.members[k],
                          Flat(named, Resolve(named, t).values, v.members[k]))
    ensures MayFlattenAs(named, Resolve(named, t), v, Flat(named, t, v))
  {
  }

  /** What flattening yields when every reference keeps one meaning throughout is one
      of the results it may yield. */
  lemma {:induction false} FlatPossible(named: Names, t: AvroType, v: Value)
    ensures MayFlatten(named, t, v, Flat(named, t, v))
    decreases v
  {
    var r := Resolve(named, t);
    ResolveMay(named, t);
    if r.Record? && v.Obj? {
      forall i | 0 <= i < |r.fields| && r.fields[i].name in v.members
        ensures MayFlatten(named, r.fields[i].typ, v.members[r.fields[i].name],
                           Flat(named, r.fields[i].typ, v.members[r.fields[i].name]))
      {
        FlatPossible(named, r.fields[i].typ, v.members[r.fields[i].name]);
      }
      FieldsPossible(named, r.fields, v);
    } else if r.Array? && v.Arr? {
      forall i | 0 <= i < |v.items| ensures MayFlatten(named, r.items, v.items[i], Flat(named, r.items, v.items[i])) {
        FlatPossible(named, r.items, v.items[i]);
      }
      ArrayPossible(named, t, v);
    } else if r.Map? && v.Obj? {
      forall k | k in v.members
        ensures MayFlatten(named, r.values, v.members[k], Flat(named, r.values, v.members[k]))
      {
        FlatPossible(named, r.values, v.members[k]);
      }
      MapPossible(named, t, v);
    } else if r.Union? && v.Obj? && |v.members| == 1 {
      var key := OnlyKey(v.members);
      FindPossible(named, r.branches, key);
      var b := FindBranch(named, r.branches, key);
      if b.Some? {
        FlatPossible(named, b.value, v.members[key]);
      }
    }
    assert MayFlattenAs(named, r, v, Flat(named, t, v));
  }
}
