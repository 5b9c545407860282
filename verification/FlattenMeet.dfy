/**
 Which types can yield the same result: computed in rounds on the types alone, and
 proved to be exactly the types with values whose flattenings are equal.
 */
module FlattenMeet {
  import opened Common
  import opened Flatten
  import opened FlattenProofs
  import opened FlattenLeaves

  // ----------------------------------------------------------- objects of any kind

  predicate IsObj(t: AvroType) { t.Record? || t.Map? }

  predicate HasSlot(t: AvroType, name: string)
    requires IsObj(t)
  {
    t.Record? ==> HasField(t.fields, name)
  }

  predicate Must(t: AvroType, whole: bool, name: string)
    requires IsObj(t)
  {
    t.Record? && whole && HasField(t.fields, name)
  }

  function SlotType(t: AvroType, name: string): AvroType
    requires IsObj(t) && HasSlot(t, name)
  {
    if t.Record? then TypeOf(t.fields, name) else t.values
  }

  /** Union branches and record fields have different names. */
  ghost predicate Proper(named: Names, t: AvroType) {
    match t
    case Record(_, fields) =>
      DistinctFields(fields) && forall i :: 0 <= i < |fields| ==> Proper(named, fields[i].typ)
    case Array(items) => Proper(named, items)
    case Map(values) => Proper(named, values)
    case Union(branches) =>
      DistinctBranches(named, branches) && forall i :: 0 <= i < |branches| ==> Proper(named, branches[i])
    case _ => true
  }

  ghost predicate AllProper(named: Names, t: AvroType) {
    Proper(named, t) && forall n :: n in named ==> Proper(named, named[n])
  }

  lemma ProperResolved(named: Names, t: AvroType)
    requires AllProper(named, t)
    ensures AllProper(named, Resolve(named, t))
  {
  }

  lemma {:induction false} FieldTypeIs(fields: seq<Field>, i: nat)
    requires DistinctFields(fields) && i < |fields|
    ensures HasField(fields, fields[i].name) && TypeOf(fields, fields[i].name) == fields[i].typ
  {
    if i < |fields| - 1 {
      var front := fields[..|fields| - 1];
      assert front[i] == fields[i];
      FieldTypeIs(front, i);
    }
  }

  lemma SlotProper(named: Names, t: AvroType, name: string)
    requires AllProper(named, t) && IsObj(t) && HasSlot(t, name)
    ensures AllProper(named, SlotType(t, name))
  {
    if t.Record? {
      var i := LastField(t.fields, name);
      assert Proper(named, t.fields[i].typ);
    }
  }

  ghost predicate FitsSlots(named: Names, whole: bool, r: AvroType, v: Value)
    requires IsObj(r)
  {
    && v.Obj?
    && (forall n :: Must(r, whole, n) ==> n in v.members)
    && (forall n :: n in v.members ==> HasSlot(r, n) && Fits(named, whole, SlotType(r, n), v.members[n]))
  }

  lemma FieldTypes(fields: seq<Field>)
    requires DistinctFields(fields)
    ensures forall i :: 0 <= i < |fields| ==>
              HasField(fields, fields[i].name) && TypeOf(fields, fields[i].name) == fields[i].typ
  {
    forall i | 0 <= i < |fields|
      ensures HasField(fields, fields[i].name) && TypeOf(fields, fields[i].name) == fields[i].typ
    {
      FieldTypeIs(fields, i);
    }
  }

  lemma RecordFits(named: Names, whole: bool, t: AvroType, v: Value)
    requires Resolve(named, t).Record? && Fits(named, whole, t, v)
    ensures FitsSlots(named, whole, Resolve(named, t), v)
  {
    var r := Resolve(named, t);
    forall n | n in v.members ensures HasSlot(r, n) && Fits(named, whole, SlotType(r, n), v.members[n]) {
      var i := LastField(r.fields, n);
    }
  }

  /** A value fits a record or a map when each of its members does. */
  lemma ObjFits(named: Names, whole: bool, t: AvroType, v: Value)
    requires AllProper(named, t) && IsObj(Resolve(named, t))
    ensures Fits(named, whole, t, v) <==> FitsSlots(named, whole, Resolve(named, t), v)
  {
    var r := Resolve(named, t);
    if r.Record? {
      if Fits(named, whole, t, v) {
        RecordFits(named, whole, t, v);
      }
      FieldTypes(r.fields);
    }
  }

  lemma ObjFlat(named: Names, t: AvroType, v: Value)
    requires AllProper(named, t) && IsObj(Resolve(named, t)) && v.Obj?
    requires forall n :: n in v.members ==>
               HasSlot(Resolve(named, t), n) && Flat(named, SlotType(Resolve(named, t), n), v.members[n]).Some?
    ensures Flat(named, t, v).Some? && Flat(named, t, v).value.Obj?
    ensures var w := Flat(named, t, v).value;
            && w.members.Keys == v.members.Keys
            && forall n :: n in v.members ==>
                 Flat(named, SlotType(Resolve(named, t), n), v.members[n]) == Some(w.members[n])
  {
    var r := Resolve(named, t);
    if r.Record? {
      forall i | 0 <= i < |r.fields| && r.fields[i].name in v.members
        ensures Flat(named, r.fields[i].typ, v.members[r.fields[i].name]).Some?
      {
        FieldTypeIs(r.fields, i);
      }
      FieldsConvert(named, r.fields, v);
      KeepsPresentFields(named, r.fields, v);
      assert Flat(named, t, v) == Some(Obj(FlatFields(named, r.fields, v).value));
    } else {
      assert Flat(named, t, v).Some?;
      FlatMap(named, t, v);
    }
  }

  // -------------------------------------------------------------------- the rounds

  predicate PlainMeet(a: AvroType, b: AvroType) {
    || (IsNull(a) && IsNull(b))
    || (a.Array? && b.Array?)
    || (IsLeaf(a) && IsLeaf(b) && Alike(ClassOf(a), ClassOf(b)))
  }

  /** Types that can yield the same result, as found in n rounds. */
  ghost predicate Meet(named: Names, whole: bool, n: nat, s: AvroType, t: AvroType)
    decreases n
  {
    n > 0 &&
    var a, b := Resolve(named, s), Resolve(named, t);
    if a.Union? then exists i :: 0 <= i < |a.branches| && Meet(named, whole, n - 1, a.branches[i], t)
    else if b.Union? then exists i :: 0 <= i < |b.branches| && Meet(named, whole, n - 1, s, b.branches[i])
    else if IsObj(a) && IsObj(b) then
      forall name :: Must(a, whole, name) || Must(b, whole, name) ==>
        HasSlot(a, name) && HasSlot(b, name)
        && Meet(named, whole, n - 1, SlotType(a, name), SlotType(b, name))
    else PlainMeet(a, b)
  }

  lemma {:induction false} MeetMore(named: Names, whole: bool, n: nat, m: nat, s: AvroType, t: AvroType)
    requires n <= m && Meet(named, whole, n, s, t)
    ensures Meet(named, whole, m, s, t)
    decreases n
  {
    var a, b := Resolve(named, s), Resolve(named, t);
    if a.Union? {
      var i :| 0 <= i < |a.branches| && Meet(named, whole, n - 1, a.branches[i], t);
      MeetMore(named, whole, n - 1, m - 1, a.branches[i], t);
    } else if b.Union? {
      var i :| 0 <= i < |b.branches| && Meet(named, whole, n - 1, s, b.branches[i]);
      MeetMore(named, whole, n - 1, m - 1, s, b.branches[i]);
    } else if IsObj(a) && IsObj(b) {
      forall name | Must(a, whole, name) || Must(b, whole, name)
        ensures HasSlot(a, name) && HasSlot(b, name)
                && Meet(named, whole, m - 1, SlotType(a, name), SlotType(b, name))
      {
        MeetMore(named, whole, n - 1, m - 1, SlotType(a, name), SlotType(b, name));
      }
    }
  }

  // ------------------------------------------------------------- what rounds find

  /** Two values, one of each type, with the same result. */
  ghost predicate Share(named: Names, whole: bool, s: AvroType, t: AvroType, x: Value, y: Value) {
    && Fits(named, whole, s, x) && Fits(named, whole, t, y)
    && Flat(named, s, x).Some? && Flat(named, s, x) == Flat(named, t, y)
  }

  ghost predicate Touch(named: Names, whole: bool, s: AvroType, t: AvroType) {
    exists x, y :: Share(named, whole, s, t, x, y)
  }

  /** A branch's value as the union has it: null bare, anything else under its name. */
  ghost function Wrapped(named: Names, b: AvroType, x: Value): Value {
    if IsNull(Resolve(named, b)) then Nil else Obj(map[BranchName(Resolve(named, b)) := x])
  }

  lemma WrappedFits(named: Names, whole: bool, t: AvroType, i: nat, x: Value)
    requires Resolve(named, t).Union? && i < |Resolve(named, t).branches|
    requires DistinctBranches(named, Resolve(named, t).branches)
    requires Fits(named, whole, Resolve(named, t).branches[i], x)
    ensures var b := Resolve(named, t).branches[i];
            && Fits(named, whole, t, Wrapped(named, b, x))
            && Flat(named, t, Wrapped(named, b, x)) == Flat(named, b, x)
  {
    var branches := Resolve(named, t).branches;
    var b := branches[i];
    if !IsNull(Resolve(named, b)) {
      var members := map[BranchName(Resolve(named, b)) := x];
      SingleKey(members);
      assert OnlyKey(members) == BranchName(Resolve(named, b));
      assert ChosenBranch(named, b, OnlyKey(members));
      FindsTheBranch(named, branches, i);
    }
  }

  /** Every value of a union is a branch's value. */
  lemma Unwrap(named: Names, whole: bool, t: AvroType, v: Value) returns (i: nat, x: Value)
    requires Resolve(named, t).Union? && Fits(named, whole, t, v)
    requires DistinctBranches(named, Resolve(named, t).branches)
    ensures i < |Resolve(named, t).branches|
    ensures var b := Resolve(named, t).branches[i];
            && Fits(named, whole, b, x) && v == Wrapped(named, b, x) && Flat(named, t, v) == Flat(named, b, x)
            && (x == v || x < v) && (x == v ==> IsNull(Resolve(named, b)))
  {
    var branches := Resolve(named, t).branches;
    if v.Nil? {
      i :| 0 <= i < |branches| && IsNull(Resolve(named, branches[i]));
      x := Nil;
    } else {
      i := BranchOf(named, whole, t, v);
      var key := OnlyKey(v.members);
      x := v.members[key];
      assert v.members == map[key := x];
    }
    WrappedFits(named, whole, t, i, x);
  }

  /** Only null, or a union with it, yields null. */
  lemma NilIsNull(named: Names, whole: bool, t: AvroType, v: Value)
    requires !Resolve(named, t).Union? && Fits(named, whole, t, v) && Flat(named, t, v) == Some(Nil)
    ensures IsNull(Resolve(named, t))
  {
  }

  lemma NullsMeet(named: Names, whole: bool, s: AvroType, t: AvroType)
    requires IsNull(Resolve(named, s)) && IsNull(Resolve(named, t))
    ensures Meet(named, whole, 1, s, t)
  {
  }

  lemma BranchesProper(named: Names, t: AvroType)
    requires AllProper(named, t) && Resolve(named, t).Union?
    ensures DistinctBranches(named, Resolve(named, t).branches)
    ensures forall b :: b in Resolve(named, t).branches ==> AllProper(named, b)
  {
    ProperResolved(named, t);
  }

  lemma {:induction false} NullMeets(named: Names, whole: bool, s: AvroType, t: AvroType, y: Value) returns (n: nat)
    requires IsNull(Resolve(named, s)) && AllProper(named, t)
    requires Fits(named, whole, t, y) && Flat(named, t, y) == Some(Nil)
    ensures Meet(named, whole, n, s, t)
    decreases y
  {
    ProperResolved(named, t);
    var r := Resolve(named, t);
    if r.Union? {
      var i, x := Unwrap(named, whole, t, y);
      if x == y {
        NullsMeet(named, whole, s, r.branches[i]);
        n := 2;
      } else {
        n := NullMeets(named, whole, s, r.branches[i], x);
        n := n + 1;
      }
    } else {
      NilIsNull(named, whole, t, y);
      n := 1;
    }
  }

  lemma PlainMeets(named: Names, whole: bool, s: AvroType, t: AvroType, x: Value, y: Value)
    requires !Resolve(named, s).Union? && !Resolve(named, t).Union?
    requires !IsObj(Resolve(named, s)) || !IsObj(Resolve(named, t))
    requires Share(named, whole, s, t, x, y)
    ensures Meet(named, whole, 1, s, t)
  {
    var a, b := Resolve(named, s), Resolve(named, t);
    if IsLeaf(a) && IsLeaf(b) {
      ConvertsInto(a, x.scalar);
      ConvertsInto(b, y.scalar);
      ClassesApart(ClassOf(a), ClassOf(b), ConvertScalar(a, x.scalar));
    }
  }

  lemma {:induction false} SlotsMeet(named: Names, whole: bool, s: AvroType, t: AvroType, x: Value, y: Value,
                                     names: set<string>) returns (n: nat)
    requires AllProper(named, s) && AllProper(named, t)
    requires IsObj(Resolve(named, s)) && IsObj(Resolve(named, t)) && Share(named, whole, s, t, x, y)
    requires x.Obj? && names <= x.members.Keys
    ensures forall name :: name in names ==>
              && HasSlot(Resolve(named, s), name) && HasSlot(Resolve(named, t), name)
              && Meet(named, whole, n, SlotType(Resolve(named, s), name), SlotType(Resolve(named, t), name))
    decreases x, y, 0, |names|
  {
    n := 0;
    if names != {} {
      var a, b := Resolve(named, s), Resolve(named, t);
      var name :| name in names;
      var rest := SlotsMeet(named, whole, s, t, x, y, names - {name});
      SharedSlot(named, whole, s, t, x, y, name);
      var one := MeetFound(named, whole, SlotType(a, name), SlotType(b, name), x.members[name], y.members[name]);
      n := Max(rest, one);
      forall m | m in names
        ensures HasSlot(a, m) && HasSlot(b, m) && Meet(named, whole, n, SlotType(a, m), SlotType(b, m))
      {
        MeetMore(named, whole, if m == name then one else rest, n, SlotType(a, m), SlotType(b, m));
      }
    }
  }

  /** Objects with the same result have members with the same results. */
  lemma SharedSlot(named: Names, whole: bool, s: AvroType, t: AvroType, x: Value, y: Value, name: string)
    requires AllProper(named, s) && AllProper(named, t)
    requires IsObj(Resolve(named, s)) && IsObj(Resolve(named, t)) && Share(named, whole, s, t, x, y)
    ensures x.Obj? && y.Obj? && x.members.Keys == y.members.Keys
    ensures name in x.members ==>
              && HasSlot(Resolve(named, s), name) && HasSlot(Resolve(named, t), name)
              && AllProper(named, SlotType(Resolve(named, s), name))
              && AllProper(named, SlotType(Resolve(named, t), name))
              && Share(named, whole, SlotType(Resolve(named, s), name), SlotType(Resolve(named, t), name),
                       x.members[name], y.members[name])
  {
    ObjValue(named, whole, s, x);
    ObjValue(named, whole, t, y);
    ProperResolved(named, s);
    ProperResolved(named, t);
    if name in x.members {
      SlotProper(named, Resolve(named, s), name);
      SlotProper(named, Resolve(named, t), name);
    }
  }

  /** What a fitting object and its result look like. */
  lemma ObjValue(named: Names, whole: bool, t: AvroType, v: Value)
    requires AllProper(named, t) && IsObj(Resolve(named, t)) && Fits(named, whole, t, v)
    ensures FitsSlots(named, whole, Resolve(named, t), v)
    ensures Flat(named, t, v).Some? && Flat(named, t, v).value.Obj?
    ensures Flat(named, t, v).value.members.Keys == v.members.Keys
    ensures forall n :: n in v.members ==>
              Flat(named, SlotType(Resolve(named, t), n), v.members[n]) == Some(Flat(named, t, v).value.members[n])
  {
    ObjFits(named, whole, t, v);
    ProperResolved(named, t);
    var r := Resolve(named, t);
    forall n | n in v.members ensures Flat(named, SlotType(r, n), v.members[n]).Some? {
      SlotProper(named, r, n);
      ProperSucceeds(named, whole, SlotType(r, n), v.members[n]);
    }
    ObjFlat(named, t, v);
  }

  lemma {:induction false} ProperLawful(named: Names, t: AvroType)
    requires Proper(named, t)
    ensures Lawful(named, t)
  {
    match t
    case Record(_, fields) =>
      forall i | 0 <= i < |fields| ensures Lawful(named, fields[i].typ) { ProperLawful(named, fields[i].typ); }
    case Array(items) => ProperLawful(named, items);
    case Map(values) => ProperLawful(named, values);
    case Union(branches) =>
      forall i | 0 <= i < |branches| ensures Lawful(named, branches[i]) { ProperLawful(named, branches[i]); }
    case _ =>
  }

  lemma ProperSucceeds(named: Names, whole: bool, t: AvroType, v: Value)
    requires AllProper(named, t) && Fits(named, whole, t, v)
    ensures Flat(named, t, v).Some?
  {
    ProperLawful(named, t);
    forall n | n in named ensures Lawful(named, named[n]) { ProperLawful(named, named[n]); }
    FlatSucceeds(named, whole, t, v);
  }

  lemma {:induction false} LeftUnionMeets(named: Names, whole: bool, s: AvroType, t: AvroType, x: Value, y: Value)
      returns (n: nat)
    requires AllProper(named, s) && AllProper(named, t) && Share(named, whole, s, t, x, y)
    requires Resolve(named, s).Union?
    ensures Meet(named, whole, n, s, t)
    decreases x, y, 1, 0
  {
    ProperResolved(named, s);
    var branches := Resolve(named, s).branches;
    var i, x' := Unwrap(named, whole, s, x);
    if x' == x {
      n := NullMeets(named, whole, branches[i], t, y);
    } else {
      n := MeetFound(named, whole, branches[i], t, x', y);
    }
    n := n + 1;
  }

  lemma RightBranchMeets(named: Names, whole: bool, n: nat, s: AvroType, t: AvroType, i: nat)
    requires !Resolve(named, s).Union? && Resolve(named, t).Union? && i < |Resolve(named, t).branches|
    requires Meet(named, whole, n, s, Resolve(named, t).branches[i])
    ensures Meet(named, whole, n + 1, s, t)
  {
  }

  lemma {:induction false} RightUnionMeets(named: Names, whole: bool, s: AvroType, t: AvroType, x: Value, y: Value)
      returns (n: nat)
    requires AllProper(named, s) && AllProper(named, t) && Share(named, whole, s, t, x, y)
    requires !Resolve(named, s).Union? && Resolve(named, t).Union?
    ensures Meet(named, whole, n, s, t)
    decreases x, y, 1, 0
  {
    BranchesProper(named, t);
    var branches := Resolve(named, t).branches;
    var i, y' := Unwrap(named, whole, t, y);
    if y' == y {
      NilIsNull(named, whole, s, x);
      NullsMeet(named, whole, s, branches[i]);
      n := 1;
    } else {
      n := MeetFound(named, whole, s, branches[i], x, y');
    }
    RightBranchMeets(named, whole, n, s, t, i);
    n := n + 1;
  }

  lemma {:induction false} ObjectsMeet(named: Names, whole: bool, s: AvroType, t: AvroType, x: Value, y: Value)
      returns (n: nat)
    requires AllProper(named, s) && AllProper(named, t) && Share(named, whole, s, t, x, y)
    requires IsObj(Resolve(named, s)) && IsObj(Resolve(named, t))
    ensures Meet(named, whole, n, s, t)
    decreases x, y, 1, 0
  {
    SharedSlot(named, whole, s, t, x, y, "");
    ObjFits(named, whole, s, x);
    ObjFits(named, whole, t, y);
    n := SlotsMeet(named, whole, s, t, x, y, x.members.Keys);
    n := n + 1;
  }

  /** Every shared result is found in some round. */
  lemma {:induction false} MeetFound(named: Names, whole: bool, s: AvroType, t: AvroType, x: Value, y: Value)
      returns (n: nat)
    requires AllProper(named, s) && AllProper(named, t) && Share(named, whole, s, t, x, y)
    ensures Meet(named, whole, n, s, t)
    decreases x, y, 2, 0
  {
    var a, b := Resolve(named, s), Resolve(named, t);
    if a.Union? {
      n := LeftUnionMeets(named, whole, s, t, x, y);
    } else if b.Union? {
      n := RightUnionMeets(named, whole, s, t, x, y);
    } else if IsObj(a) && IsObj(b) {
      n := ObjectsMeet(named, whole, s, t, x, y);
    } else {
      PlainMeets(named, whole, s, t, x, y);
      n := 1;
    }
  }

  // ------------------------------------------------------- what rounds find is there

  ghost function Slots(t: AvroType, whole: bool): set<string>
    requires IsObj(t)
  {
    if t.Record? && whole then set i | 0 <= i < |t.fields| :: t.fields[i].name else {}
  }

  lemma ObjBuilt(named: Names, whole: bool, t: AvroType, m: map<string, Value>)
    requires AllProper(named, t) && IsObj(Resolve(named, t))
    requires forall n :: Must(Resolve(named, t), whole, n) ==> n in m
    requires forall n :: n in m ==>
               HasSlot(Resolve(named, t), n) && Fits(named, whole, SlotType(Resolve(named, t), n), m[n])
    ensures Fits(named, whole, t, Obj(m))
    ensures Flat(named, t, Obj(m)).Some? && Flat(named, t, Obj(m)).value.Obj?
    ensures Flat(named, t, Obj(m)).value.members.Keys == m.Keys
    ensures forall n :: n in m ==>
              Flat(named, SlotType(Resolve(named, t), n), m[n]) == Some(Flat(named, t, Obj(m)).value.members[n])
  {
    ObjFits(named, whole, t, Obj(m));
    ObjValue(named, whole, t, Obj(m));
  }

  /** Members that can be told apart by neither result, under the names they have. */
  ghost predicate SlotsShare(named: Names, whole: bool, a: AvroType, b: AvroType,
                             x: map<string, Value>, y: map<string, Value>)
    requires IsObj(a) && IsObj(b)
  {
    && x.Keys == y.Keys
    && (forall n :: Must(a, whole, n) || Must(b, whole, n) ==> n in x)
    && (forall n :: n in x ==> HasSlot(a, n) && HasSlot(b, n)
                               && Share(named, whole, SlotType(a, n), SlotType(b, n), x[n], y[n]))
  }

  lemma SlotsShareFit(named: Names, whole: bool, a: AvroType, b: AvroType, x: map<string, Value>, y: map<string, Value>)
    requires IsObj(a) && IsObj(b) && SlotsShare(named, whole, a, b, x, y)
    ensures forall n :: n in x ==> HasSlot(a, n) && Fits(named, whole, SlotType(a, n), x[n])
    ensures forall n :: n in y ==> HasSlot(b, n) && Fits(named, whole, SlotType(b, n), y[n])
  {
  }

  lemma SlotShared(named: Names, whole: bool, a: AvroType, b: AvroType,
                   x: map<string, Value>, y: map<string, Value>, n: string)
    requires IsObj(a) && IsObj(b) && SlotsShare(named, whole, a, b, x, y) && n in x
    ensures n in y && HasSlot(a, n) && HasSlot(b, n)
    ensures Share(named, whole, SlotType(a, n), SlotType(b, n), x[n], y[n])
  {
  }

  lemma SlotsShareFlat(named: Names, whole: bool, a: AvroType, b: AvroType,
                       x: map<string, Value>, y: map<string, Value>,
                       v: map<string, Value>, w: map<string, Value>)
    requires IsObj(a) && IsObj(b) && SlotsShare(named, whole, a, b, x, y) && v.Keys == x.Keys == w.Keys
    requires forall n :: n in x ==> HasSlot(a, n) && Flat(named, SlotType(a, n), x[n]) == Some(v[n])
    requires forall n :: n in y ==> HasSlot(b, n) && Flat(named, SlotType(b, n), y[n]) == Some(w[n])
    ensures v == w
  {
    forall n | n in x ensures v[n] == w[n] {
      SlotShared(named, whole, a, b, x, y, n);
      SharedFlat(named, whole, SlotType(a, n), SlotType(b, n), x[n], y[n], v[n], w[n]);
    }
  }

  lemma SharedFlat(named: Names, whole: bool, s: AvroType, t: AvroType, x: Value, y: Value, v: Value, w: Value)
    requires Share(named, whole, s, t, x, y) && Flat(named, s, x) == Some(v) && Flat(named, t, y) == Some(w)
    ensures v == w
  {
  }

  /** Objects with such members share a result. */
  lemma ObjShared(named: Names, whole: bool, s: AvroType, t: AvroType, x: map<string, Value>, y: map<string, Value>)
    requires AllProper(named, s) && AllProper(named, t) && IsObj(Resolve(named, s)) && IsObj(Resolve(named, t))
    requires SlotsShare(named, whole, Resolve(named, s), Resolve(named, t), x, y)
    ensures Share(named, whole, s, t, Obj(x), Obj(y))
  {
    var a, b := Resolve(named, s), Resolve(named, t);
    SlotsShareFit(named, whole, a, b, x, y);
    ObjBuilt(named, whole, s, x);
    ObjBuilt(named, whole, t, y);
    SlotsShareFlat(named, whole, a, b, x, y,
                   Flat(named, s, Obj(x)).value.members, Flat(named, t, Obj(y)).value.members);
  }

  ghost function PickLeft(named: Names, whole: bool, s: AvroType, t: AvroType): Value
    requires Touch(named, whole, s, t)
  {
    var x, y :| Share(named, whole, s, t, x, y);
    x
  }

  ghost function PickRight(named: Names, whole: bool, s: AvroType, t: AvroType): (y: Value)
    requires Touch(named, whole, s, t)
    ensures Share(named, whole, s, t, PickLeft(named, whole, s, t), y)
  {
    var x := PickLeft(named, whole, s, t);
    assert exists y :: Share(named, whole, s, t, x, y);
    var y :| Share(named, whole, s, t, x, y);
    y
  }

  lemma LeftBranch(named: Names, whole: bool, n: nat, s: AvroType, t: AvroType) returns (i: nat)
    requires Meet(named, whole, n, s, t) && Resolve(named, s).Union?
    ensures n > 0 && i < |Resolve(named, s).branches|
    ensures Meet(named, whole, n - 1, Resolve(named, s).branches[i], t)
  {
    i :| 0 <= i < |Resolve(named, s).branches| && Meet(named, whole, n - 1, Resolve(named, s).branches[i], t);
  }

  lemma RightBranch(named: Names, whole: bool, n: nat, s: AvroType, t: AvroType) returns (i: nat)
    requires Meet(named, whole, n, s, t) && !Resolve(named, s).Union? && Resolve(named, t).Union?
    ensures n > 0 && i < |Resolve(named, t).branches|
    ensures Meet(named, whole, n - 1, s, Resolve(named, t).branches[i])
  {
    i :| 0 <= i < |Resolve(named, t).branches| && Meet(named, whole, n - 1, s, Resolve(named, t).branches[i]);
  }

  lemma LeftTouches(named: Names, whole: bool, s: AvroType, i: nat, t: AvroType)
    requires AllProper(named, Resolve(named, s)) && Resolve(named, s).Union? && i < |Resolve(named, s).branches|
    requires Touch(named, whole, Resolve(named, s).branches[i], t)
    ensures Touch(named, whole, s, t)
  {
    var b := Resolve(named, s).branches[i];
    var x, y :| Share(named, whole, b, t, x, y);
    WrappedFits(named, whole, s, i, x);
    assert Share(named, whole, s, t, Wrapped(named, b, x), y);
  }

  lemma TouchBack(named: Names, whole: bool, s: AvroType, t: AvroType)
    requires Touch(named, whole, s, t)
    ensures Touch(named, whole, t, s)
  {
    var x, y :| Share(named, whole, s, t, x, y);
    assert Share(named, whole, t, s, y, x);
  }

  /** What a round finds to meet does share a result. */
  lemma {:induction false} MeetTouches(named: Names, whole: bool, n: nat, s: AvroType, t: AvroType)
    requires AllProper(named, s) && AllProper(named, t) && Meet(named, whole, n, s, t)
    ensures Touch(named, whole, s, t)
    decreases n, 1
  {
    ProperResolved(named, s);
    ProperResolved(named, t);
    var a, b := Resolve(named, s), Resolve(named, t);
    if a.Union? {
      var i := LeftBranch(named, whole, n, s, t);
      MeetTouches(named, whole, n - 1, a.branches[i], t);
      LeftTouches(named, whole, s, i, t);
    } else if b.Union? {
      var i := RightBranch(named, whole, n, s, t);
      MeetTouches(named, whole, n - 1, s, b.branches[i]);
      TouchBack(named, whole, s, b.branches[i]);
      LeftTouches(named, whole, t, i, s);
      TouchBack(named, whole, t, s);
    } else if IsObj(a) && IsObj(b) {
      ObjectsTouch(named, whole, n, s, t);
    } else {
      PlainTouches(named, whole, s, t);
    }
  }

  lemma EmptyArray(named: Names, whole: bool, t: AvroType)
    requires Resolve(named, t).Array?
    ensures Fits(named, whole, t, Arr([])) && Flat(named, t, Arr([])) == Some(Arr([]))
  {
    assert Flat(named, t, Arr([])).Some?;
    FlatArray(named, t, Arr([]));
  }

  lemma PlainTouches(named: Names, whole: bool, s: AvroType, t: AvroType)
    requires PlainMeet(Resolve(named, s), Resolve(named, t))
    ensures Touch(named, whole, s, t)
  {
    var a, b := Resolve(named, s), Resolve(named, t);
    if IsNull(a) {
      assert Share(named, whole, s, t, Nil, Nil);
    } else if a.Array? {
      EmptyArray(named, whole, s);
      EmptyArray(named, whole, t);
      assert Share(named, whole, s, t, Arr([]), Arr([]));
    } else {
      LeavesTouch(named, whole, s, t);
    }
  }

  lemma LeavesTouch(named: Names, whole: bool, s: AvroType, t: AvroType)
    requires IsLeaf(Resolve(named, s)) && IsLeaf(Resolve(named, t))
    requires Alike(ClassOf(Resolve(named, s)), ClassOf(Resolve(named, t)))
    ensures Touch(named, whole, s, t)
  {
    var x, y := LeavesMeet(Resolve(named, s), Resolve(named, t));
    assert Share(named, whole, s, t, Leaf(x), Leaf(y));
  }

  /** Members with shared results, under all the names that are needed. */
  lemma Picks(named: Names, whole: bool, a: AvroType, b: AvroType, names: set<string>)
      returns (x: map<string, Value>, y: map<string, Value>)
    requires IsObj(a) && IsObj(b) && Slots(a, whole) + Slots(b, whole) <= names
    requires forall n :: n in names ==>
               HasSlot(a, n) && HasSlot(b, n) && Touch(named, whole, SlotType(a, n), SlotType(b, n))
    ensures x.Keys == names && SlotsShare(named, whole, a, b, x, y)
  {
    x := map n | n in names :: PickLeft(named, whole, SlotType(a, n), SlotType(b, n));
    y := map n | n in names :: PickRight(named, whole, SlotType(a, n), SlotType(b, n));
    forall n | Must(a, whole, n) || Must(b, whole, n) ensures n in x {
      NeedsSlot(a, whole, n);
      NeedsSlot(b, whole, n);
    }
  }

  lemma NeedsSlot(t: AvroType, whole: bool, n: string)
    requires IsObj(t)
    ensures Must(t, whole, n) <==> n in Slots(t, whole)
  {
  }

  lemma {:induction false} ObjectsTouch(named: Names, whole: bool, n: nat, s: AvroType, t: AvroType)
    requires AllProper(named, s) && AllProper(named, t) && Meet(named, whole, n, s, t)
    requires IsObj(Resolve(named, s)) && IsObj(Resolve(named, t))
    ensures Touch(named, whole, s, t)
    decreases n, 0
  {
    var a, b := Resolve(named, s), Resolve(named, t);
    ProperResolved(named, s);
    ProperResolved(named, t);
    var names := Slots(a, whole) + Slots(b, whole);
    forall name | name in names
      ensures HasSlot(a, name) && HasSlot(b, name) && Touch(named, whole, SlotType(a, name), SlotType(b, name))
    {
      NeedsSlot(a, whole, name);
      NeedsSlot(b, whole, name);
      SlotProper(named, a, name);
      SlotProper(named, b, name);
      MeetTouches(named, whole, n - 1, SlotType(a, name), SlotType(b, name));
    }
    var x, y := Picks(named, whole, a, b, names);
    ObjShared(named, whole, s, t, x, y);
  }
}
