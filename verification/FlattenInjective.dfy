/**
 Exactly which schemas flatten without confusing two values. A type collides if it
 has two values with the same result; like the types that meet, the types that
 collide are found in rounds on the schema alone, and a bounded number of rounds
 finds all there are.
 */
module FlattenInjective {
  import opened Common
  import opened Flatten
  import opened FlattenProofs
  import opened FlattenLeaves
  import opened FlattenMeet

  /** Types with two values that yield the same result, as found in n rounds. */
  ghost predicate Collide(named: Names, whole: bool, n: nat, t: AvroType)
    decreases n
  {
    n > 0 &&
    var r := Resolve(named, t);
    match r
    case Union(branches) =>
      || (exists i :: 0 <= i < |branches| && Collide(named, whole, n - 1, branches[i]))
      || (exists i, j :: 0 <= i < |branches| && 0 <= j < |branches| && Rivals(named, branches, i, j)
                         && Meet(named, whole, n - 1, branches[i], branches[j]))
    case Record(_, fields) =>
      && (exists name :: HasField(fields, name) && Collide(named, whole, n - 1, TypeOf(fields, name)))
      && (whole ==> forall name :: HasField(fields, name) ==>
            Meet(named, whole, n - 1, TypeOf(fields, name), TypeOf(fields, name)))
    case Array(items) => Collide(named, whole, n - 1, items)
    case Map(values) => Collide(named, whole, n - 1, values)
    case _ => IsLeaf(r) && Loses(r)
  }

  /** Two different branches with different values. */
  ghost predicate Rivals(named: Names, branches: seq<AvroType>, i: nat, j: nat)
    requires i < |branches| && j < |branches|
  {
    i != j && !(IsNull(Resolve(named, branches[i])) && IsNull(Resolve(named, branches[j])))
  }

  ghost predicate Confused(named: Names, whole: bool, t: AvroType, v: Value, u: Value) {
    v != u && Share(named, whole, t, t, v, u)
  }

  ghost predicate Confusable(named: Names, whole: bool, t: AvroType) {
    exists v, u :: Confused(named, whole, t, v, u)
  }

  /** Flattening keeps all values of the type apart. */
  ghost predicate Injective(named: Names, whole: bool, t: AvroType) {
    forall v, u :: Fits(named, whole, t, v) && Fits(named, whole, t, u) && Flat(named, t, v) == Flat(named, t, u) ==>
      v == u
  }

  lemma InjectiveMeans(named: Names, whole: bool, t: AvroType)
    requires AllProper(named, t)
    ensures Injective(named, whole, t) <==> !Confusable(named, whole, t)
  {
    if !Injective(named, whole, t) {
      var v, u :| Fits(named, whole, t, v) && Fits(named, whole, t, u)
                  && Flat(named, t, v) == Flat(named, t, u) && v != u;
      ProperSucceeds(named, whole, t, v);
      assert Confused(named, whole, t, v, u);
    }
  }

  /** How a union collides: within a branch (i == j) or between two. */
  lemma UnionCollides(named: Names, whole: bool, n: nat, t: AvroType) returns (i: nat, j: nat)
    requires Collide(named, whole, n, t) && Resolve(named, t).Union?
    ensures var branches := Resolve(named, t).branches;
            && n > 0 && i < |branches| && j < |branches|
            && if i == j then Collide(named, whole, n - 1, branches[i])
               else Rivals(named, branches, i, j) && Meet(named, whole, n - 1, branches[i], branches[j])
  {
    var branches := Resolve(named, t).branches;
    if k :| 0 <= k < |branches| && Collide(named, whole, n - 1, branches[k]) {
      i, j := k, k;
    } else {
      i, j :| 0 <= i < |branches| && 0 <= j < |branches| && Rivals(named, branches, i, j)
              && Meet(named, whole, n - 1, branches[i], branches[j]);
    }
  }

  lemma RecordCollides(named: Names, whole: bool, n: nat, t: AvroType) returns (name: string)
    requires Collide(named, whole, n, t) && Resolve(named, t).Record?
    ensures n > 0 && HasField(Resolve(named, t).fields, name)
    ensures Collide(named, whole, n - 1, TypeOf(Resolve(named, t).fields, name))
    ensures whole ==> forall f :: HasField(Resolve(named, t).fields, f) ==>
              Meet(named, whole, n - 1, TypeOf(Resolve(named, t).fields, f), TypeOf(Resolve(named, t).fields, f))
  {
    var fields := Resolve(named, t).fields;
    name :| HasField(fields, name) && Collide(named, whole, n - 1, TypeOf(fields, name));
  }

  lemma {:induction false} CollideMore(named: Names, whole: bool, n: nat, m: nat, t: AvroType)
    requires n <= m && Collide(named, whole, n, t)
    ensures Collide(named, whole, m, t)
    decreases n, 1
  {
    var r := Resolve(named, t);
    if r.Union? {
      UnionCollideMore(named, whole, n, m, t);
    } else if r.Record? {
      RecordCollideMore(named, whole, n, m, t);
    } else if r.Array? {
      CollideMore(named, whole, n - 1, m - 1, r.items);
    } else if r.Map? {
      CollideMore(named, whole, n - 1, m - 1, r.values);
    }
  }

  lemma {:induction false} UnionCollideMore(named: Names, whole: bool, n: nat, m: nat, t: AvroType)
    requires n <= m && Collide(named, whole, n, t) && Resolve(named, t).Union?
    ensures Collide(named, whole, m, t)
    decreases n, 0
  {
    var branches := Resolve(named, t).branches;
    var i, j := UnionCollides(named, whole, n, t);
    if i == j {
      CollideMore(named, whole, n - 1, m - 1, branches[i]);
    } else {
      MeetMore(named, whole, n - 1, m - 1, branches[i], branches[j]);
    }
    UnionCollide(named, whole, m, t, i, j);
  }

  lemma UnionCollide(named: Names, whole: bool, n: nat, t: AvroType, i: nat, j: nat)
    requires n > 0 && Resolve(named, t).Union?
    requires i < |Resolve(named, t).branches| && j < |Resolve(named, t).branches|
    requires var branches := Resolve(named, t).branches;
             if i == j then Collide(named, whole, n - 1, branches[i])
             else Rivals(named, branches, i, j) && Meet(named, whole, n - 1, branches[i], branches[j])
    ensures Collide(named, whole, n, t)
  {
  }

  lemma {:induction false} RecordCollideMore(named: Names, whole: bool, n: nat, m: nat, t: AvroType)
    requires n <= m && Collide(named, whole, n, t) && Resolve(named, t).Record?
    ensures Collide(named, whole, m, t)
    decreases n, 0
  {
    var fields := Resolve(named, t).fields;
    var name := RecordCollides(named, whole, n, t);
    CollideMore(named, whole, n - 1, m - 1, TypeOf(fields, name));
    forall f | whole && HasField(fields, f) ensures Meet(named, whole, m - 1, TypeOf(fields, f), TypeOf(fields, f)) {
      MeetMore(named, whole, n - 1, m - 1, TypeOf(fields, f), TypeOf(fields, f));
    }
  }

  /** A collision found is there: two different values with one result. */
  lemma {:induction false} CollisionReal(named: Names, whole: bool, n: nat, t: AvroType) returns (v: Value, u: Value)
    requires AllProper(named, t) && Collide(named, whole, n, t)
    ensures Confused(named, whole, t, v, u)
    decreases n, 1
  {
    ProperResolved(named, t);
    var r := Resolve(named, t);
    if r.Union? {
      v, u := UnionCollision(named, whole, n, t);
    } else if r.Record? {
      v, u := RecordCollision(named, whole, n, t);
    } else if r.Map? {
      var x, y := CollisionReal(named, whole, n - 1, r.values);
      v, u := Obj(map["" := x]), Obj(map["" := y]);
      ObjShared(named, whole, t, t, v.members, u.members);
      assert v.members[""] != u.members[""];
    } else if r.Array? {
      var x, y := CollisionReal(named, whole, n - 1, r.items);
      v, u := Arr([x]), Arr([y]);
      ArrayConfused(named, whole, t, x, y);
    } else {
      var x, y := LeavesLost(r);
      v, u := Leaf(x), Leaf(y);
    }
  }

  lemma ArrayConfused(named: Names, whole: bool, t: AvroType, x: Value, y: Value)
    requires Resolve(named, t).Array? && Confused(named, whole, Resolve(named, t).items, x, y)
    ensures Confused(named, whole, t, Arr([x]), Arr([y]))
  {
    assert [x][0] != [y][0];
    var v, u := Arr([x]), Arr([y]);
    assert Flat(named, t, v).Some? && Flat(named, t, u).Some?;
    FlatArray(named, t, v);
    FlatArray(named, t, u);
    assert Flat(named, t, v).value.items == Flat(named, t, u).value.items;
  }

  lemma {:induction false} UnionCollision(named: Names, whole: bool, n: nat, t: AvroType) returns (v: Value, u: Value)
    requires AllProper(named, t) && Collide(named, whole, n, t) && Resolve(named, t).Union?
    ensures Confused(named, whole, t, v, u)
    decreases n, 0
  {
    ProperResolved(named, t);
    var branches := Resolve(named, t).branches;
    var i, j := UnionCollides(named, whole, n, t);
    var x, y;
    if i == j {
      x, y := CollisionReal(named, whole, n - 1, branches[i]);
    } else {
      MeetTouches(named, whole, n - 1, branches[i], branches[j]);
      x, y :| Share(named, whole, branches[i], branches[j], x, y);
    }
    v, u := Wrapped(named, branches[i], x), Wrapped(named, branches[j], y);
    WrappedConfused(named, whole, t, i, j, x, y);
  }

  lemma WrappedConfused(named: Names, whole: bool, t: AvroType, i: nat, j: nat, x: Value, y: Value)
    requires AllProper(named, Resolve(named, t)) && Resolve(named, t).Union?
    requires i < |Resolve(named, t).branches| && j < |Resolve(named, t).branches|
    requires Share(named, whole, Resolve(named, t).branches[i], Resolve(named, t).branches[j], x, y)
    requires (i == j && x != y) || Rivals(named, Resolve(named, t).branches, i, j)
    ensures Confused(named, whole, t, Wrapped(named, Resolve(named, t).branches[i], x),
                     Wrapped(named, Resolve(named, t).branches[j], y))
  {
    WrappedFits(named, whole, t, i, x);
    WrappedFits(named, whole, t, j, y);
    WrappedApart(named, whole, Resolve(named, t).branches, i, j, x, y);
  }

  /** Different values, or values of rival branches, stay different when wrapped. */
  lemma WrappedApart(named: Names, whole: bool, branches: seq<AvroType>, i: nat, j: nat, x: Value, y: Value)
    requires i < |branches| && j < |branches| && DistinctBranches(named, branches)
    requires Fits(named, whole, branches[i], x) && Fits(named, whole, branches[j], y)
    requires (i == j && x != y) || Rivals(named, branches, i, j)
    ensures Wrapped(named, branches[i], x) != Wrapped(named, branches[j], y)
  {
    var a, b := BranchName(Resolve(named, branches[i])), BranchName(Resolve(named, branches[j]));
    assert i != j ==> a != b;
    assert a in map[a := x] && map[a := x][a] == x && map[b := y][b] == y;
    assert a != b ==> a !in map[b := y];
  }

  lemma {:induction false} RecordCollision(named: Names, whole: bool, n: nat, t: AvroType) returns (v: Value, u: Value)
    requires AllProper(named, t) && Collide(named, whole, n, t) && Resolve(named, t).Record?
    ensures Confused(named, whole, t, v, u)
    decreases n, 0
  {
    ProperResolved(named, t);
    var r := Resolve(named, t);
    var name := RecordCollides(named, whole, n, t);
    SlotProper(named, r, name);
    var p, q := CollisionReal(named, whole, n - 1, TypeOf(r.fields, name));
    forall f | f in Slots(r, whole)
      ensures HasField(r.fields, f) && Touch(named, whole, TypeOf(r.fields, f), TypeOf(r.fields, f))
    {
      SlotProper(named, r, f);
      MeetTouches(named, whole, n - 1, TypeOf(r.fields, f), TypeOf(r.fields, f));
    }
    v, u := Completed(named, whole, t, name, p, q);
  }

  /** The rest of a record around two values of one field. */
  lemma Completed(named: Names, whole: bool, t: AvroType, name: string, p: Value, q: Value) returns (v: Value, u: Value)
    requires AllProper(named, t) && Resolve(named, t).Record? && HasField(Resolve(named, t).fields, name)
    requires Confused(named, whole, TypeOf(Resolve(named, t).fields, name), p, q)
    requires forall f :: f in Slots(Resolve(named, t), whole) ==>
               && HasField(Resolve(named, t).fields, f)
               && Touch(named, whole, TypeOf(Resolve(named, t).fields, f), TypeOf(Resolve(named, t).fields, f))
    ensures Confused(named, whole, t, v, u)
  {
    var r := Resolve(named, t);
    var x, y := Picks(named, whole, r, r, Slots(r, whole));
    v, u := Obj(x[name := p]), Obj(y[name := q]);
    OneSlotMore(named, whole, r, x, y, name, p, q);
    ObjShared(named, whole, t, t, v.members, u.members);
    assert v.members[name] != u.members[name];
  }

  lemma OneSlotMore(named: Names, whole: bool, r: AvroType, x: map<string, Value>, y: map<string, Value>,
                    name: string, p: Value, q: Value)
    requires IsObj(r) && SlotsShare(named, whole, r, r, x, y) && HasSlot(r, name)
    requires Share(named, whole, SlotType(r, name), SlotType(r, name), p, q)
    ensures SlotsShare(named, whole, r, r, x[name := p], y[name := q])
  {
    var x', y' := x[name := p], y[name := q];
    forall n | n in x'
      ensures HasSlot(r, n) && Share(named, whole, SlotType(r, n), SlotType(r, n), x'[n], y'[n])
    {
      if n != name {
        assert n in x;
      }
    }
  }

  lemma CollideTogether(named: Names, whole: bool, t: AvroType, name: string, one: nat, all: nat) returns (n: nat)
    requires Resolve(named, t).Record? && HasField(Resolve(named, t).fields, name)
    requires Collide(named, whole, one, TypeOf(Resolve(named, t).fields, name))
    requires whole ==> forall f :: HasField(Resolve(named, t).fields, f) ==>
               Meet(named, whole, all, TypeOf(Resolve(named, t).fields, f), TypeOf(Resolve(named, t).fields, f))
    ensures Collide(named, whole, n, t)
  {
    var fields := Resolve(named, t).fields;
    var m := Max(one, all);
    CollideMore(named, whole, one, m, TypeOf(fields, name));
    forall f | whole && HasField(fields, f) ensures Meet(named, whole, m, TypeOf(fields, f), TypeOf(fields, f)) {
      MeetMore(named, whole, all, m, TypeOf(fields, f), TypeOf(fields, f));
    }
    n := m + 1;
  }

  /** Where two different objects with the same result differ. */
  lemma DifferingSlot(named: Names, whole: bool, t: AvroType, v: Value, u: Value) returns (name: string)
    requires AllProper(named, t) && IsObj(Resolve(named, t)) && Confused(named, whole, t, v, u)
    ensures v.Obj? && u.Obj? && v.members.Keys == u.members.Keys && name in v.members
    ensures HasSlot(Resolve(named, t), name) && AllProper(named, SlotType(Resolve(named, t), name))
    ensures Confused(named, whole, SlotType(Resolve(named, t), name), v.members[name], u.members[name])
  {
    SharedSlot(named, whole, t, t, v, u, "");
    name :| name in v.members && v.members[name] != u.members[name];
    SharedSlot(named, whole, t, t, v, u, name);
  }

  lemma DifferingItem(named: Names, whole: bool, t: AvroType, v: Value, u: Value) returns (i: nat)
    requires Resolve(named, t).Array? && Confused(named, whole, t, v, u)
    ensures v.Arr? && u.Arr? && |v.items| == |u.items| && i < |v.items|
    ensures Confused(named, whole, Resolve(named, t).items, v.items[i], u.items[i])
  {
    FlatArray(named, t, v);
    FlatArray(named, t, u);
    assert v.items != u.items;
    i :| 0 <= i < |v.items| && v.items[i] != u.items[i];
  }

  lemma {:induction false} ObjCollisionFound(named: Names, whole: bool, t: AvroType, v: Value, u: Value)
      returns (n: nat)
    requires AllProper(named, t) && IsObj(Resolve(named, t)) && Confused(named, whole, t, v, u)
    ensures Collide(named, whole, n, t)
    decreases v, 0
  {
    var r := Resolve(named, t);
    var name := DifferingSlot(named, whole, t, v, u);
    n := CollisionFound(named, whole, SlotType(r, name), v.members[name], u.members[name]);
    if r.Record? {
      ObjFits(named, whole, t, v);
      var m := SlotsMeet(named, whole, t, t, v, v, v.members.Keys);
      n := CollideTogether(named, whole, t, name, n, m);
    } else {
      n := n + 1;
    }
  }

  lemma {:induction false} UnionCollisionFound(named: Names, whole: bool, t: AvroType, v: Value, u: Value)
      returns (n: nat)
    requires AllProper(named, t) && Resolve(named, t).Union? && Confused(named, whole, t, v, u)
    ensures Collide(named, whole, n, t)
    decreases v, 0
  {
    ProperResolved(named, t);
    var branches := Resolve(named, t).branches;
    var i, x := Unwrap(named, whole, t, v);
    var j, y := Unwrap(named, whole, t, u);
    if i == j {
      n := CollisionFound(named, whole, branches[i], x, y);
    } else {
      assert Rivals(named, branches, i, j);
      n := MeetFound(named, whole, branches[i], branches[j], x, y);
    }
    n := n + 1;
  }

  /** Two different values with one result are found in some round. */
  lemma {:induction false} CollisionFound(named: Names, whole: bool, t: AvroType, v: Value, u: Value) returns (n: nat)
    requires AllProper(named, t) && Confused(named, whole, t, v, u)
    ensures Collide(named, whole, n, t)
    decreases v, 1
  {
    ProperResolved(named, t);
    var r := Resolve(named, t);
    if r.Union? {
      n := UnionCollisionFound(named, whole, t, v, u);
    } else if IsObj(r) {
      n := ObjCollisionFound(named, whole, t, v, u);
    } else if r.Array? {
      var i := DifferingItem(named, whole, t, v, u);
      n := CollisionFound(named, whole, r.items, v.items[i], u.items[i]);
      n := n + 1;
    } else {
      LeafConfused(named, whole, t, v, u);
      n := 1;
    }
  }

  lemma LeafConfused(named: Names, whole: bool, t: AvroType, v: Value, u: Value)
    requires Confused(named, whole, t, v, u)
    requires !Resolve(named, t).Union? && !IsObj(Resolve(named, t)) && !Resolve(named, t).Array?
    ensures IsLeaf(Resolve(named, t)) && Loses(Resolve(named, t))
  {
    var r := Resolve(named, t);
    if IsLeaf(r) && !Loses(r) {
      LeavesKept(r, v.scalar, u.scalar);
    }
  }

  /** Some round finds a collision in the type. */
  ghost predicate Collides(named: Names, whole: bool, t: AvroType) {
    exists n :: Collide(named, whole, n, t)
  }

  lemma CollidesReally(named: Names, whole: bool, t: AvroType)
    requires AllProper(named, t) && Collides(named, whole, t)
    ensures Confusable(named, whole, t)
  {
    var n :| Collide(named, whole, n, t);
    var v, u := CollisionReal(named, whole, n, t);
  }

  lemma ConfusableCollides(named: Names, whole: bool, t: AvroType)
    requires AllProper(named, t) && Confusable(named, whole, t)
    ensures Collides(named, whole, t)
  {
    var v, u :| Confused(named, whole, t, v, u);
    var n := CollisionFound(named, whole, t, v, u);
  }

  /** A type flattens without confusing two values exactly when no round finds a
      collision in it. */
  lemma InjectiveExactly(named: Names, whole: bool, t: AvroType)
    requires AllProper(named, t)
    ensures Injective(named, whole, t) <==> !Collides(named, whole, t)
  {
    InjectiveMeans(named, whole, t);
    if Collides(named, whole, t) {
      CollidesReally(named, whole, t);
    }
    if Confusable(named, whole, t) {
      ConfusableCollides(named, whole, t);
    }
  }
}
