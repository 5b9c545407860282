/**
 Checking a schema for collisions: the rounds come to rest, so a number of them
 known beforehand decides; and what the check says of a single union.
 */
module FlattenSchemas {
  import opened Common
  import opened Flatten
  import opened FlattenProofs
  import opened FlattenChoice
  import opened FlattenRounds
  import opened FlattenOutcomes
  import opened FlattenLeaves
  import opened FlattenMeet
  import opened FlattenInjective

  // ------------------------------------------------------------ rounds come to rest

  lemma SlotIn(named: Names, types: set<AvroType>, t: AvroType, name: string)
    requires Closed(named, types) && t in types && IsObj(Resolve(named, t)) && HasSlot(Resolve(named, t), name)
    ensures SlotType(Resolve(named, t), name) in types
  {
    var r := Resolve(named, t);
    if r.Record? {
      var i := LastField(r.fields, name);
    }
    assert MadeOf(r, SlotType(r, name));
    PartIn(named, types, t, SlotType(r, name));
  }

  /** What a round has found: pairs of types that meet, and types that collide. */
  ghost function Found(named: Names, whole: bool, n: nat, types: set<AvroType>): set<(AvroType, Option<AvroType>)> {
    (set a, b | a in types && b in types && Meet(named, whole, n, a, b) :: (a, Some(b)))
    + (set a | a in types && Collide(named, whole, n, a) :: (a, None))
  }

  ghost function Candidates(types: set<AvroType>): set<(AvroType, Option<AvroType>)> {
    (set a, b | a in types && b in types :: (a, Some(b))) + (set a | a in types :: (a, None))
  }

  lemma FoundMeans(named: Names, whole: bool, n: nat, types: set<AvroType>, a: AvroType, b: AvroType)
    requires a in types && b in types
    ensures (a, Some(b)) in Found(named, whole, n, types) <==> Meet(named, whole, n, a, b)
    ensures (a, None) in Found(named, whole, n, types) <==> Collide(named, whole, n, a)
  {
  }

  ghost predicate Agree(named: Names, whole: bool, n: nat, m: nat, types: set<AvroType>) {
    && (forall a, b :: a in types && b in types ==> (Meet(named, whole, n, a, b) <==> Meet(named, whole, m, a, b)))
    && (forall a :: a in types ==> (Collide(named, whole, n, a) <==> Collide(named, whole, m, a)))
  }

  lemma AgreeIsFound(named: Names, whole: bool, n: nat, m: nat, types: set<AvroType>)
    ensures Agree(named, whole, n, m, types) <==> Found(named, whole, n, types) == Found(named, whole, m, types)
  {
    if Found(named, whole, n, types) == Found(named, whole, m, types) {
      forall a, b | a in types && b in types
        ensures Meet(named, whole, n, a, b) <==> Meet(named, whole, m, a, b)
        ensures Collide(named, whole, n, a) <==> Collide(named, whole, m, a)
      {
        FoundMeans(named, whole, n, types, a, b);
        FoundMeans(named, whole, m, types, a, b);
      }
    }
  }

  lemma MeetNext(named: Names, whole: bool, n: nat, m: nat, types: set<AvroType>, s: AvroType, t: AvroType)
    requires Closed(named, types) && s in types && t in types && Agree(named, whole, n, m, types)
    requires Meet(named, whole, n + 1, s, t)
    ensures Meet(named, whole, m + 1, s, t)
  {
    var a, b := Resolve(named, s), Resolve(named, t);
    if a.Union? {
      var i := LeftBranch(named, whole, n + 1, s, t);
      assert MadeOf(a, a.branches[i]);
      PartIn(named, types, s, a.branches[i]);
    } else if b.Union? {
      var i := RightBranch(named, whole, n + 1, s, t);
      assert MadeOf(b, b.branches[i]);
      PartIn(named, types, t, b.branches[i]);
    } else if IsObj(a) && IsObj(b) {
      forall name | Must(a, whole, name) || Must(b, whole, name)
        ensures HasSlot(a, name) && HasSlot(b, name) && Meet(named, whole, m, SlotType(a, name), SlotType(b, name))
      {
        SlotIn(named, types, s, name);
        SlotIn(named, types, t, name);
      }
    }
  }

  lemma CollideNext(named: Names, whole: bool, n: nat, m: nat, types: set<AvroType>, t: AvroType)
    requires Closed(named, types) && t in types && Agree(named, whole, n, m, types)
    requires Collide(named, whole, n + 1, t)
    ensures Collide(named, whole, m + 1, t)
  {
    var r := Resolve(named, t);
    if r.Union? {
      var i, j := UnionCollides(named, whole, n + 1, t);
      assert MadeOf(r, r.branches[i]) && MadeOf(r, r.branches[j]);
      PartIn(named, types, t, r.branches[i]);
      PartIn(named, types, t, r.branches[j]);
      UnionCollide(named, whole, m + 1, t, i, j);
    } else if r.Record? {
      RecordCollideNext(named, whole, n, m, types, t);
    } else if r.Array? {
      PartIn(named, types, t, r.items);
    } else if r.Map? {
      PartIn(named, types, t, r.values);
    }
  }

  lemma RecordCollideNext(named: Names, whole: bool, n: nat, m: nat, types: set<AvroType>, t: AvroType)
    requires Closed(named, types) && t in types && Agree(named, whole, n, m, types)
    requires Collide(named, whole, n + 1, t) && Resolve(named, t).Record?
    ensures Collide(named, whole, m + 1, t)
  {
    var r := Resolve(named, t);
    var name := RecordCollides(named, whole, n + 1, t);
    SlotIn(named, types, t, name);
    forall f | HasField(r.fields, f) ensures TypeOf(r.fields, f) in types {
      SlotIn(named, types, t, f);
    }
    assert Collide(named, whole, m, TypeOf(r.fields, name));
  }

  /** A round depends only on what the one before it found. */
  lemma AgreeNext(named: Names, whole: bool, n: nat, m: nat, types: set<AvroType>)
    requires Closed(named, types) && Agree(named, whole, n, m, types)
    ensures Agree(named, whole, n + 1, m + 1, types)
  {
    forall a, b | a in types && b in types
      ensures Meet(named, whole, n + 1, a, b) <==> Meet(named, whole, m + 1, a, b)
    {
      if Meet(named, whole, n + 1, a, b) {
        MeetNext(named, whole, n, m, types, a, b);
      }
      if Meet(named, whole, m + 1, a, b) {
        MeetNext(named, whole, m, n, types, a, b);
      }
    }
    forall a | a in types ensures Collide(named, whole, n + 1, a) <==> Collide(named, whole, m + 1, a) {
      if Collide(named, whole, n + 1, a) {
        CollideNext(named, whole, n, m, types, a);
      }
      if Collide(named, whole, m + 1, a) {
        CollideNext(named, whole, m, n, types, a);
      }
    }
  }

  lemma FoundGrows(named: Names, whole: bool, n: nat, types: set<AvroType>)
    ensures Found(named, whole, n, types) <= Found(named, whole, n + 1, types) <= Candidates(types)
  {
    forall a, b | a in types && b in types && Meet(named, whole, n, a, b) ensures Meet(named, whole, n + 1, a, b) {
      MeetMore(named, whole, n, n + 1, a, b);
    }
    forall a | a in types && Collide(named, whole, n, a) ensures Collide(named, whole, n + 1, a) {
      CollideMore(named, whole, n, n + 1, a);
    }
  }

  ghost function FoundBy(named: Names, whole: bool, types: set<AvroType>): nat -> set<(AvroType, Option<AvroType>)> {
    (n: nat) => Found(named, whole, n, types)
  }

  lemma FoundNext(named: Names, whole: bool, types: set<AvroType>, n: nat, m: nat)
    requires Closed(named, types) && FoundBy(named, whole, types)(n) == FoundBy(named, whole, types)(m)
    ensures FoundBy(named, whole, types)(n + 1) == FoundBy(named, whole, types)(m + 1)
  {
    AgreeIsFound(named, whole, n, m, types);
    AgreeNext(named, whole, n, m, types);
    AgreeIsFound(named, whole, n + 1, m + 1, types);
  }

  lemma FoundMore(named: Names, whole: bool, types: set<AvroType>, n: nat)
    ensures FoundBy(named, whole, types)(n) <= FoundBy(named, whole, types)(n + 1) <= Candidates(types)
  {
    FoundGrows(named, whole, n, types);
  }

  lemma FoundFollows(named: Names, whole: bool, types: set<AvroType>, n: nat, m: nat)
    requires Closed(named, types)
    ensures Follows(FoundBy(named, whole, types), n, m)
    ensures Steps(FoundBy(named, whole, types), Candidates(types), n)
  {
    FoundMore(named, whole, types, n);
    if FoundBy(named, whole, types)(n) == FoundBy(named, whole, types)(m) {
      FoundNext(named, whole, types, n, m);
    }
  }

  lemma FoundIsGrowing(named: Names, whole: bool, types: set<AvroType>)
    requires Closed(named, types)
    ensures Growing(FoundBy(named, whole, types), Candidates(types))
  {
    forall n: nat, m: nat ensures Follows(FoundBy(named, whole, types), n, m) {
      FoundFollows(named, whole, types, n, m);
    }
    forall n: nat ensures Steps(FoundBy(named, whole, types), Candidates(types), n) {
      FoundFollows(named, whole, types, n, n);
    }
  }

  /** As many rounds as there are types and pairs of types, and one more. */
  ghost function Rounds(types: set<AvroType>): nat { |Candidates(types)| + 1 }

  lemma FoundRests(named: Names, whole: bool, types: set<AvroType>, n: nat)
    requires Closed(named, types) && n >= Rounds(types)
    ensures Found(named, whole, n, types) == Found(named, whole, Rounds(types), types)
  {
    FoundIsGrowing(named, whole, types);
    Rest(FoundBy(named, whole, types), Candidates(types), n);
    assert FoundBy(named, whole, types)(n) == Found(named, whole, n, types);
    assert FoundBy(named, whole, types)(Rounds(types)) == Found(named, whole, Rounds(types), types);
  }

  lemma LateCollision(named: Names, whole: bool, types: set<AvroType>, n: nat, t: AvroType)
    requires Closed(named, types) && t in types && n >= Rounds(types) && Collide(named, whole, n, t)
    ensures Collide(named, whole, Rounds(types), t)
  {
    FoundRests(named, whole, types, n);
    FoundMeans(named, whole, n, types, t, t);
    FoundMeans(named, whole, Rounds(types), types, t, t);
  }

  lemma RoundsSuffice(named: Names, whole: bool, types: set<AvroType>, t: AvroType)
    requires Closed(named, types) && t in types
    ensures Collides(named, whole, t) <==> Collide(named, whole, Rounds(types), t)
  {
    var last := Rounds(types);
    if n :| Collide(named, whole, n, t) {
      if n <= last {
        CollideMore(named, whole, n, last, t);
      } else {
        LateCollision(named, whole, types, n, t);
      }
    }
  }

  // -------------------------------------------------------------------- the verdict

  /** No two values of the schema can flatten alike, whatever flattening yields. */
  ghost predicate KeptApart(named: Names, whole: bool, root: AvroType) {
    forall v, u, w ::
      && Fits(named, whole, root, v) && Fits(named, whole, root, u)
      && MayFlatten(named, root, v, Some(w)) && MayFlatten(named, root, u, Some(w))
      ==> v == u
  }

  /** A schema keeps its values apart exactly when the check, which reads the schema
      alone and takes a fixed number of rounds, finds no collision. */
  lemma SchemaInjective(named: Names, whole: bool, root: AvroType)
    requires OneReading(named, root) && AllProper(named, root)
    ensures KeptApart(named, whole, root) <==> !Collide(named, whole, Rounds(Universe(named, root)), root)
  {
    UniverseClosed(named, root);
    RoundsSuffice(named, whole, Universe(named, root), root);
    InjectiveExactly(named, whole, root);
    KeptApartIsInjective(named, whole, root);
  }

  lemma KeptApartIsInjective(named: Names, whole: bool, root: AvroType)
    requires OneReading(named, root) && AllProper(named, root)
    ensures KeptApart(named, whole, root) <==> Injective(named, whole, root)
  {
    if Injective(named, whole, root) {
      forall v, u, w | Fits(named, whole, root, v) && Fits(named, whole, root, u)
                       && MayFlatten(named, root, v, Some(w)) && MayFlatten(named, root, u, Some(w))
        ensures v == u
      {
        OneReadingSettles(named, root, v);
        OneReadingSettles(named, root, u);
      }
    }
    if KeptApart(named, whole, root) {
      forall v, u | Fits(named, whole, root, v) && Fits(named, whole, root, u)
                    && Flat(named, root, v) == Flat(named, root, u)
        ensures v == u
      {
        ProperSucceeds(named, whole, root, v);
        OneReadingSettles(named, root, v);
        OneReadingSettles(named, root, u);
        assert MayFlatten(named, root, v, Some(Flat(named, root, v).value));
      }
    }
  }

  // ------------------------------------------------------------------ single unions

  /** A union keeps its values apart exactly when each branch does and no two
      branches share a result; a branch that yields null shares it with null. */
  lemma UnionInjective(named: Names, whole: bool, t: AvroType)
    requires AllProper(named, t) && Resolve(named, t).Union?
    ensures var branches := Resolve(named, t).branches;
            Injective(named, whole, t) <==>
              && (forall i :: 0 <= i < |branches| ==> Injective(named, whole, branches[i]))
              && (forall i, j :: 0 <= i < |branches| && 0 <= j < |branches| && Rivals(named, branches, i, j) ==>
                    !Touch(named, whole, branches[i], branches[j]))
  {
    ProperResolved(named, t);
    var branches := Resolve(named, t).branches;
    InjectiveMeans(named, whole, t);
    forall i | 0 <= i < |branches|
      ensures Injective(named, whole, branches[i]) <==> !Confusable(named, whole, branches[i])
    {
      InjectiveMeans(named, whole, branches[i]);
    }
    if Confusable(named, whole, t) {
      var i, j := ConfusedBranches(named, whole, t);
      assert i == j || Rivals(named, branches, i, j);
    }
    if i :| 0 <= i < |branches| && Confusable(named, whole, branches[i]) {
      BranchConfuses(named, whole, t, i, i);
    }
    if i, j :| 0 <= i < |branches| && 0 <= j < |branches| && Rivals(named, branches, i, j)
               && Touch(named, whole, branches[i], branches[j]) {
      BranchConfuses(named, whole, t, i, j);
    }
  }

  lemma ConfusedBranches(named: Names, whole: bool, t: AvroType) returns (i: nat, j: nat)
    requires AllProper(named, Resolve(named, t)) && Resolve(named, t).Union? && Confusable(named, whole, t)
    ensures var branches := Resolve(named, t).branches;
            && i < |branches| && j < |branches|
            && if i == j then Confusable(named, whole, branches[i])
               else Rivals(named, branches, i, j) && Touch(named, whole, branches[i], branches[j])
  {
    var branches := Resolve(named, t).branches;
    var v, u :| Confused(named, whole, t, v, u);
    var x, y;
    i, x := Unwrap(named, whole, t, v);
    j, y := Unwrap(named, whole, t, u);
    assert Share(named, whole, branches[i], branches[j], x, y);
    assert i == j ==> Confused(named, whole, branches[i], x, y);
  }

  lemma BranchConfuses(named: Names, whole: bool, t: AvroType, i: nat, j: nat)
    requires AllProper(named, Resolve(named, t)) && Resolve(named, t).Union?
    requires i < |Resolve(named, t).branches| && j < |Resolve(named, t).branches|
    requires var branches := Resolve(named, t).branches;
             if i == j then Confusable(named, whole, branches[i])
             else Rivals(named, branches, i, j) && Touch(named, whole, branches[i], branches[j])
    ensures Confusable(named, whole, t)
  {
    var branches := Resolve(named, t).branches;
    var x, y;
    if i == j {
      x, y :| Confused(named, whole, branches[i], x, y);
    } else {
      x, y :| Share(named, whole, branches[i], branches[j], x, y);
    }
    WrappedConfused(named, whole, t, i, j, x, y);
  }

  predicate NullOrLeaf(t: AvroType) { IsNull(t) || IsLeaf(t) }

  lemma LeafLoses(named: Names, whole: bool, t: AvroType)
    requires IsLeaf(Resolve(named, t)) && Loses(Resolve(named, t))
    ensures Confusable(named, whole, t)
  {
    var x, y := LeavesLost(Resolve(named, t));
    assert Confused(named, whole, t, Leaf(x), Leaf(y));
  }

  lemma LeafConfusable(named: Names, whole: bool, t: AvroType)
    requires NullOrLeaf(Resolve(named, t)) && Confusable(named, whole, t)
    ensures IsLeaf(Resolve(named, t)) && Loses(Resolve(named, t))
  {
    var v, u :| Confused(named, whole, t, v, u);
    LeafConfused(named, whole, t, v, u);
  }

  lemma LeafInjective(named: Names, whole: bool, t: AvroType)
    requires AllProper(named, t) && NullOrLeaf(Resolve(named, t))
    ensures Injective(named, whole, t) <==> !(IsLeaf(Resolve(named, t)) && Loses(Resolve(named, t)))
  {
    InjectiveMeans(named, whole, t);
    if IsLeaf(Resolve(named, t)) && Loses(Resolve(named, t)) {
      LeafLoses(named, whole, t);
    }
    if Confusable(named, whole, t) {
      LeafConfusable(named, whole, t);
    }
  }

  lemma LeavesTouchExactly(named: Names, whole: bool, s: AvroType, t: AvroType)
    requires NullOrLeaf(Resolve(named, s)) && NullOrLeaf(Resolve(named, t))
    ensures Touch(named, whole, s, t) <==> PlainMeet(Resolve(named, s), Resolve(named, t))
  {
    if PlainMeet(Resolve(named, s), Resolve(named, t)) {
      PlainTouches(named, whole, s, t);
    }
    if Touch(named, whole, s, t) {
      var x, y :| Share(named, whole, s, t, x, y);
      PlainMeets(named, whole, s, t, x, y);
    }
  }

  predicate LeavesUnlike(a: AvroType, b: AvroType) {
    IsLeaf(a) && IsLeaf(b) ==> !Alike(ClassOf(a), ClassOf(b))
  }

  /** A union of null and leaves keeps its values apart exactly when no branch drops
      precision and no two are of like classes: string beside long may stand, string
      beside an enum may not. */
  lemma LeafUnionInjective(named: Names, whole: bool, t: AvroType)
    requires AllProper(named, t) && Resolve(named, t).Union?
    requires forall i :: 0 <= i < |Resolve(named, t).branches| ==>
               NullOrLeaf(Resolve(named, Resolve(named, t).branches[i]))
    ensures var branches := Resolve(named, t).branches;
            Injective(named, whole, t) <==>
              && (forall i :: 0 <= i < |branches| && IsLeaf(Resolve(named, branches[i])) ==>
                    !Loses(Resolve(named, branches[i])))
              && (forall i, j :: 0 <= i < j < |branches| ==>
                    LeavesUnlike(Resolve(named, branches[i]), Resolve(named, branches[j])))
  {
    ProperResolved(named, t);
    var branches := Resolve(named, t).branches;
    UnionInjective(named, whole, t);
    forall i | 0 <= i < |branches|
      ensures Injective(named, whole, branches[i])
         <==> !(IsLeaf(Resolve(named, branches[i])) && Loses(Resolve(named, branches[i])))
    {
      LeafInjective(named, whole, branches[i]);
    }
    RivalsUnlike(named, whole, branches);
  }

  lemma RivalsUnlike(named: Names, whole: bool, branches: seq<AvroType>)
    requires forall i :: 0 <= i < |branches| ==> NullOrLeaf(Resolve(named, branches[i]))
    ensures (forall i, j :: 0 <= i < |branches| && 0 <= j < |branches| && Rivals(named, branches, i, j) ==>
               !Touch(named, whole, branches[i], branches[j]))
       <==> (forall i, j :: 0 <= i < j < |branches| ==>
               LeavesUnlike(Resolve(named, branches[i]), Resolve(named, branches[j])))
  {
    forall i, j | 0 <= i < |branches| && 0 <= j < |branches| && i != j
      ensures LeavesUnlike(Resolve(named, branches[i]), Resolve(named, branches[j]))
         <==> (Rivals(named, branches, i, j) ==> !Touch(named, whole, branches[i], branches[j]))
      ensures LeavesUnlike(Resolve(named, branches[i]), Resolve(named, branches[j]))
         <==> LeavesUnlike(Resolve(named, branches[j]), Resolve(named, branches[i]))
    {
      LeavesTouchExactly(named, whole, branches[i], branches[j]);
    }
  }

  /** A string beside an enum: the symbol and the string flatten to the same text. */
  lemma StringBesideEnumCollides(named: Names, whole: bool, text: string)
    requires IsName(text)
    ensures var t := Union([Primitive("string", ""), Named("enum", "Kind", "")]);
            Confused(named, whole, t, Obj(map["string" := Leaf(Str(text))]), Obj(map["Kind" := Leaf(Str(text))]))
  {
    var bs := [Primitive("string", ""), Named("enum", "Kind", "")];
    var t := Union(bs);
    assert |"string"| != |"Kind"|;
    assert DistinctBranches(named, bs);
    WrappedFits(named, whole, t, 0, Leaf(Str(text)));
    WrappedFits(named, whole, t, 1, Leaf(Str(text)));
    WrappedApart(named, whole, bs, 0, 1, Leaf(Str(text)), Leaf(Str(text)));
  }

  /** A nullable string or record is not confused by its third branch. */
  lemma StringBesideRecordKept(named: Names, whole: bool, t: AvroType, r: AvroType)
    requires t == Union([Primitive("null", ""), Primitive("string", ""), r]) && AllProper(named, t)
    requires Resolve(named, r).Record?
    ensures Injective(named, whole, t) <==> Injective(named, whole, r)
  {
    var bs := t.branches;
    UnionInjective(named, whole, t);
    LeafInjective(named, whole, bs[0]);
    LeafInjective(named, whole, bs[1]);
    forall i, j | 0 <= i < |bs| && 0 <= j < |bs| && Rivals(named, bs, i, j)
      ensures !Touch(named, whole, bs[i], bs[j])
    {
      NoneTouch(named, whole, bs, r, i, j);
    }
    assert bs[2] == r;
  }

  lemma NoneTouch(named: Names, whole: bool, bs: seq<AvroType>, r: AvroType, i: nat, j: nat)
    requires bs == [Primitive("null", ""), Primitive("string", ""), r] && Resolve(named, r).Record?
    requires i < |bs| && j < |bs| && i != j
    ensures !Touch(named, whole, bs[i], bs[j])
  {
    if i == 2 {
      RecordApart(named, whole, bs[j], r);
    } else if j == 2 {
      RecordApart(named, whole, bs[i], r);
    } else {
      LeavesTouchExactly(named, whole, bs[i], bs[j]);
    }
  }

  lemma RecordApart(named: Names, whole: bool, s: AvroType, r: AvroType)
    requires NullOrLeaf(Resolve(named, s)) && Resolve(named, r).Record?
    ensures !Touch(named, whole, s, r) && !Touch(named, whole, r, s)
  {
    forall x, y ensures !Share(named, whole, s, r, x, y) && !Share(named, whole, r, s, y, x) {
      ObjectIsNoLeaf(named, whole, s, r, x, y);
    }
  }

  lemma ObjectIsNoLeaf(named: Names, whole: bool, s: AvroType, r: AvroType, x: Value, y: Value)
    requires NullOrLeaf(Resolve(named, s)) && Resolve(named, r).Record?
    ensures !Share(named, whole, s, r, x, y) && !Share(named, whole, r, s, y, x)
  {
  }
}
