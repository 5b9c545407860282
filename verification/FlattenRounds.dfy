/**
 Searching the types of a schema in rounds: what types there are, and why a search
 whose rounds only add to what they found comes to rest.
 */
module FlattenRounds {
  import opened Flatten
  import opened FlattenChoice

  // ---------------------------------------------------------- the types of a schema

  function Parts(t: AvroType): set<AvroType> {
    {t} +
    match t
    case Record(_, fields) => set i, x | 0 <= i < |fields| && x in Parts(fields[i].typ) :: x
    case Array(items) => Parts(items)
    case Map(values) => Parts(values)
    case Union(branches) => set i, x | 0 <= i < |branches| && x in Parts(branches[i]) :: x
    case _ => {}
  }

  /** The types a type is made of. */
  predicate MadeOf(t: AvroType, x: AvroType) {
    match t
    case Record(_, fields) => exists i :: 0 <= i < |fields| && fields[i].typ == x
    case Array(items) => items == x
    case Map(values) => values == x
    case Union(branches) => exists i :: 0 <= i < |branches| && branches[i] == x
    case _ => false
  }

  lemma {:induction false} PartsClosed(t: AvroType, x: AvroType, y: AvroType)
    requires x in Parts(t) && MadeOf(x, y)
    ensures y in Parts(t)
  {
    if x == t {
      assert y in Parts(y);
    } else {
      match t
      case Record(_, fields) =>
        var i :| 0 <= i < |fields| && x in Parts(fields[i].typ);
        PartsClosed(fields[i].typ, x, y);
      case Array(items) => PartsClosed(items, x, y);
      case Map(values) => PartsClosed(values, x, y);
      case Union(branches) =>
        var i :| 0 <= i < |branches| && x in Parts(branches[i]);
        PartsClosed(branches[i], x, y);
    }
  }

  ghost function Universe(named: Names, root: AvroType): set<AvroType> {
    Parts(root) + set n, x | n in named && x in Parts(named[n]) :: x
  }

  /** Whatever a type of the set may be resolved to is made of types of the set. */
  ghost predicate Closed(named: Names, types: set<AvroType>) {
    forall t, r, x :: t in types && MayResolve(named, t, r) && MadeOf(r, x) ==> x in types
  }

  lemma UniverseClosed(named: Names, root: AvroType)
    ensures Closed(named, Universe(named, root)) && root in Universe(named, root)
  {
    var types := Universe(named, root);
    forall t, r, x | t in types && MayResolve(named, t, r) && MadeOf(r, x) ensures x in types {
      if r == t {
        if t in Parts(root) {
          PartsClosed(root, t, x);
        } else {
          var n :| n in named && t in Parts(named[n]);
          PartsClosed(named[n], t, x);
        }
      } else {
        var n :| n in named && r == named[n];
        PartsClosed(named[n], r, x);
      }
    }
  }

  lemma PartIn(named: Names, types: set<AvroType>, t: AvroType, x: AvroType)
    requires Closed(named, types) && t in types && MadeOf(Resolve(named, t), x)
    ensures x in types
  {
    ResolveMay(named, t);
  }

  // ------------------------------------------------------------ rounds come to rest

  lemma SubsetSize<T>(a: set<T>, b: set<T>)
    requires a <= b
    ensures |a| <= |b| && (|a| == |b| ==> a == b)
  {
    assert b == a + (b - a);
    if |a| == |b| {
      assert b - a == {};
    }
  }

  /** Sets that only grow within a bound, each determined by the one before it. */
  ghost predicate Growing<T(!new)>(f: nat -> set<T>, bound: set<T>) {
    (forall n :: Steps(f, bound, n)) && (forall n, m :: Follows(f, n, m))
  }

  ghost predicate Steps<T(!new)>(f: nat -> set<T>, bound: set<T>, n: nat) { f(n) <= f(n + 1) <= bound }

  ghost predicate Follows<T(!new)>(f: nat -> set<T>, n: nat, m: nat) { f(n) == f(m) ==> f(n + 1) == f(m + 1) }

  /** Until they rest each is larger than the one before. */
  lemma {:induction false} RestOrGrow<T(!new)>(f: nat -> set<T>, bound: set<T>, n: nat) returns (k: nat)
    requires Growing(f, bound)
    ensures (k < n && f(k) == f(k + 1)) || |f(n)| >= n
  {
    k := 0;
    if n > 0 {
      k := RestOrGrow(f, bound, n - 1);
      assert Steps(f, bound, n - 1);
      SubsetSize(f(n - 1), f(n));
      if !(k < n - 1 && f(k) == f(k + 1)) {
        k := n - 1;
      }
    }
  }

  lemma {:induction false} RestStays<T(!new)>(f: nat -> set<T>, bound: set<T>, k: nat, n: nat)
    requires Growing(f, bound) && k <= n && f(k) == f(k + 1)
    ensures f(n) == f(k)
    decreases n
  {
    if k < n {
      RestStays(f, bound, k, n - 1);
      assert Follows(f, k, n - 1);
    }
  }

  /** So they rest after as many steps as the bound has elements. */
  lemma Rest<T(!new)>(f: nat -> set<T>, bound: set<T>, n: nat)
    requires Growing(f, bound) && n > |bound|
    ensures f(n) == f(|bound| + 1)
  {
    var k := RestOrGrow(f, bound, |bound| + 1);
    assert Steps(f, bound, |bound| + 1);
    SubsetSize(f(|bound| + 1), bound);
    RestStays(f, bound, k, n);
    RestStays(f, bound, k, |bound| + 1);
  }
}
