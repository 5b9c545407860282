/**
 Grouping a batch by event type before it is written, one object per type.
 */
module Grouping {
  import opened Common

  /** A record: its position in the topic and its event type. */
  datatype Record = Record(at: nat, kind: string)

  /** The distinct types in order of first appearance. */
  function Kinds(batch: seq<Record>): (order: seq<string>) {
    if batch == [] then []
    else
      var rest := batch[..|batch| - 1];
      var last := batch[|batch| - 1].kind;
      if last in Kinds(rest) then Kinds(rest) else Kinds(rest) + [last]
  }

  /** The records of one type, in batch order. */
  function OfKind(batch: seq<Record>, kind: string): (group: seq<Record>) {
    if batch == [] then []
    else
      var rest := OfKind(batch[..|batch| - 1], kind);
      var last := batch[|batch| - 1];
      if last.kind == kind then rest + [last] else rest
  }

  lemma {:induction false} KindsOfMember(batch: seq<Record>, r: Record)
    requires r in batch
    ensures r.kind in Kinds(batch)
  {
    var rest := batch[..|batch| - 1];
    assert batch == rest + [batch[|batch| - 1]];
    if r in rest { KindsOfMember(rest, r); }
  }

  lemma {:induction false} OfKindMember(batch: seq<Record>, kind: string, r: Record)
    ensures r in OfKind(batch, kind) <==> r in batch && r.kind == kind
  {
    if batch != [] {
      var rest := batch[..|batch| - 1];
      assert batch == rest + [batch[|batch| - 1]];
      OfKindMember(rest, kind, r);
    }
  }

  lemma {:induction false} KindsDistinct(batch: seq<Record>)
    ensures forall i, j :: 0 <= i < j < |Kinds(batch)| ==> Kinds(batch)[i] != Kinds(batch)[j]
  {
    if batch != [] { KindsDistinct(batch[..|batch| - 1]); }
  }

  /** A group keeps the order of the batch: it is the batch read at increasing
      positions. */
  lemma {:induction false} GroupKeepsOrder(batch: seq<Record>, kind: string) returns (positions: seq<nat>)
    ensures |positions| == |OfKind(batch, kind)|
    ensures forall i, j :: 0 <= i < j < |positions| ==> positions[i] < positions[j]
    ensures forall i :: 0 <= i < |positions| ==>
              positions[i] < |batch| && batch[positions[i]] == OfKind(batch, kind)[i]
  {
    if batch == [] {
      positions := [];
    } else {
      positions := GroupKeepsOrder(batch[..|batch| - 1], kind);
      if batch[|batch| - 1].kind == kind {
        positions := positions + [|batch| - 1];
      }
    }
  }

  /** The first record of a type. */
  predicate FirstOf(batch: seq<Record>, kind: string, at: nat) {
    at < |batch| && batch[at].kind == kind && forall k :: 0 <= k < at ==> batch[k].kind != kind
  }

  /** The types come in the order in which they first appear. */
  lemma {:induction false} KindsAppear(batch: seq<Record>) returns (positions: seq<nat>)
    ensures |positions| == |Kinds(batch)| && Ascending(positions)
    ensures forall i :: 0 <= i < |positions| ==> FirstOf(batch, Kinds(batch)[i], positions[i])
  {
    if batch == [] {
      positions := [];
    } else {
      var rest, last := batch[..|batch| - 1], batch[|batch| - 1];
      var before := KindsAppear(rest);
      forall i | 0 <= i < |before| ensures before[i] < |rest| && FirstOf(batch, Kinds(rest)[i], before[i]) {
        assert FirstOf(rest, Kinds(rest)[i], before[i]);
      }
      if last.kind in Kinds(rest) {
        positions := before;
      } else {
        NewKind(rest, last);
        assert batch == rest + [last];
        positions := before + [|rest|];
      }
    }
  }

  lemma NewKind(rest: seq<Record>, last: Record)
    requires last.kind !in Kinds(rest)
    ensures FirstOf(rest + [last], last.kind, |rest|)
  {
    forall k | 0 <= k < |rest| ensures rest[k].kind != last.kind { KindsOfMember(rest, rest[k]); }
  }

  /** All groups of a list of types together. */
  ghost function Union(batch: seq<Record>, order: seq<string>): multiset<Record> {
    if order == [] then multiset{}
    else Union(batch, order[..|order| - 1]) + multiset(OfKind(batch, order[|order| - 1]))
  }

  lemma {:induction false} UnionStep(batch: seq<Record>, last: Record, order: seq<string>)
    requires forall i, j :: 0 <= i < j < |order| ==> order[i] != order[j]
    ensures Union(batch + [last], order)
         == Union(batch, order) + if last.kind in order then multiset{last} else multiset{}
  {
    if order != [] {
      var prefix, k := order[..|order| - 1], order[|order| - 1];
      UnionStep(batch, last, prefix);
      OfKindStep(batch, last, k);
      InPrefix(order, last.kind);
    }
  }

  lemma OfKindStep(batch: seq<Record>, last: Record, kind: string)
    ensures multiset(OfKind(batch + [last], kind))
         == multiset(OfKind(batch, kind)) + if last.kind == kind then multiset{last} else multiset{}
  {
    assert (batch + [last])[..|batch|] == batch;
  }

  lemma InPrefix(order: seq<string>, kind: string)
    requires order != [] && forall i, j :: 0 <= i < j < |order| ==> order[i] != order[j]
    ensures var prefix, k := order[..|order| - 1], order[|order| - 1];
            (kind in order <==> kind in prefix || kind == k) && k !in prefix
  {
    assert order == order[..|order| - 1] + [order[|order| - 1]];
  }

  lemma {:induction false} OfKindAbsent(batch: seq<Record>, kind: string)
    requires kind !in Kinds(batch)
    ensures OfKind(batch, kind) == []
  {
    if batch != [] {
      var rest := batch[..|batch| - 1];
      OfKindAbsent(rest, kind);
    }
  }

  /** The groups of a batch partition it: no record is lost or written twice. */
  lemma {:induction false} GroupsPartition(batch: seq<Record>)
    ensures Union(batch, Kinds(batch)) == multiset(batch)
  {
    if batch != [] {
      var rest, last := batch[..|batch| - 1], batch[|batch| - 1];
      assert batch == rest + [last];
      GroupsPartition(rest);
      KindsDistinct(rest);
      UnionStep(rest, last, Kinds(rest));
      if last.kind !in Kinds(rest) {
        KindsDistinct(batch);
        var order := Kinds(batch);
        assert order[..|order| - 1] == Kinds(rest);
        OfKindAbsent(rest, last.kind);
        assert OfKind(batch, last.kind) == [last];
      }
    }
  }

  /** A partial grouping: the groups and the order for one prefix of a batch. */
  ghost predicate Grouped(batch: seq<Record>, groups: map<string, seq<Record>>, order: seq<string>) {
    && order == Kinds(batch)
    && (forall k :: k in groups <==> k in order)
    && (forall k :: k in groups ==> groups[k] == OfKind(batch, k))
  }

  lemma GroupedStep(batch: seq<Record>, r: Record, groups: map<string, seq<Record>>, order: seq<string>)
    requires Grouped(batch, groups, order)
    ensures var before := if r.kind in groups then groups[r.kind] else [];
            Grouped(batch + [r], groups[r.kind := before + [r]],
                    if r.kind in groups then order else order + [r.kind])
  {
    assert (batch + [r])[..|batch|] == batch;
    if r.kind !in groups {
      OfKindAbsent(batch, r.kind);
    }
  }

  /** The grouping loop: one pass that appends each record to its group and each
      new type to the order. */
  method GroupByKind(batch: seq<Record>) returns (groups: map<string, seq<Record>>, order: seq<string>)
    ensures order == Kinds(batch)
    ensures forall k :: k in groups <==> k in order
    ensures forall k :: k in groups ==> groups[k] == OfKind(batch, k)
  {
    groups, order := map[], [];
    var i := 0;
    while i < |batch|
      invariant 0 <= i <= |batch|
      invariant Grouped(batch[..i], groups, order)
    {
      var r := batch[i];
      GroupedStep(batch[..i], r, groups, order);
      assert batch[..i] + [r] == batch[..i + 1];
      if r.kind !in groups {
        order := order + [r.kind];
      }
      groups := groups[r.kind := (if r.kind in groups then groups[r.kind] else []) + [r]];
      i := i + 1;
    }
    assert batch[..i] == batch;
  }
}
