/**
 What flattening makes of single values: the wrappers of unions, and the values of
 logical types.
 */
module FlattenValues {
  import opened Common
  import opened Numerals
  import opened Calendar
  import opened Flatten
  import opened FlattenProofs

  /** A union's value is wrapped under the full name of a declared type, the kind of an
      array, a map or a plain primitive, or the kind and logical type with a dot
      between; peeling the wrapper leaves what the branch makes of the value. */
  lemma WrapperPeeled(named: Names, t: AvroType, i: nat, v: Value)
    requires Resolve(named, t).Union? && DistinctBranches(named, Resolve(named, t).branches)
    requires i < |Resolve(named, t).branches|
    ensures var b := Resolve(named, t).branches[i];
            var r, inner := Resolve(named, b), Flat(named, b, v);
            && (r.Record? || r.Named? ==> Flat(named, t, Obj(map[r.name := v])) == inner)
            && (r.Array? ==> Flat(named, t, Obj(map["array" := v])) == inner)
            && (r.Map? ==> Flat(named, t, Obj(map["map" := v])) == inner)
            && (r.Primitive? && r.logical == "" ==> Flat(named, t, Obj(map[r.kind := v])) == inner)
            && (r.Primitive? && r.logical != "" ==> Flat(named, t, Obj(map[r.kind + "." + r.logical := v])) == inner)
  {
    var b := Resolve(named, t).branches[i];
    FindsTheBranch(named, Resolve(named, t).branches, i);
    Peeled(named, t, BranchName(Resolve(named, b)), b, v);
  }

  lemma Peeled(named: Names, t: AvroType, key: string, b: AvroType, v: Value)
    requires Resolve(named, t).Union? && FindBranch(named, Resolve(named, t).branches, key) == Some(b)
    ensures Flat(named, t, Obj(map[key := v])) == Flat(named, b, v)
  {
    var members := map[key := v];
    assert key in members.Keys;
    assert members.Keys == {key} && |members| == 1 && OnlyKey(members) == key;
  }

  /** Instants become milliseconds, rounded down. */
  lemma InstantValues(named: Names, n: int)
    ensures Flat(named, Primitive("long", "timestamp-millis"), Leaf(Moment(n * 1_000_000))) == Some(Leaf(Long(n)))
    ensures exists m :: 0 <= n - 1000 * m < 1000
                        && Flat(named, Primitive("long", "timestamp-micros"), Leaf(Moment(n * 1000)))
                           == Some(Leaf(Long(m)))
  {
    MicrosDown(n);
    assert n * 1_000_000 / NANOS_PER_MILLI == n;
    var m := n * 1000 / NANOS_PER_MILLI;
    assert Flat(named, Primitive("long", "timestamp-micros"), Leaf(Moment(n * 1000))) == Some(Leaf(Long(m)));
  }

  /** Spans become milliseconds, rounded towards zero. */
  lemma SpanValues(named: Names, n: int)
    ensures Flat(named, Primitive("int", "time-millis"), Leaf(Span(n * 1_000_000))) == Some(Leaf(Long(n)))
    ensures exists m :: (if n >= 0 then 0 <= n - 1000 * m < 1000 else 0 <= 1000 * m - n < 1000)
                        && Flat(named, Primitive("long", "time-micros"), Leaf(Span(n * 1000))) == Some(Leaf(Long(m)))
  {
    MicrosToZero(n);
    assert n * 1_000_000 / NANOS_PER_MILLI == n && (-n) * 1_000_000 / NANOS_PER_MILLI == -n;
    var m := Milliseconds(n * 1000);
    assert Flat(named, Primitive("long", "time-micros"), Leaf(Span(n * 1000))) == Some(Leaf(Long(m)));
  }

  /** Days become dates, and ratios are written with eighteen decimals. */
  lemma TextValues(named: Names, n: int, den: Positive)
    ensures Flat(named, Primitive("int", "date"), Leaf(Moment(n * 86_400_000_000_000))) == Some(Leaf(Str(DateText(n))))
    ensures Flat(named, Primitive("bytes", "decimal"), Leaf(Ratio(n, den))) == Some(Leaf(Str(FixedPoint(n, den))))
  {
    assert n * 86_400_000_000_000 / NANOS_PER_DAY == n;
  }

  /** Everything else stays as it is. */
  lemma PlainValues(named: Names, t: AvroType, s: Scalar)
    requires t.Primitive? || t.Named?
    requires s.Str? || s.Int? || s.Long? || s.Float? || s.Double? || s.Bool? || s.Bytes?
    ensures Flat(named, t, Leaf(s)) == Some(Leaf(s))
  {
  }

  lemma MicrosDown(n: int)
    ensures 0 <= n - 1000 * (n * 1000 / NANOS_PER_MILLI) < 1000
  {
  }

  lemma MicrosToZero(n: int)
    ensures var m := Milliseconds(n * 1000);
            if n >= 0 then 0 <= n - 1000 * m < 1000 else 0 <= 1000 * m - n < 1000
  {
    MicrosDown(n);
    MicrosDown(-n);
    assert n < 0 ==> -(n * 1000) == (-n) * 1000;
  }
}
