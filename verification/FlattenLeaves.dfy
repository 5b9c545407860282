/**
 What flattening makes of the leaves: which types of leaves can yield the same
 result, and which types have two values that yield the same.
 */
module FlattenLeaves {
  import opened Numerals
  import opened Calendar
  import opened Flatten
  import opened FlattenProofs

  /** The kinds of results. A symbol is a name, a date and a ratio have their own
      look, and a string may look like any of them. */
  datatype Class =
    | AnyText | SymbolText | DayText | RatioText
    | IntNumber | LongNumber | FloatNumber | DoubleNumber
    | Truth | Octets

  predicate IsLeaf(t: AvroType) { (t.Primitive? && t.kind in PRIMITIVES && t.kind != "null") || t.Named? }

  predicate LeafFits(t: AvroType, s: Scalar)
    requires IsLeaf(t)
  {
    if t.Primitive? then PrimitiveFits(t.kind, t.logical, s) else NamedFits(t.kind, t.logical, s)
  }

  function PrimitiveClass(kind: string, logical: string): Class {
    if kind == "string" then AnyText
    else if kind == "bytes" then if logical == "decimal" then RatioText else Octets
    else if kind == "boolean" then Truth
    else if kind == "float" then FloatNumber
    else if kind == "double" then DoubleNumber
    else if kind == "int" && logical == "date" then DayText
    else if kind == "int" && logical != "time-millis" then IntNumber
    else LongNumber
  }

  function ClassOf(t: AvroType): Class
    requires IsLeaf(t)
  {
    if t.Primitive? then PrimitiveClass(t.kind, t.logical)
    else if t.kind == "enum" then SymbolText
    else if t.logical == "decimal" then RatioText
    else Octets
  }

  /** Results keep milliseconds and eighteen decimals, nothing finer. */
  predicate Loses(t: AvroType)
    requires IsLeaf(t)
  {
    || ClassOf(t).RatioText?
    || (t.Primitive? && t.kind == "long" && (t.logical == "timestamp-micros" || t.logical == "time-micros"))
  }

  predicate Textual(c: Class) { c.AnyText? || c.SymbolText? || c.DayText? || c.RatioText? }

  predicate Alike(a: Class, b: Class) {
    a == b || (a.AnyText? && Textual(b)) || (b.AnyText? && Textual(a))
  }

  predicate InClass(c: Class, s: Scalar) {
    match c
    case AnyText => s.Str?
    case SymbolText => s.Str? && IsName(s.s)
    case DayText => s.Str? && DateChars(s.s) && '-' in s.s
    case RatioText => s.Str? && '.' in s.s
    case IntNumber => s.Int?
    case LongNumber => s.Long?
    case FloatNumber => s.Float?
    case DoubleNumber => s.Double?
    case Truth => s.Bool?
    case Octets => s.Bytes?
  }

  lemma ConvertsInto(t: AvroType, s: Scalar)
    requires IsLeaf(t) && LeafFits(t, s)
    ensures InClass(ClassOf(t), ConvertScalar(t, s))
  {
    if s.Ratio? {
      FixedPointHasPoint(s.num, s.den);
    } else if s.Moment? && t.logical == "date" {
      DateTextShape(s.nanos / NANOS_PER_DAY);
    }
  }

  /** Results of unlike classes differ. */
  lemma ClassesApart(a: Class, b: Class, s: Scalar)
    requires InClass(a, s) && InClass(b, s)
    ensures Alike(a, b)
  {
    if s.Str? && IsName(s.s) {
      assert forall i :: 0 <= i < |s.s| ==> s.s[i] != '-' && s.s[i] != '.';
    }
  }

  /** A value of the type that needs no care. */
  function Zero(t: AvroType): Scalar
    requires IsLeaf(t)
  {
    match ClassOf(t)
    case AnyText => Str("A")
    case SymbolText => Str("A")
    case DayText => Moment(0)
    case RatioText => Ratio(0, 1)
    case FloatNumber => Float(0.0)
    case DoubleNumber => Double(0.0)
    case IntNumber => Int(0)
    case Truth => Bool(false)
    case Octets => Bytes([])
    case LongNumber =>
      if t.kind == "int" || t.logical == "time-micros" then Span(0)
      else if t.logical == "timestamp-millis" || t.logical == "timestamp-micros" then Moment(0)
      else Long(0)
  }

  lemma ZeroFits(t: AvroType)
    requires IsLeaf(t)
    ensures LeafFits(t, Zero(t))
    ensures ClassOf(t).LongNumber? ==> ConvertScalar(t, Zero(t)) == Long(0)
    ensures ClassOf(t).RatioText? ==> ConvertScalar(t, Zero(t)) == Str(FixedPoint(0, 1))
    ensures ClassOf(t).DayText? ==> ConvertScalar(t, Zero(t)) == Str(DateText(0))
    ensures !ClassOf(t).LongNumber? && !ClassOf(t).RatioText? && !ClassOf(t).DayText? ==>
              ConvertScalar(t, Zero(t)) == Zero(t)
  {
  }

  lemma TextIsString(t: AvroType)
    requires IsLeaf(t) && ClassOf(t).AnyText?
    ensures forall text :: LeafFits(t, Str(text)) && ConvertScalar(t, Str(text)) == Str(text)
  {
  }

  /** Types of like classes have values with the same result. */
  lemma LeavesMeet(a: AvroType, b: AvroType) returns (x: Scalar, y: Scalar)
    requires IsLeaf(a) && IsLeaf(b) && Alike(ClassOf(a), ClassOf(b))
    ensures LeafFits(a, x) && LeafFits(b, y) && ConvertScalar(a, x) == ConvertScalar(b, y)
  {
    x, y := Zero(a), Zero(b);
    ZeroFits(a);
    ZeroFits(b);
    ConvertsInto(a, x);
    ConvertsInto(b, y);
    if ClassOf(a).AnyText? {
      TextIsString(a);
      x := ConvertScalar(b, y);
    } else if ClassOf(b).AnyText? {
      TextIsString(b);
      y := ConvertScalar(a, x);
    }
  }

  /** Except where precision is dropped, leaves of one type keep their values apart. */
  lemma LeavesKept(t: AvroType, x: Scalar, y: Scalar)
    requires IsLeaf(t) && !Loses(t) && LeafFits(t, x) && LeafFits(t, y)
    requires ConvertScalar(t, x) == ConvertScalar(t, y)
    ensures x == y
  {
    if x.Moment? && y.Moment? && t.logical == "date" {
      DateTextInjective(x.nanos / NANOS_PER_DAY, y.nanos / NANOS_PER_DAY);
    }
  }

  lemma LeavesLost(t: AvroType) returns (x: Scalar, y: Scalar)
    requires IsLeaf(t) && Loses(t)
    ensures LeafFits(t, x) && LeafFits(t, y) && x != y && ConvertScalar(t, x) == ConvertScalar(t, y)
  {
    if ClassOf(t).RatioText? {
      FixedPointRounds();
      x, y := Ratio(1, 10 * SCALE), Ratio(0, 1);
    } else if t.logical == "timestamp-micros" {
      x, y := Moment(0), Moment(MICRO);
    } else {
      x, y := Span(0), Span(MICRO);
    }
  }
}
