/**
 * One column of the frame under construction, with its datetime directive
 * (pkg/plugin/attribute.go). Create and AppendStep say what NewAttribute and
 * Append compute; the class Attribute and NewAttribute are proved against them.
 */
module Attributes {
  import opened Types
  import opened Utils
  import opened Fields

  /** A directive other than "", "1" and "2" is a Go time layout. */
  predicate IsLayout(format: string): (r: bool)
    ensures r <==> format !in {"", UnixTimestampSeconds, UnixTimestampMilliseconds}
  {
    format != "" && format != UnixTimestampMilliseconds && format != UnixTimestampSeconds
  }

  /** Go's integer `/`: the quotient rounded toward zero. */
  function TruncDiv(a: int, b: int): int
    requires b > 0
  {
    if a >= 0 then a / b else -((-a) / b)
  }

  /** Go's integer `%`: the remainder takes the sign of the dividend. */
  function TruncMod(a: int, b: int): int
    requires b > 0
  {
    if a >= 0 then a % b else -((-a) % b)
  }

  lemma TruncDivMod(a: int, b: int)
    requires b > 0
    ensures TruncDiv(a, b) * b + TruncMod(a, b) == a
    ensures -b < TruncMod(a, b) < b
    ensures a >= 0 ==> TruncMod(a, b) >= 0
    ensures a < 0 ==> TruncMod(a, b) <= 0
  {
    if a < 0 {
      var q, m := (-a) / b, (-a) % b;
      assert q * b + m == -a;
      assert -(q * b) == (-q) * b;
    }
  }

  /** `time.Unix(i, 0)` */
  function UnixSecondsTime(i: int): (t: Time)
    ensures t.seconds * 1000000000 + t.nanos == i * 1000000000 && t.nanos == 0
  {
    Time(i, 0)
  }

  /** `time.Unix(i / 1000, (i % 1000) * 1000000)` with Go's truncating operators. */
  function UnixMillisTime(i: int): (t: Time)
    ensures t.seconds * 1000000000 + t.nanos == i * 1000000
    ensures -1000000000 < t.nanos < 1000000000
  {
    TruncDivMod(i, 1000);
    Time(TruncDiv(i, 1000), TruncMod(i, 1000) * 1000000)
  }

  /**
   * The milliseconds split loses nothing: seconds and nanoseconds recombine to
   * i, and the pair denotes exactly i milliseconds after the epoch even for a
   * negative i, whose nanoseconds come out negative.
   */
  lemma UnixMillisExact(i: int)
    ensures UnixMillisTime(i).seconds * 1000 + UnixMillisTime(i).nanos / 1000000 == i
    ensures UnixMillisTime(i).seconds * 1000000000 + UnixMillisTime(i).nanos == i * 1000000
    ensures -1000000000 < UnixMillisTime(i).nanos < 1000000000
    ensures i >= 0 ==> UnixMillisTime(i).nanos >= 0
  {
    TruncDivMod(i, 1000);
    var m := TruncMod(i, 1000);
    assert (m * 1000000) / 1000000 == m;
  }

  /** -500 ms splits into 0 seconds and -500000000 nanoseconds: no normalisation here. */
  lemma UnixMillisNegative()
    ensures UnixMillisTime(-500) == Time(0, -500000000)
  {
  }

  /** The kind name an Append error reports for a value. */
  function Tag(v: AttributeValue): string {
    match v
    case S(_) => "S"
    case N(_) => "N"
    case B(_) => "B"
    case BOOL(_) => "BOOL"
    case NULL => "NULL"
    case M(_) => "M"
    case L(_) => "L"
    case SS(_) => "SS"
    case NS(_) => "NS"
    case BS(_) => "BS"
  }

  /** A JSON encoder outcome as a column outcome. */
  function JsonField(rowIndex: nat, name: string, j: Option<Json>): Result<Option<Field>> {
    match j
    case None => Err(EncodeFailed)
    case Some(doc) => Ok(Some(NewField(rowIndex, name, NullableJSON, VJson(doc))))
  }

  /**
   * What NewAttribute(rowIndex, name, v, format) computes: an error, no column
   * (for NULL), or a column of length rowIndex+1 holding the decoded value last.
   */
  function Create(rowIndex: nat, name: string, v: AttributeValue, format: string, env: Env): (r: Result<Option<Field>>)
    ensures r == Ok(None) <==> v.NULL?
    ensures r.Ok? && r.value.Some? ==>
      var f := r.value.value;
      f.name == name && WellTyped(f) && |f.values| == rowIndex + 1 &&
      f.values[rowIndex].Some? && forall k :: 0 <= k < rowIndex ==> f.values[k].None?
  {
    match v
    case S(s) =>
      if IsLayout(format) then
        (match env.parseTime(format, s)
         case None => Err(TimeParseFailed(format, s))
         case Some(t) => Ok(Some(NewField(rowIndex, name, NullableTime, VTime(t)))))
      else Ok(Some(NewField(rowIndex, name, NullableString, VString(s))))
    case N(n) =>
      (match ParseNumber(n, env)
       case Err(e) => Err(e)
       case Ok(Int(i)) =>
         if format == UnixTimestampSeconds then
           Ok(Some(NewField(rowIndex, name, NullableTime, VTime(UnixSecondsTime(i)))))
         else if format == UnixTimestampMilliseconds then
           Ok(Some(NewField(rowIndex, name, NullableTime, VTime(UnixMillisTime(i)))))
         else if format != "" then Err(InvalidDatetimeFormat)
         else Ok(Some(NewField(rowIndex, name, NullableInt64, VInt64(i))))
       case Ok(Float(x)) => Ok(Some(NewField(rowIndex, name, NullableFloat64, VFloat64(x)))))
    case B(_) => Ok(Some(NewField(rowIndex, name, NullableString, VString("[B]"))))
    case BOOL(b) => Ok(Some(NewField(rowIndex, name, NullableBool, VBool(b))))
    case NULL => Ok(None)
    case M(m) => JsonField(rowIndex, name, env.mapToJson(m))
    case L(l) => JsonField(rowIndex, name, env.listToJson(l))
    case SS(ss) =>
      Ok(Some(NewField(rowIndex, name, NullableJSON, VJson(StringSetToJson(ss).value))))
    case NS(ns) =>
      (match NumberSetJson(ns, env)
       case Err(e) => Err(e)
       case Ok(doc) => Ok(Some(NewField(rowIndex, name, NullableJSON, VJson(doc)))))
    case BS(_) => Ok(Some(NewField(rowIndex, name, NullableString, VString("[BS]"))))
  }

  /** Push x if f has type t, else the type-mismatch error for v. */
  function Expect(f: Field, t: FieldType, v: AttributeValue, x: Value): (r: Result<Field>)
    requires WellTyped(f) && HasType(x, t)
  {
    if f.ftype != t then Err(TypeMismatch(f.name, f.ftype, Tag(v))) else Ok(Push(f, Some(x)))
  }

  /** A JSON encoder outcome appended to a JSON field. */
  function PushJson(f: Field, j: Option<Json>): Result<Field>
    requires WellTyped(f) && f.ftype == NullableJSON
  {
    match j
    case None => Err(EncodeFailed)
    case Some(doc) => Ok(Push(f, Some(VJson(doc))))
  }

  /**
   * What Append(v) does to a field under directive `format`: the field one slot
   * longer, or the error. The type may change only from Int64 to Float64, and
   * the null slots stay exactly where they were.
   */
  function AppendStep(f: Field, format: string, v: AttributeValue, env: Env): (r: Result<Field>)
    requires WellTyped(f)
    ensures r.Ok? ==> WellTyped(r.value) && r.value.name == f.name && |r.value.values| == |f.values| + 1
    ensures r.Ok? ==> r.value.ftype == f.ftype || (f.ftype == NullableInt64 && r.value.ftype == NullableFloat64)
    ensures r.Ok? ==> forall k :: 0 <= k < |f.values| ==> (r.value.values[k].None? <==> f.values[k].None?)
    ensures r.Ok? && r.value.ftype == f.ftype ==> r.value.values[..|f.values|] == f.values
    ensures r.Ok? ==> (r.value.values[|f.values|].None? <==> v.NULL?)
  {
    match v
    case S(s) =>
      if IsLayout(format) then
        if f.ftype != NullableTime then Err(TypeMismatch(f.name, f.ftype, "S"))
        else
          (match env.parseTime(format, s)
           case None => Err(TimeParseFailed(format, s))
           case Some(t) => Ok(Push(f, Some(VTime(t)))))
      else Expect(f, NullableString, v, VString(s))
    case N(n) =>
      (match ParseNumber(n, env)
       case Err(e) => Err(e)
       case Ok(Int(i)) =>
         if format == UnixTimestampSeconds then Expect(f, NullableTime, v, VTime(UnixSecondsTime(i)))
         else if format == UnixTimestampMilliseconds then Expect(f, NullableTime, v, VTime(UnixMillisTime(i)))
         else if format != "" then Err(InvalidDatetimeFormat)
         else if f.ftype == NullableInt64 then Ok(Push(f, Some(VInt64(i))))
         else if f.ftype == NullableFloat64 then Ok(Push(f, Some(VFloat64(env.intToFloat(i)))))
         else Err(TypeMismatch(f.name, f.ftype, "N"))
       case Ok(Float(x)) =>
         if f.ftype == NullableFloat64 then Ok(Push(f, Some(VFloat64(x))))
         else if f.ftype == NullableInt64 then Ok(Widen(f, x, env))
         else Err(TypeMismatch(f.name, f.ftype, "N")))
    case B(_) => Expect(f, NullableString, v, VString("[B]"))
    case BOOL(b) => Expect(f, NullableBool, v, VBool(b))
    case NULL => Ok(Push(f, None))
    case M(m) =>
      if f.ftype != NullableJSON then Err(TypeMismatch(f.name, f.ftype, "M")) else PushJson(f, env.mapToJson(m))
    case L(l) =>
      if f.ftype != NullableJSON then Err(TypeMismatch(f.name, f.ftype, "L")) else PushJson(f, env.listToJson(l))
    case SS(ss) =>
      if f.ftype != NullableJSON then Err(TypeMismatch(f.name, f.ftype, "SS"))
      else
        Ok(Push(f, Some(VJson(StringSetToJson(ss).value))))
    case NS(ns) =>
      if f.ftype != NullableJSON then Err(TypeMismatch(f.name, f.ftype, "NS"))
      else
        (match NumberSetJson(ns, env)
         case Err(e) => Err(e)
         case Ok(doc) => Ok(Push(f, Some(VJson(doc)))))
    case BS(_) => Expect(f, NullableString, v, VString("[BS]"))
  }

  /**
   * Append against NewAttribute: take the column NewAttribute would build for v
   * at the field's next row. If that fails, Append fails; NULL appends a null;
   * a value of the field's own type is appended as NewAttribute decodes it; an
   * integer under Float64 is stored as its float; a float under Int64 widens;
   * any other kind is a type mismatch naming the field, its type and the kind.
   */
  lemma AppendVersusCreate(f: Field, format: string, v: AttributeValue, env: Env)
    requires WellTyped(f)
    ensures Create(|f.values|, f.name, v, format, env).Err? ==> AppendStep(f, format, v, env).Err?
    ensures v.NULL? ==> AppendStep(f, format, v, env) == Ok(Push(f, None))
    ensures Create(|f.values|, f.name, v, format, env).Ok? && Create(|f.values|, f.name, v, format, env).value.Some? ==>
      var g := Create(|f.values|, f.name, v, format, env).value.value;
      var x := g.values[|f.values|];
      AppendStep(f, format, v, env) ==
        if g.ftype == f.ftype then Ok(Push(f, x))
        else if f.ftype == NullableInt64 && g.ftype == NullableFloat64 then Ok(Widen(f, x.value.f, env))
        else if f.ftype == NullableFloat64 && g.ftype == NullableInt64 then Ok(Push(f, Some(VFloat64(env.intToFloat(x.value.i)))))
        else Err(TypeMismatch(f.name, f.ftype, Tag(v)))
  {
    match v
    case S(s) =>
    case N(n) =>
    case B(_) =>
    case BOOL(b) =>
    case NULL =>
    case M(m) =>
    case L(l) =>
    case SS(ss) =>
    case NS(ns) =>
    case BS(_) =>
  }

  /**
   * The datetime directives on an integer N value: "1" gives time.Unix(i, 0),
   * "2" gives the truncating milliseconds split, any other non-empty directive
   * is "invalid datetime format", and no directive gives an Int64 column.
   */
  lemma CreateIntegerDirectives(rowIndex: nat, name: string, n: string, format: string, env: Env)
    requires ParseInt64(n).Some?
    ensures var i := ParseInt64(n).value;
      var r := Create(rowIndex, name, N(n), format, env);
      (format == UnixTimestampSeconds ==> r == Ok(Some(NewField(rowIndex, name, NullableTime, VTime(Time(i, 0)))))) &&
      (format == UnixTimestampMilliseconds ==>
        r.Ok? && r.value.Some? && r.value.value.ftype == NullableTime &&
        var t := r.value.value.values[rowIndex].value.t;
        t.seconds * 1000 + t.nanos / 1000000 == i) &&
      (IsLayout(format) ==> r == Err(InvalidDatetimeFormat)) &&
      (format == "" ==> r == Ok(Some(NewField(rowIndex, name, NullableInt64, VInt64(i)))))
  {
    UnixMillisExact(ParseInt64(n).value);
  }

  /**
   * An S value under a layout directive becomes a Time column through
   * time.Parse, and a failed parse is an error; under no directive or a unix
   * directive it stays a String column.
   */
  lemma CreateStringDirectives(rowIndex: nat, name: string, s: string, format: string, env: Env)
    ensures IsLayout(format) && env.parseTime(format, s).Some? ==>
      Create(rowIndex, name, S(s), format, env) == Ok(Some(NewField(rowIndex, name, NullableTime, VTime(env.parseTime(format, s).value))))
    ensures IsLayout(format) && env.parseTime(format, s).None? ==>
      Create(rowIndex, name, S(s), format, env) == Err(TimeParseFailed(format, s))
    ensures !IsLayout(format) ==>
      Create(rowIndex, name, S(s), format, env) == Ok(Some(NewField(rowIndex, name, NullableString, VString(s))))
  {
  }

  /**
   * The first numeric value fixes the type: Int64 for an int64 text, Float64
   * otherwise; a non-integer number ignores the datetime directive.
   */
  lemma CreateNumberType(rowIndex: nat, name: string, n: string, format: string, env: Env)
    ensures ParseInt64(n).Some? && format == "" ==>
      Create(rowIndex, name, N(n), format, env).Ok? && Create(rowIndex, name, N(n), format, env).value.value.ftype == NullableInt64
    ensures ParseInt64(n).None? && env.parseFloat(n).Some? ==>
      Create(rowIndex, name, N(n), format, env) == Ok(Some(NewField(rowIndex, name, NullableFloat64, VFloat64(env.parseFloat(n).value))))
    ensures ParseInt64(n).None? && env.parseFloat(n).None? ==>
      Create(rowIndex, name, N(n), format, env) == Err(ParseNumberFailed(n))
  {
  }

  /** Binary values are stored as the placeholders "[B]" and "[BS]" in a String column. */
  lemma BinaryPlaceholders(f: Field, format: string, env: Env, b: seq<bv8>, bs: seq<seq<bv8>>)
    requires WellTyped(f)
    ensures Create(|f.values|, f.name, B(b), format, env) == Ok(Some(NewField(|f.values|, f.name, NullableString, VString("[B]"))))
    ensures Create(|f.values|, f.name, BS(bs), format, env) == Ok(Some(NewField(|f.values|, f.name, NullableString, VString("[BS]"))))
    ensures AppendStep(f, format, B(b), env).Ok? <==> f.ftype == NullableString
    ensures AppendStep(f, format, BS(bs), env).Ok? <==> f.ftype == NullableString
  {
  }

  /**
   * Widening: a float arriving at an Int64 column turns it into Float64, one
   * slot longer, every earlier integer k replaced by float64(k), every null kept.
   */
  lemma WideningConvertsHistory(f: Field, format: string, n: string, env: Env)
    requires WellTyped(f) && f.ftype == NullableInt64
    requires ParseInt64(n).None? && env.parseFloat(n).Some?
    ensures var r := AppendStep(f, format, N(n), env);
      r.Ok? && r.value.ftype == NullableFloat64 && |r.value.values| == |f.values| + 1 &&
      r.value.values[|f.values|] == Some(VFloat64(env.parseFloat(n).value)) &&
      (forall k :: 0 <= k < |f.values| && f.values[k].None? ==> r.value.values[k].None?) &&
      (forall k :: 0 <= k < |f.values| && f.values[k].Some? ==>
        r.value.values[k] == Some(VFloat64(env.intToFloat(f.values[k].value.i))))
  {
  }

  /**
   * The only append that changes a column's type is the widening rebuild: a
   * non-integer N arriving at an Int64 column.
   */
  lemma TypeChangeIsWiden(f: Field, format: string, v: AttributeValue, env: Env)
    requires WellTyped(f)
    ensures var r := AppendStep(f, format, v, env);
      r.Ok? && r.value.ftype != f.ftype ==>
        f.ftype == NullableInt64 && v.N? && ParseNumber(v.n, env).Ok? && ParseNumber(v.n, env).value.Float? &&
        r.value == Widen(f, ParseNumber(v.n, env).value.f, env)
  {
  }

  /** An integer appended to a Float64 column is stored as its float; the type stays Float64. */
  lemma IntegerIntoFloatColumn(f: Field, n: string, env: Env)
    requires WellTyped(f) && f.ftype == NullableFloat64
    requires ParseInt64(n).Some?
    ensures AppendStep(f, "", N(n), env) == Ok(Push(f, Some(VFloat64(env.intToFloat(ParseInt64(n).value)))))
  {
  }

  /**
   * One element of the frame under construction: the column's name, its field
   * and the datetime directive captured when the column was created.
   */
  class Attribute {
    const name: string
    var value: Field
    const tsFormat: string

    ghost predicate Valid()
      reads this
    {
      value.name == name && WellTyped(value)
    }

    constructor (name: string, value: Field, tsFormat: string)
      requires value.name == name && WellTyped(value)
      ensures Valid()
      ensures this.name == name && this.value == value && this.tsFormat == tsFormat
    {
      this.name := name;
      this.value := value;
      this.tsFormat := tsFormat;
    }

    function Type(): FieldType
      reads this
    {
      value.ftype
    }

    function Size(): nat
      reads this
    {
      |value.values|
    }

    /**
     * Append: type-check the value against the column, then append it; widen
     * an Int64 column when a float arrives. Every error return comes before
     * any change, so a failed Append leaves the field as it was.
     */
    method Append(v: AttributeValue, env: Env) returns (err: Option<Error>)
      requires Valid()
      modifies this
      ensures Valid()
      ensures err.None? ==> AppendStep(old(value), tsFormat, v, env) == Ok(value)
      ensures err.Some? ==> AppendStep(old(value), tsFormat, v, env) == Err(err.value) && value == old(value)
      ensures err.None? ==> Size() == old(Size()) + 1
    {
      match v {
      case S(s) =>
        if tsFormat != "" && tsFormat != UnixTimestampMilliseconds && tsFormat != UnixTimestampSeconds {
          if Type() != NullableTime {
            return Some(TypeMismatch(name, Type(), "S"));
          }
          var t := env.parseTime(tsFormat, s);
          if t.None? {
            return Some(TimeParseFailed(tsFormat, s));
          }
          value := Push(value, Some(VTime(t.value)));
        } else {
          if Type() != NullableString {
            return Some(TypeMismatch(name, Type(), "S"));
          }
          value := Push(value, Some(VString(s)));
        }
      case N(n) =>
        var num := ParseNumber(n, env);
        if num.Err? {
          return Some(num.error);
        }
        match num.value {
        case Int(i) =>
          if tsFormat == UnixTimestampSeconds {
            if Type() != NullableTime {
              return Some(TypeMismatch(name, Type(), "N"));
            }
            value := Push(value, Some(VTime(UnixSecondsTime(i))));
          } else if tsFormat == UnixTimestampMilliseconds {
            if Type() != NullableTime {
              return Some(TypeMismatch(name, Type(), "N"));
            }
            value := Push(value, Some(VTime(UnixMillisTime(i))));
          } else if tsFormat != "" {
            return Some(InvalidDatetimeFormat);
          } else {
            if Type() == NullableInt64 {
              value := Push(value, Some(VInt64(i)));
            } else if Type() == NullableFloat64 {
              value := Push(value, Some(VFloat64(env.intToFloat(i))));
            } else {
              return Some(TypeMismatch(name, Type(), "N"));
            }
          }
        case Float(x) =>
          if Type() == NullableFloat64 {
            value := Push(value, Some(VFloat64(x)));
          } else if Type() == NullableInt64 {
            var float64Values := WidenValues(value, x, env);
            value := Field(name, NullableFloat64, float64Values);
          } else {
            return Some(TypeMismatch(name, Type(), "N"));
          }
        }
      case B(_) =>
        if Type() != NullableString {
          return Some(TypeMismatch(name, Type(), "B"));
        }
        value := Push(value, Some(VString("[B]")));
      case BOOL(b) =>
        if Type() != NullableBool {
          return Some(TypeMismatch(name, Type(), "BOOL"));
        }
        value := Push(value, Some(VBool(b)));
      case NULL =>
        value := Push(value, None);
      case M(m) =>
        if Type() != NullableJSON {
          return Some(TypeMismatch(name, Type(), "M"));
        }
        var j := env.mapToJson(m);
        if j.None? {
          return Some(EncodeFailed);
        }
        value := Push(value, Some(VJson(j.value)));
      case L(l) =>
        if Type() != NullableJSON {
          return Some(TypeMismatch(name, Type(), "L"));
        }
        var j := env.listToJson(l);
        if j.None? {
          return Some(EncodeFailed);
        }
        value := Push(value, Some(VJson(j.value)));
      case SS(ss) =>
        if Type() != NullableJSON {
          return Some(TypeMismatch(name, Type(), "SS"));
        }
        // json.Marshal of a string slice cannot fail: StringSetToJson is always Ok.
        var j := StringSetToJson(ss);
        value := Push(value, Some(VJson(j.value)));
      case NS(ns) =>
        if Type() != NullableJSON {
          return Some(TypeMismatch(name, Type(), "NS"));
        }
        var j := NumberSetToJson(ns, env);
        if j.Err? {
          return Some(j.error);
        }
        value := Push(value, Some(VJson(j.value)));
      case BS(_) =>
        if Type() != NullableString {
          return Some(TypeMismatch(name, Type(), "BS"));
        }
        value := Push(value, Some(VString("[BS]")));
      }
      return None;
    }
  }

  /**
   * NewAttribute: decode the first non-null value of a column seen at row
   * rowIndex. NULL gives neither an attribute nor an error.
   */
  method NewAttribute(rowIndex: nat, name: string, v: AttributeValue, datetimeFormat: string, env: Env)
    returns (r: Result<Option<Attribute>>)
    ensures Create(rowIndex, name, v, datetimeFormat, env).Err? ==> r == Err(Create(rowIndex, name, v, datetimeFormat, env).error)
    ensures Create(rowIndex, name, v, datetimeFormat, env) == Ok(None) ==> r == Ok(None)
    ensures Create(rowIndex, name, v, datetimeFormat, env).Ok? && Create(rowIndex, name, v, datetimeFormat, env).value.Some? ==>
      r.Ok? && r.value.Some? && fresh(r.value.value) && r.value.value.Valid() &&
      r.value.value.name == name && r.value.value.tsFormat == datetimeFormat &&
      r.value.value.value == Create(rowIndex, name, v, datetimeFormat, env).value.value
  {
    var field: Field;
    match v {
    case S(s) =>
      if datetimeFormat != "" && datetimeFormat != UnixTimestampMilliseconds && datetimeFormat != UnixTimestampSeconds {
        var t := env.parseTime(datetimeFormat, s);
        if t.None? {
          return Err(TimeParseFailed(datetimeFormat, s));
        }
        field := NewField(rowIndex, name, NullableTime, VTime(t.value));
      } else {
        field := NewField(rowIndex, name, NullableString, VString(s));
      }
    case N(n) =>
      var num := ParseNumber(n, env);
      if num.Err? {
        return Err(num.error);
      }
      match num.value {
      case Int(i) =>
        if datetimeFormat == UnixTimestampSeconds {
          field := NewField(rowIndex, name, NullableTime, VTime(UnixSecondsTime(i)));
        } else if datetimeFormat == UnixTimestampMilliseconds {
          field := NewField(rowIndex, name, NullableTime, VTime(UnixMillisTime(i)));
        } else if datetimeFormat != "" {
          return Err(InvalidDatetimeFormat);
        } else {
          field := NewField(rowIndex, name, NullableInt64, VInt64(i));
        }
      case Float(x) =>
        field := NewField(rowIndex, name, NullableFloat64, VFloat64(x));
      }
    case B(_) =>
      field := NewField(rowIndex, name, NullableString, VString("[B]"));
    case BOOL(b) =>
      field := NewField(rowIndex, name, NullableBool, VBool(b));
    case NULL =>
      return Ok(None);
    case M(m) =>
      var j := env.mapToJson(m);
      if j.None? {
        return Err(EncodeFailed);
      }
      field := NewField(rowIndex, name, NullableJSON, VJson(j.value));
    case L(l) =>
      var j := env.listToJson(l);
      if j.None? {
        return Err(EncodeFailed);
      }
      field := NewField(rowIndex, name, NullableJSON, VJson(j.value));
    case SS(ss) =>
      // json.Marshal of a string slice cannot fail: StringSetToJson is always Ok.
      var j := StringSetToJson(ss);
      field := NewField(rowIndex, name, NullableJSON, VJson(j.value));
    case NS(ns) =>
      var j := NumberSetToJson(ns, env);
      if j.Err? {
        return Err(j.error);
      }
      field := NewField(rowIndex, name, NullableJSON, VJson(j.value));
    case BS(_) =>
      field := NewField(rowIndex, name, NullableString, VString("[BS]"));
    }
    var a := new Attribute(name, field, datetimeFormat);
    return Ok(Some(a));
  }
}
