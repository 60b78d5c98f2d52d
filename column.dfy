/**
 * The directive-free column of pkg/plugin/column.go, an older copy of the
 * attribute logic. Its methods are proved against Create and AppendStep with
 * the empty directive, which shows it behaves exactly as an Attribute
 * whose directive is "".
 */
module Columns {
  import opened Types
  import opened Utils
  import opened Fields
  import opened Attributes

  class Column {
    const name: string
    var field: Field

    ghost predicate Valid()
      reads this
    {
      field.name == name && WellTyped(field)
    }

    constructor (name: string, field: Field)
      requires field.name == name && WellTyped(field)
      ensures Valid() && this.name == name && this.field == field
    {
      this.name := name;
      this.field := field;
    }

    function Type(): FieldType
      reads this
    {
      field.ftype
    }

    function Size(): nat
      reads this
    {
      |field.values|
    }

    /**
     * AppendValue: the type check and append of Append without datetime
     * directives, including the Int64-to-Float64 rebuild.
     */
    method AppendValue(v: AttributeValue, env: Env) returns (err: Option<Error>)
      requires Valid()
      modifies this
      ensures Valid()
      ensures err.None? ==> AppendStep(old(field), "", v, env) == Ok(field)
      ensures err.Some? ==> AppendStep(old(field), "", v, env) == Err(err.value) && field == old(field)
      ensures err.None? ==> Size() == old(Size()) + 1
    {
      match v {
      case S(s) =>
        if Type() != NullableString {
          return Some(TypeMismatch(name, Type(), "S"));
        }
        field := Push(field, Some(VString(s)));
      case N(n) =>
        var num := ParseNumber(n, env);
        if num.Err? {
          return Some(num.error);
        }
        match num.value {
        case Int(i) =>
          if Type() == NullableInt64 {
            field := Push(field, Some(VInt64(i)));
          } else if Type() == NullableFloat64 {
            field := Push(field, Some(VFloat64(env.intToFloat(i))));
          } else {
            return Some(TypeMismatch(name, Type(), "N"));
          }
        case Float(x) =>
          if Type() == NullableFloat64 {
            field := Push(field, Some(VFloat64(x)));
          } else if Type() == NullableInt64 {
            var float64Values := WidenValues(field, x, env);
            field := Field(name, NullableFloat64, float64Values);
          } else {
            return Some(TypeMismatch(name, Type(), "N"));
          }
        }
      case B(_) =>
        if Type() != NullableString {
          return Some(TypeMismatch(name, Type(), "B"));
        }
        field := Push(field, Some(VString("[B]")));
      case BOOL(b) =>
        if Type() != NullableBool {
          return Some(TypeMismatch(name, Type(), "BOOL"));
        }
        field := Push(field, Some(VBool(b)));
      case NULL =>
        field := Push(field, None);
      case M(m) =>
        if Type() != NullableJSON {
          return Some(TypeMismatch(name, Type(), "M"));
        }
        var j := env.mapToJson(m);
        if j.None? {
          return Some(EncodeFailed);
        }
        field := Push(field, Some(VJson(j.value)));
      case L(l) =>
        if Type() != NullableJSON {
          return Some(TypeMismatch(name, Type(), "L"));
        }
        var j := env.listToJson(l);
        if j.None? {
          return Some(EncodeFailed);
        }
        field := Push(field, Some(VJson(j.value)));
      case SS(ss) =>
        if Type() != NullableJSON {
          return Some(TypeMismatch(name, Type(), "SS"));
        }
        // json.Marshal of a string slice cannot fail: StringSetToJson is always Ok.
        var j := StringSetToJson(ss);
        field := Push(field, Some(VJson(j.value)));
      case NS(ns) =>
        if Type() != NullableJSON {
          return Some(TypeMismatch(name, Type(), "NS"));
        }
        var j := NumberSetToJson(ns, env);
        if j.Err? {
          return Some(j.error);
        }
        field := Push(field, Some(VJson(j.value)));
      case BS(_) =>
        if Type() != NullableString {
          return Some(TypeMismatch(name, Type(), "BS"));
        }
        field := Push(field, Some(VString("[BS]")));
      }
      return None;
    }
  }

  /** NewColumn: NewAttribute without a directive. */
  method NewColumn(rowIndex: nat, name: string, v: AttributeValue, env: Env) returns (r: Result<Option<Column>>)
    ensures Create(rowIndex, name, v, "", env).Err? ==> r == Err(Create(rowIndex, name, v, "", env).error)
    ensures Create(rowIndex, name, v, "", env) == Ok(None) ==> r == Ok(None)
    ensures Create(rowIndex, name, v, "", env).Ok? && Create(rowIndex, name, v, "", env).value.Some? ==>
      r.Ok? && r.value.Some? && fresh(r.value.value) && r.value.value.Valid() &&
      r.value.value.name == name && r.value.value.field == Create(rowIndex, name, v, "", env).value.value
  {
    var field: Field;
    match v {
    case S(s) =>
      field := NewField(rowIndex, name, NullableString, VString(s));
    case N(n) =>
      var num := ParseNumber(n, env);
      if num.Err? {
        return Err(num.error);
      }
      match num.value {
      case Int(i) =>
        field := NewField(rowIndex, name, NullableInt64, VInt64(i));
      case Float(x) =>
        field := NewField(rowIndex, name, NullableFloat64, VFloat64(x));
      }
    case B(_) =>
      field := NewField(rowIndex, name, NullableString, VString("[B]"));
    case BOOL(b) =>
      field := NewField(rowIndex, name, NullableBool, VBool(b));
    case NULL =>
      return Ok(None);
    case M(m) =>
      var j := env.mapToJson(m);
      if j.None? {
        return Err(EncodeFailed);
      }
      field := NewField(rowIndex, name, NullableJSON, VJson(j.value));
    case L(l) =>
      var j := env.listToJson(l);
      if j.None? {
        return Err(EncodeFailed);
      }
      field := NewField(rowIndex, name, NullableJSON, VJson(j.value));
    case SS(ss) =>
      // json.Marshal of a string slice cannot fail: StringSetToJson is always Ok.
      var j := StringSetToJson(ss);
      field := NewField(rowIndex, name, NullableJSON, VJson(j.value));
    case NS(ns) =>
      var j := NumberSetToJson(ns, env);
      if j.Err? {
        return Err(j.error);
      }
      field := NewField(rowIndex, name, NullableJSON, VJson(j.value));
    case BS(_) =>
      field := NewField(rowIndex, name, NullableString, VString("[BS]"));
    }
    var c := new Column(name, field);
    return Ok(Some(c));
  }

  /**
   * Without a directive a first numeric value fixes the type: Int64 for an
   * int64 text, Float64 for any other number text.
   */
  lemma FirstNumberFixesType(rowIndex: nat, name: string, n: string, env: Env)
    requires ParseNumber(n, env).Ok?
    ensures Create(rowIndex, name, N(n), "", env).Ok? && Create(rowIndex, name, N(n), "", env).value.Some?
    ensures Create(rowIndex, name, N(n), "", env).value.value.ftype ==
      if ParseInt64(n).Some? then NullableInt64 else NullableFloat64
  {
  }

  /** The column type each kind other than N and NULL needs, read off the kind alone. */
  function KindType(v: AttributeValue): FieldType
    requires !v.N? && !v.NULL?
  {
    match v
    case S(_) => NullableString
    case B(_) => NullableString
    case BOOL(_) => NullableBool
    case M(_) => NullableJSON
    case L(_) => NullableJSON
    case SS(_) => NullableJSON
    case NS(_) => NullableJSON
    case BS(_) => NullableString
  }

  /**
   * The type check comes before any decoding: a kind whose type is not the
   * column's is a mismatch even when its value would not decode, and a number
   * that parses is a mismatch in any column but Int64 and Float64. A kind whose
   * type is the column's and that needs no encoder is always appended.
   */
  lemma ColumnMismatch(f: Field, v: AttributeValue, env: Env)
    requires WellTyped(f)
    ensures !v.N? && !v.NULL? && KindType(v) != f.ftype ==>
      AppendStep(f, "", v, env) == Err(TypeMismatch(f.name, f.ftype, Tag(v)))
    ensures v.N? && ParseNumber(v.n, env).Ok? && f.ftype != NullableInt64 && f.ftype != NullableFloat64 ==>
      AppendStep(f, "", v, env) == Err(TypeMismatch(f.name, f.ftype, "N"))
    ensures !v.N? && !v.NULL? && KindType(v) == f.ftype && !v.M? && !v.L? && !v.NS? ==>
      AppendStep(f, "", v, env).Ok?
  {
  }
}
