/**
 * The part of Grafana's `data.Field` the builder relies on: a named vector of
 * nullable values of one element type. Go's typed vectors (`[]*int64`, ...)
 * make a field homogeneous by construction; here homogeneity is the predicate
 * WellTyped, which every operation keeps.
 */
module Fields {
  import opened Types

  datatype Value =
    | VString(s: string)
    | VInt64(i: int)
    | VFloat64(f: Float64)
    | VBool(b: bool)
    | VTime(t: Time)
    | VJson(j: Json)

  datatype Field = Field(name: string, ftype: FieldType, values: seq<Option<Value>>)

  predicate HasType(v: Value, t: FieldType) {
    match v
    case VString(_) => t == NullableString
    case VInt64(_) => t == NullableInt64
    case VFloat64(_) => t == NullableFloat64
    case VBool(_) => t == NullableBool
    case VTime(_) => t == NullableTime
    case VJson(_) => t == NullableJSON
  }

  /** Every non-null slot holds a value of the field's declared type. */
  predicate WellTyped(f: Field) {
    forall k :: 0 <= k < |f.values| ==> f.values[k].Some? ==> HasType(f.values[k].value, f.ftype)
  }

  /**
   * `data.NewField(name, nil, make([]*T, rowIndex+1))` followed by
   * `field.Set(rowIndex, v)`: nulls everywhere but the last slot.
   */
  function NewField(rowIndex: nat, name: string, t: FieldType, v: Value): (f: Field)
    requires HasType(v, t)
    ensures WellTyped(f) && f.name == name && f.ftype == t
    ensures |f.values| == rowIndex + 1 && f.values[rowIndex] == Some(v)
    ensures forall k :: 0 <= k < rowIndex ==> f.values[k].None?
  {
    Field(name, t, seq(rowIndex, _ => None) + [Some(v)])
  }

  /** `field.Append(x)`: one more slot at the end; the element type is unchanged. */
  function Push(f: Field, x: Option<Value>): (g: Field)
    requires WellTyped(f)
    requires x.Some? ==> HasType(x.value, f.ftype)
    ensures WellTyped(g) && g.name == f.name && g.ftype == f.ftype
    ensures |g.values| == |f.values| + 1 && g.values[..|f.values|] == f.values && g.values[|f.values|] == x
  {
    f.(values := f.values + [x])
  }

  /** `float64(cv.(int64))` on one slot of an Int64 field; a null stays null. */
  function ToFloat64(x: Option<Value>, env: Env): Option<Value>
    requires x.None? || x.value.VInt64?
  {
    match x
    case None => None
    case Some(v) => Some(VFloat64(env.intToFloat(v.i)))
  }

  /**
   * The Int64-to-Float64 rebuild: a Float64 field with every earlier integer
   * converted, every earlier null kept, and the new float as the last slot.
   */
  function Widen(f: Field, x: Float64, env: Env): (g: Field)
    requires WellTyped(f) && f.ftype == NullableInt64
    ensures WellTyped(g) && g.name == f.name && g.ftype == NullableFloat64
    ensures |g.values| == |f.values| + 1 && g.values[|f.values|] == Some(VFloat64(x))
    ensures forall k :: 0 <= k < |f.values| ==> (f.values[k].None? <==> g.values[k].None?)
    ensures forall k :: 0 <= k < |f.values| && f.values[k].Some? ==>
      g.values[k] == Some(VFloat64(env.intToFloat(f.values[k].value.i)))
  {
    Field(f.name, NullableFloat64,
      seq(|f.values|, k requires 0 <= k < |f.values| => ToFloat64(f.values[k], env)) + [Some(VFloat64(x))])
  }

  /**
   * The conversion loop of the widening path: a fresh slice one longer than the
   * field, filled slot by slot from the integer values, the new float last.
   */
  method WidenValues(f: Field, x: Float64, env: Env) returns (values: seq<Option<Value>>)
    requires WellTyped(f) && f.ftype == NullableInt64
    ensures values == Widen(f, x, env).values
  {
    var n := |f.values|;
    var float64Values := new Option<Value>[n + 1](_ => None);
    var i := 0;
    while i < n
      invariant 0 <= i <= n
      invariant forall k :: 0 <= k < i ==> float64Values[k] == ToFloat64(f.values[k], env)
      invariant forall k :: i <= k <= n ==> float64Values[k].None?
    {
      var cv := f.values[i];
      if cv.Some? {
        float64Values[i] := Some(VFloat64(env.intToFloat(cv.value.i)));
      }
      i := i + 1;
    }
    float64Values[n] := Some(VFloat64(x));
    values := float64Values[..];
    assert values == Widen(f, x, env).values;
  }
}
