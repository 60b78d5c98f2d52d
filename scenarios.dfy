/**
 * The table-driven cases of pkg/plugin/utils_test.go and the L, SS, NS and
 * datetime cases of pkg/test/dataframe_test.go, stated about the model.
 * Each case selects one attribute, so a row written without it comes back as
 * an empty item. What json.Marshal, the float parser and the int-to-float
 * conversion produce stays symbolic (the Env), so the cases say which of
 * those results lands in which slot.
 */
module Scenarios {
  import opened Types
  import opened Utils
  import opened Fields
  import opened Attributes
  import opened DataFrame

  /** A name no row holds has no column. */
  lemma {:induction false} AbsentEverywhere(items: seq<Row>, name: string, dir: map<string, string>, env: Env, k: nat)
    requires k <= |items|
    requires forall r :: 0 <= r < k ==> name !in items[r]
    ensures ColumnAt(items, name, dir, env, k) == Ok(None)
    decreases k
  {
    if k > 0 {
      AbsentEverywhere(items, name, dir, env, k - 1);
    }
  }

  /**
   * When every row holds at most the one name, a frame that matches the rows
   * consists of that name's column alone.
   */
  lemma SingleColumnFrame(items: seq<Row>, dir: map<string, string>, env: Env, name: string, f: Field, fields: seq<Field>)
    requires forall r :: 0 <= r < |items| ==> items[r].Keys <= {name}
    requires ColumnAt(items, name, dir, env, |items|) == Ok(Some(f))
    requires FrameMatches(items, dir, env, fields)
    ensures fields == [f]
  {
    forall k | 0 <= k < |fields|
      ensures fields[k] == f
    {
      if fields[k].name != name {
        AbsentEverywhere(items, fields[k].name, dir, env, |items|);
        assert false;
      }
    }
    assert name in Names(fields);
    assert |fields| < 2 || fields[0].name != fields[1].name;
  }

  /** The one-slot column NewAttribute builds at row 0. */
  lemma FirstSlot(name: string, t: FieldType, v: Value)
    requires HasType(v, t)
    ensures NewField(0, name, t, v) == Field(name, t, [Some(v)])
  {
    assert NewField(0, name, t, v).values == [Some(v)];
  }

  lemma SmallInts()
    ensures ParseInt64("1") == Some(1) && ParseInt64("2") == Some(2)
  {
    assert AllDigits("1") && "1"[..0] == "" && DigitsValue("1") == 1;
    assert AllDigits("2") && "2"[..0] == "" && DigitsValue("2") == 2;
  }

  /** A number text with a '.' is not an integer. */
  lemma DecimalNotInt(s: string)
    requires |s| == 3 && IsDigit(s[0]) && s[1] == '.'
    ensures ParseInt64(s) == None
  {
  }

  /** Three rows: the attribute, an item without it, the attribute again. */
  function GapRows(name: string, first: AttributeValue, last: AttributeValue): seq<Row> {
    [map[name := first], map[], map[name := last]]
  }

  /**
   * On GapRows the column is built at row 0 under its directive, padded with
   * one null at row 1 and appended to at row 2.
   */
  lemma GapColumn(name: string, first: AttributeValue, last: AttributeValue, dir: map<string, string>, env: Env,
                  f1: Field, f3: Field)
    requires Create(0, name, first, DirectiveFor(dir, name), env) == Ok(Some(f1))
    requires AppendStep(f1.(values := f1.values + [None]), DirectiveFor(dir, name), last, env) == Ok(f3)
    ensures ColumnAt(GapRows(name, first, last), name, dir, env, 3) == Ok(Some(f3))
  {
    var items := GapRows(name, first, last);
    NextRowPresent(items, name, dir, env, 0, None, Ok(Some(f1)));
    NextRowAbsent(items, name, dir, env, 1, Some(f1));
    var f2 := f1.(values := f1.values + [None]);
    NextRowPresent(items, name, dir, env, 2, Some(f2), Ok(Some(f3)));
  }

  function IntRows(): seq<Row> {
    GapRows("myNI", N("1"), N("2"))
  }

  /** "N int": integers stay Int64, the row without the attribute is null. */
  lemma IntColumn(env: Env)
    ensures ColumnAt(IntRows(), "myNI", map[], env, 3) ==
      Ok(Some(Field("myNI", NullableInt64, [Some(VInt64(1)), None, Some(VInt64(2))])))
  {
    SmallInts();
    var f1 := Field("myNI", NullableInt64, [Some(VInt64(1))]);
    FirstSlot("myNI", NullableInt64, VInt64(1));
    var f2 := Field("myNI", NullableInt64, [Some(VInt64(1)), None]);
    assert f1.values + [None] == f2.values;
    var f3 := Field("myNI", NullableInt64, [Some(VInt64(1)), None, Some(VInt64(2))]);
    assert f2.values + [Some(VInt64(2))] == f3.values;
    assert AppendStep(f2, "", N("2"), env) == Ok(f3);
    GapColumn("myNI", N("1"), N("2"), map[], env, f1, f3);
  }

  lemma IntFrame(env: Env, fields: seq<Field>)
    requires FrameMatches(IntRows(), map[], env, fields)
    ensures fields == [Field("myNI", NullableInt64, [Some(VInt64(1)), None, Some(VInt64(2))])]
  {
    IntColumn(env);
    SingleColumnFrame(IntRows(), map[], env, "myNI",
      Field("myNI", NullableInt64, [Some(VInt64(1)), None, Some(VInt64(2))]), fields);
  }

  function IntFloatRows(): seq<Row> {
    GapRows("myNIF", N("1"), N("2.1"))
  }

  /** Widening [1, null] with the float x. */
  lemma WidenOne(env: Env, x: Float64)
    ensures Widen(Field("myNIF", NullableInt64, [Some(VInt64(1)), None]), x, env) ==
      Field("myNIF", NullableFloat64, [Some(VFloat64(env.intToFloat(1))), None, Some(VFloat64(x))])
  {
    var w := Widen(Field("myNIF", NullableInt64, [Some(VInt64(1)), None]), x, env);
    assert w.values[0] == Some(VFloat64(env.intToFloat(1)));
    assert w.values[1] == None;
    assert w.values == [Some(VFloat64(env.intToFloat(1))), None, Some(VFloat64(x))];
  }

  /** "N int & float": a float after an integer widens the column, converting the integer. */
  lemma IntThenFloatColumn(env: Env, x: Float64)
    requires env.parseFloat("2.1") == Some(x)
    ensures ColumnAt(IntFloatRows(), "myNIF", map[], env, 3) ==
      Ok(Some(Field("myNIF", NullableFloat64, [Some(VFloat64(env.intToFloat(1))), None, Some(VFloat64(x))])))
  {
    SmallInts();
    DecimalNotInt("2.1");
    var f1 := Field("myNIF", NullableInt64, [Some(VInt64(1))]);
    FirstSlot("myNIF", NullableInt64, VInt64(1));
    var f2 := Field("myNIF", NullableInt64, [Some(VInt64(1)), None]);
    assert f1.values + [None] == f2.values;
    var f3 := Field("myNIF", NullableFloat64, [Some(VFloat64(env.intToFloat(1))), None, Some(VFloat64(x))]);
    WidenOne(env, x);
    assert AppendStep(f2, "", N("2.1"), env) == Ok(f3);
    GapColumn("myNIF", N("1"), N("2.1"), map[], env, f1, f3);
  }

  lemma IntThenFloatFrame(env: Env, x: Float64, fields: seq<Field>)
    requires env.parseFloat("2.1") == Some(x)
    requires FrameMatches(IntFloatRows(), map[], env, fields)
    ensures fields == [Field("myNIF", NullableFloat64, [Some(VFloat64(env.intToFloat(1))), None, Some(VFloat64(x))])]
  {
    IntThenFloatColumn(env, x);
    SingleColumnFrame(IntFloatRows(), map[], env, "myNIF",
      Field("myNIF", NullableFloat64, [Some(VFloat64(env.intToFloat(1))), None, Some(VFloat64(x))]), fields);
  }

  function FloatIntRows(): seq<Row> {
    GapRows("myNFI", N("1.1"), N("2"))
  }

  /** "N float & int": an integer after a float is converted into the Float64 column. */
  lemma FloatThenIntColumn(env: Env, x: Float64)
    requires env.parseFloat("1.1") == Some(x)
    ensures ColumnAt(FloatIntRows(), "myNFI", map[], env, 3) ==
      Ok(Some(Field("myNFI", NullableFloat64, [Some(VFloat64(x)), None, Some(VFloat64(env.intToFloat(2)))])))
  {
    SmallInts();
    DecimalNotInt("1.1");
    var f1 := Field("myNFI", NullableFloat64, [Some(VFloat64(x))]);
    FirstSlot("myNFI", NullableFloat64, VFloat64(x));
    assert Create(0, "myNFI", N("1.1"), "", env) == Ok(Some(f1));
    var f2 := Field("myNFI", NullableFloat64, [Some(VFloat64(x)), None]);
    assert f1.values + [None] == f2.values;
    var f3 := Field("myNFI", NullableFloat64, [Some(VFloat64(x)), None, Some(VFloat64(env.intToFloat(2)))]);
    assert f2.values + [Some(VFloat64(env.intToFloat(2)))] == f3.values;
    assert AppendStep(f2, "", N("2"), env) == Ok(f3);
    GapColumn("myNFI", N("1.1"), N("2"), map[], env, f1, f3);
  }

  function FloatRows(): seq<Row> {
    GapRows("myNF", N("1.2"), N("2.1"))
  }

  /** "N float": non-integer numbers make a Float64 column holding the parser's results. */
  lemma FloatColumn(env: Env, x: Float64, y: Float64)
    requires env.parseFloat("1.2") == Some(x) && env.parseFloat("2.1") == Some(y)
    ensures ColumnAt(FloatRows(), "myNF", map[], env, 3) ==
      Ok(Some(Field("myNF", NullableFloat64, [Some(VFloat64(x)), None, Some(VFloat64(y))])))
  {
    DecimalNotInt("1.2");
    DecimalNotInt("2.1");
    var f1 := Field("myNF", NullableFloat64, [Some(VFloat64(x))]);
    FirstSlot("myNF", NullableFloat64, VFloat64(x));
    assert Create(0, "myNF", N("1.2"), "", env) == Ok(Some(f1));
    var f2 := Field("myNF", NullableFloat64, [Some(VFloat64(x)), None]);
    assert f1.values + [None] == f2.values;
    var f3 := Field("myNF", NullableFloat64, [Some(VFloat64(x)), None, Some(VFloat64(y))]);
    assert f2.values + [Some(VFloat64(y))] == f3.values;
    assert AppendStep(f2, "", N("2.1"), env) == Ok(f3);
    GapColumn("myNF", N("1.2"), N("2.1"), map[], env, f1, f3);
  }

  /**
   * The items a two-item case reads back. Every case writes its items to the
   * same table under sort keys 1, 2, ..., and the query selects the case's
   * attribute from every item; the third item a three-item case before it
   * wrote stays behind and comes back without the attribute.
   */
  function PairRows(name: string, first: AttributeValue, second: AttributeValue): seq<Row> {
    [map[name := first], map[name := second], map[]]
  }

  /**
   * On PairRows the column is built at row 0, appended to at row 1 and padded
   * with one null for the item left behind.
   */
  lemma PairColumn(name: string, first: AttributeValue, second: AttributeValue, env: Env, f1: Field, f2: Field)
    requires Create(0, name, first, "", env) == Ok(Some(f1))
    requires AppendStep(f1, "", second, env) == Ok(f2)
    ensures ColumnAt(PairRows(name, first, second), name, map[], env, 3) == Ok(Some(f2.(values := f2.values + [None])))
  {
    var items := PairRows(name, first, second);
    NextRowPresent(items, name, map[], env, 0, None, Ok(Some(f1)));
    NextRowPresent(items, name, map[], env, 1, Some(f1), Ok(Some(f2)));
    NextRowAbsent(items, name, map[], env, 2, Some(f2));
  }

  /**
   * Two values that build a column [x1] and then append x2 give the column
   * x1, x2, null.
   */
  lemma PairOfValues(name: string, first: AttributeValue, second: AttributeValue, env: Env, t: FieldType, x1: Value, x2: Value)
    requires HasType(x1, t) && HasType(x2, t)
    requires Create(0, name, first, "", env) == Ok(Some(NewField(0, name, t, x1)))
    requires AppendStep(Field(name, t, [Some(x1)]), "", second, env) == Ok(Field(name, t, [Some(x1), Some(x2)]))
    ensures ColumnAt(PairRows(name, first, second), name, map[], env, 3) == Ok(Some(Field(name, t, [Some(x1), Some(x2), None])))
  {
    FirstSlot(name, t, x1);
    var f2 := Field(name, t, [Some(x1), Some(x2)]);
    assert f2.values + [None] == [Some(x1), Some(x2), None];
    PairColumn(name, first, second, env, Field(name, t, [Some(x1)]), f2);
  }

  function BoolRows(): seq<Row> {
    PairRows("myBOOL", BOOL(true), BOOL(false))
  }

  /** "BOOL": booleans make a Bool column, in row order, then the null of the item left behind. */
  lemma BoolColumn(env: Env)
    ensures ColumnAt(BoolRows(), "myBOOL", map[], env, 3) ==
      Ok(Some(Field("myBOOL", NullableBool, [Some(VBool(true)), Some(VBool(false)), None])))
  {
    var f1 := Field("myBOOL", NullableBool, [Some(VBool(true))]);
    FirstSlot("myBOOL", NullableBool, VBool(true));
    assert f1.values + [Some(VBool(false))] == [Some(VBool(true)), Some(VBool(false))];
    PairOfValues("myBOOL", BOOL(true), BOOL(false), env, NullableBool, VBool(true), VBool(false));
  }

  function MapRows(): seq<Row> {
    PairRows("myM", M(map["key1" := S("string1"), "key2" := N("1")]), M(map["key3" := S("string2"), "key4" := N("2.1")]))
  }

  /** "M": maps make a JSON column of the documents the encoder writes for them. */
  lemma MapColumn(env: Env, d1: Json, d2: Json)
    requires env.mapToJson(map["key1" := S("string1"), "key2" := N("1")]) == Some(d1)
    requires env.mapToJson(map["key3" := S("string2"), "key4" := N("2.1")]) == Some(d2)
    ensures ColumnAt(MapRows(), "myM", map[], env, 3) ==
      Ok(Some(Field("myM", NullableJSON, [Some(VJson(d1)), Some(VJson(d2)), None])))
  {
    var f1 := Field("myM", NullableJSON, [Some(VJson(d1))]);
    FirstSlot("myM", NullableJSON, VJson(d1));
    assert f1.values + [Some(VJson(d2))] == [Some(VJson(d1)), Some(VJson(d2))];
    PairOfValues("myM", M(map["key1" := S("string1"), "key2" := N("1")]), M(map["key3" := S("string2"), "key4" := N("2.1")]),
                 env, NullableJSON, VJson(d1), VJson(d2));
  }

  function ListRows(): seq<Row> {
    PairRows("myL", L([BOOL(true), N("1")]), L([S("string2"), N("2.1")]))
  }

  /** "L": lists make a JSON column of the documents the encoder writes for them. */
  lemma ListColumn(env: Env, d1: Json, d2: Json)
    requires env.listToJson([BOOL(true), N("1")]) == Some(d1)
    requires env.listToJson([S("string2"), N("2.1")]) == Some(d2)
    ensures ColumnAt(ListRows(), "myL", map[], env, 3) ==
      Ok(Some(Field("myL", NullableJSON, [Some(VJson(d1)), Some(VJson(d2)), None])))
  {
    var f1 := Field("myL", NullableJSON, [Some(VJson(d1))]);
    FirstSlot("myL", NullableJSON, VJson(d1));
    assert f1.values + [Some(VJson(d2))] == [Some(VJson(d1)), Some(VJson(d2))];
    PairOfValues("myL", L([BOOL(true), N("1")]), L([S("string2"), N("2.1")]), env, NullableJSON, VJson(d1), VJson(d2));
  }

  /** The JSON array of two strings, as stringSetToJson writes it. */
  lemma TwoStrings(a: string, b: string)
    ensures StringSetToJson([a, b]) == Ok(JArray([JString(a), JString(b)]))
  {
    assert seq(2, k requires 0 <= k < 2 => JString([a, b][k])) == [JString(a), JString(b)];
  }

  function StringSetRows(): seq<Row> {
    PairRows("mySS", SS(["s1", "s2"]), SS(["s3", "s4"]))
  }

  /** "SS": string sets make a JSON column of string arrays; nothing can fail. */
  lemma StringSetColumn(env: Env)
    ensures ColumnAt(StringSetRows(), "mySS", map[], env, 3) ==
      Ok(Some(Field("mySS", NullableJSON,
        [Some(VJson(JArray([JString("s1"), JString("s2")]))), Some(VJson(JArray([JString("s3"), JString("s4")]))), None])))
  {
    TwoStrings("s1", "s2");
    TwoStrings("s3", "s4");
    var d1 := JArray([JString("s1"), JString("s2")]);
    var d2 := JArray([JString("s3"), JString("s4")]);
    var f1 := Field("mySS", NullableJSON, [Some(VJson(d1))]);
    FirstSlot("mySS", NullableJSON, VJson(d1));
    assert f1.values + [Some(VJson(d2))] == [Some(VJson(d1)), Some(VJson(d2))];
    PairOfValues("mySS", SS(["s1", "s2"]), SS(["s3", "s4"]), env, NullableJSON, VJson(d1), VJson(d2));
  }

  /** A two-member number set whose floats are finite is the array of the two numbers. */
  lemma TwoNumbers(a: string, b: string, x: Number, y: Number, env: Env)
    requires ParseNumber(a, env) == Ok(x) && ParseNumber(b, env) == Ok(y)
    requires (x.Float? ==> IsFinite(x.f)) && (y.Float? ==> IsFinite(y.f))
    ensures NumberSetJson([a, b], env) == Ok(JArray([NumberJson(x), NumberJson(y)]))
  {
    assert [b][0] == b && [b][1..] == [] && ParseAll([], env) == Ok([]);
    assert ParseAll([b], env) == Ok([NumberJson(y)] + []);
    assert [NumberJson(y)] + [] == [NumberJson(y)];
    assert [a, b][1..] == [b];
    assert [NumberJson(x)] + [NumberJson(y)] == [NumberJson(x), NumberJson(y)];
  }

  /** The signed texts of the NS case: "-2" is an integer, "-3.1" is not. */
  lemma SignedTexts()
    ensures ParseInt64("-2") == Some(-2) && ParseInt64("-3.1") == None
  {
    assert "-2"[1..] == "2" && AllDigits("2") && "2"[..0] == "" && DigitsValue("2") == 2;
    assert "-3.1"[1..] == "3.1" && !IsDigit("3.1"[1]);
  }

  function NumberSetRows(): seq<Row> {
    PairRows("myNS", NS(["1.1", "2"]), NS(["-2", "-3.1"]))
  }

  /**
   * "NS": number sets make a JSON column of number arrays, integers as ints and
   * the other members as their parsed floats, when those floats are finite.
   */
  lemma NumberSetColumn(env: Env, x: Float64, y: Float64)
    requires env.parseFloat("1.1") == Some(x) && IsFinite(x)
    requires env.parseFloat("-3.1") == Some(y) && IsFinite(y)
    ensures ColumnAt(NumberSetRows(), "myNS", map[], env, 3) ==
      Ok(Some(Field("myNS", NullableJSON,
        [Some(VJson(JArray([JFloat(x), JInt(2)]))), Some(VJson(JArray([JInt(-2), JFloat(y)]))), None])))
  {
    DecimalNotInt("1.1");
    SmallInts();
    SignedTexts();
    TwoNumbers("1.1", "2", Float(x), Int(2), env);
    TwoNumbers("-2", "-3.1", Int(-2), Float(y), env);
    NumberSetPair("myNS", ["1.1", "2"], ["-2", "-3.1"], JArray([JFloat(x), JInt(2)]), JArray([JInt(-2), JFloat(y)]), env);
  }

  /** Two number sets that encode make a JSON column of their two documents, then a null. */
  lemma NumberSetPair(name: string, ns1: seq<string>, ns2: seq<string>, d1: Json, d2: Json, env: Env)
    requires NumberSetJson(ns1, env) == Ok(d1) && NumberSetJson(ns2, env) == Ok(d2)
    ensures ColumnAt(PairRows(name, NS(ns1), NS(ns2)), name, map[], env, 3) ==
      Ok(Some(Field(name, NullableJSON, [Some(VJson(d1)), Some(VJson(d2)), None])))
  {
    var f1 := Field(name, NullableJSON, [Some(VJson(d1))]);
    FirstSlot(name, NullableJSON, VJson(d1));
    assert f1.values + [Some(VJson(d2))] == [Some(VJson(d1)), Some(VJson(d2))];
    PairOfValues(name, NS(ns1), NS(ns2), env, NullableJSON, VJson(d1), VJson(d2));
  }

  function MismatchRows(): seq<Row> {
    [map["x" := BOOL(true)], map["x" := S("a")]]
  }

  /** A value of another kind in an existing column fails the whole query. */
  lemma MismatchFails(env: Env)
    ensures ColumnAt(MismatchRows(), "x", map[], env, 2) == Err(TypeMismatch("x", NullableBool, "S"))
  {
    var items := MismatchRows();
    var f1 := Field("x", NullableBool, [Some(VBool(true))]);
    FirstSlot("x", NullableBool, VBool(true));
    assert Create(0, "x", BOOL(true), "", env) == Ok(Some(f1));
    NextRowPresent(items, "x", map[], env, 0, None, Ok(Some(f1)));
    assert AppendStep(f1, "", S("a"), env) == Err(TypeMismatch("x", NullableBool, "S"));
    NextRowPresent(items, "x", map[], env, 1, Some(f1), Err(TypeMismatch("x", NullableBool, "S")));
  }

  /** t is the instant directive `format` ("1" or "2") makes of the integer i. */
  predicate UnixInstant(format: string, i: int, t: Time) {
    (format == UnixTimestampSeconds && t == UnixSecondsTime(i)) ||
    (format == UnixTimestampMilliseconds && t == UnixMillisTime(i))
  }

  /** The first integer under a unix directive makes a one-slot Time column. */
  lemma UnixCreate(format: string, i: int, t: Time, env: Env)
    requires IsInt64(i) && UnixInstant(format, i, t)
    ensures Create(0, "myDate", N(FormatInt(i)), format, env) == Ok(Some(Field("myDate", NullableTime, [Some(VTime(t))])))
  {
    IntegerTextIsInt(i, env);
    FirstSlot("myDate", NullableTime, VTime(t));
  }

  /** A later integer under the same directive appends its instant. */
  lemma UnixAppend(format: string, j: int, t: Time, f: Field, env: Env)
    requires IsInt64(j) && UnixInstant(format, j, t)
    requires WellTyped(f) && f.ftype == NullableTime
    ensures AppendStep(f, format, N(FormatInt(j)), env) == Ok(f.(values := f.values + [Some(VTime(t))]))
  {
    IntegerTextIsInt(j, env);
  }

  /**
   * Two integers under a unix directive, with an empty item between: a Time
   * column of their instants with a null between.
   */
  lemma UnixGap(format: string, i: int, j: int, ti: Time, tj: Time, env: Env)
    requires IsInt64(i) && IsInt64(j)
    requires UnixInstant(format, i, ti) && UnixInstant(format, j, tj)
    ensures ColumnAt(GapRows("myDate", N(FormatInt(i)), N(FormatInt(j))), "myDate", map["myDate" := format], env, 3) ==
      Ok(Some(Field("myDate", NullableTime, [Some(VTime(ti)), None, Some(VTime(tj))])))
  {
    var f1 := Field("myDate", NullableTime, [Some(VTime(ti))]);
    UnixCreate(format, i, ti, env);
    var f2 := Field("myDate", NullableTime, [Some(VTime(ti)), None]);
    assert f1.values + [None] == f2.values;
    var f3 := Field("myDate", NullableTime, [Some(VTime(ti)), None, Some(VTime(tj))]);
    assert f2.values + [Some(VTime(tj))] == f3.values;
    UnixAppend(format, j, tj, f2, env);
    GapColumn("myDate", N(FormatInt(i)), N(FormatInt(j)), map["myDate" := format], env, f1, f3);
  }

  function SecondsRows(): seq<Row> {
    GapRows("myDate", N(FormatInt(1730070176)), N(FormatInt(1730070193)))
  }

  /**
   * "Datetime Unix seconds": the numbers are the decimal texts of the
   * integers below; under directive "1" they become the instants
   * time.Unix(i, 0), with a null for the item without the attribute.
   */
  lemma UnixSecondsColumn(env: Env)
    ensures ColumnAt(SecondsRows(), "myDate", map["myDate" := UnixTimestampSeconds], env, 3) ==
      Ok(Some(Field("myDate", NullableTime, [Some(VTime(Time(1730070176, 0))), None, Some(VTime(Time(1730070193, 0)))])))
  {
    UnixGap(UnixTimestampSeconds, 1730070176, 1730070193, Time(1730070176, 0), Time(1730070193, 0), env);
  }

  function MillisRows(): seq<Row> {
    GapRows("myDate", N(FormatInt(1730070554000)), N(FormatInt(1730070568000)))
  }

  /**
   * "Datetime Unix miliseconds": the numbers are the decimal texts of the
   * integers below; under directive "2" whole seconds of milliseconds become
   * (seconds, 0) instants.
   */
  lemma UnixMillisColumn(env: Env)
    ensures ColumnAt(MillisRows(), "myDate", map["myDate" := UnixTimestampMilliseconds], env, 3) ==
      Ok(Some(Field("myDate", NullableTime, [Some(VTime(Time(1730070554, 0))), None, Some(VTime(Time(1730070568, 0)))])))
  {
    assert UnixMillisTime(1730070554000) == Time(1730070554, 0);
    assert UnixMillisTime(1730070568000) == Time(1730070568, 0);
    UnixGap(UnixTimestampMilliseconds, 1730070554000, 1730070568000, Time(1730070554, 0), Time(1730070568, 0), env);
  }

  const Iso8601Layout: string := "2006-01-02T15:04:05.999Z"

  function LayoutRows(): seq<Row> {
    GapRows("myDate", S("2024-10-27T23:10:42.951Z"), S("2024-10-27T23:10:49.552Z"))
  }

  /**
   * "Datetime Custom format ISO8601": under a layout directive the strings
   * become the instants time.Parse gives for them.
   */
  lemma LayoutColumn(env: Env, t1: Time, t2: Time)
    requires env.parseTime(Iso8601Layout, "2024-10-27T23:10:42.951Z") == Some(t1)
    requires env.parseTime(Iso8601Layout, "2024-10-27T23:10:49.552Z") == Some(t2)
    ensures ColumnAt(LayoutRows(), "myDate", map["myDate" := Iso8601Layout], env, 3) ==
      Ok(Some(Field("myDate", NullableTime, [Some(VTime(t1)), None, Some(VTime(t2))])))
  {
    var dir := map["myDate" := Iso8601Layout];
    assert IsLayout(Iso8601Layout);
    var f1 := Field("myDate", NullableTime, [Some(VTime(t1))]);
    FirstSlot("myDate", NullableTime, VTime(t1));
    assert Create(0, "myDate", S("2024-10-27T23:10:42.951Z"), Iso8601Layout, env) == Ok(Some(f1));
    var f2 := Field("myDate", NullableTime, [Some(VTime(t1)), None]);
    assert f1.values + [None] == f2.values;
    var f3 := Field("myDate", NullableTime, [Some(VTime(t1)), None, Some(VTime(t2))]);
    assert f2.values + [Some(VTime(t2))] == f3.values;
    assert AppendStep(f2, Iso8601Layout, S("2024-10-27T23:10:49.552Z"), env) == Ok(f3);
    GapColumn("myDate", S("2024-10-27T23:10:42.951Z"), S("2024-10-27T23:10:49.552Z"), dir, env, f1, f3);
  }
}
