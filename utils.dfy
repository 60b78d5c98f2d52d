/**
 * The number classifier and the set encoders of pkg/plugin/utils.go.
 */
module Utils {
  import opened Types

  const MinInt64: int := -0x8000_0000_0000_0000
  const MaxInt64: int := 0x7FFF_FFFF_FFFF_FFFF

  predicate IsInt64(i: int) {
    MinInt64 <= i <= MaxInt64
  }

  predicate IsDigit(c: char) {
    '0' <= c <= '9'
  }

  predicate AllDigits(s: string) {
    forall k :: 0 <= k < |s| ==> IsDigit(s[k])
  }

  /** The value of a string of decimal digits, read most significant first. */
  function DigitsValue(ds: string): nat
    requires AllDigits(ds)
  {
    if ds == [] then 0
    else DigitsValue(ds[..|ds| - 1]) * 10 + (ds[|ds| - 1] as int - '0' as int)
  }

  /**
   * strconv.ParseInt(s, 10, 64): an optional '+' or '-', then one or more
   * decimal digits, whose value must fit in 64 signed bits. With an explicit
   * base of 10 Go admits neither base prefixes nor underscores.
   */
  function ParseInt64(s: string): (r: Option<int>)
    ensures r.Some? ==> IsInt64(r.value)
    ensures r.Some? ==> |s| > 0 && forall k :: 0 <= k < |s| ==> IsDigit(s[k]) || (k == 0 && (s[k] == '+' || s[k] == '-'))
  {
    var signed := |s| > 0 && (s[0] == '+' || s[0] == '-');
    var digits := if signed then s[1..] else s;
    if digits == [] || !AllDigits(digits) then None
    else
      var v: int := if signed && s[0] == '-' then -(DigitsValue(digits) as int) else DigitsValue(digits);
      if IsInt64(v) then Some(v) else None
  }

  /** strconv.FormatInt(i, 10): the reference spelling of an integer. */
  function FormatInt(i: int): string {
    if i < 0 then "-" + NatDigits(-i) else NatDigits(i)
  }

  function NatDigits(n: nat): string
    decreases n
  {
    if n < 10 then [DigitChar(n)] else NatDigits(n / 10) + [DigitChar(n % 10)]
  }

  function DigitChar(d: nat): char
    requires d < 10
  {
    ('0' as int + d) as char
  }

  lemma {:induction false} NatDigitsValue(n: nat)
    ensures |NatDigits(n)| > 0 && AllDigits(NatDigits(n))
    ensures DigitsValue(NatDigits(n)) == n
    decreases n
  {
    if n >= 10 {
      NatDigitsValue(n / 10);
      var s := NatDigits(n / 10) + [DigitChar(n % 10)];
      assert s[..|s| - 1] == NatDigits(n / 10);
    }
  }

  /** A leading zero does not change the value of a digit string. */
  lemma {:induction false} LeadingZeroValue(ds: string)
    requires AllDigits(ds)
    ensures AllDigits("0" + ds) && DigitsValue("0" + ds) == DigitsValue(ds)
    decreases |ds|
  {
    var z := "0" + ds;
    assert forall k :: 0 <= k < |z| ==> IsDigit(z[k]);
    if ds != [] {
      var init := ds[..|ds| - 1];
      assert forall k :: 0 <= k < |init| ==> init[k] == ds[k];
      LeadingZeroValue(init);
      assert z[..|z| - 1] == "0" + init;
      assert z[|z| - 1] == ds[|ds| - 1];
    }
  }

  /**
   * ParseInt64 also takes the spellings FormatInt never writes: an explicit
   * '+', leading zeros, and "-0".
   */
  lemma NonCanonicalSpellings(ds: string)
    requires |ds| > 0 && AllDigits(ds)
    ensures ParseInt64("+" + ds) == ParseInt64(ds)
    ensures ParseInt64("0" + ds) == ParseInt64(ds)
    ensures ParseInt64("-0") == Some(0)
  {
    assert ("+" + ds)[1..] == ds;
    LeadingZeroValue(ds);
    assert IsDigit(ds[0]);
    assert "-0"[1..] == "0" && "0"[..0] == "" && DigitsValue("0") == 0;
  }

  /** ParseInt64 reads back every 64-bit integer from its decimal spelling. */
  lemma ParseFormatInt(i: int)
    requires IsInt64(i)
    ensures ParseInt64(FormatInt(i)) == Some(i)
  {
    if i < 0 {
      NatDigitsValue(-i);
      var s := FormatInt(i);
      assert s[1..] == NatDigits(-i);
    } else {
      NatDigitsValue(i);
      assert NatDigits(i)[0] != '+' && NatDigits(i)[0] != '-' by {
        assert IsDigit(NatDigits(i)[0]);
      }
    }
  }

  /** The outcome of parseNumber: its int64 result or its float64 result. */
  datatype Number = Int(i: int) | Float(f: Float64)

  /**
   * parseNumber: base-10 int64 first, then float64, else an error. The sum type
   * makes "exactly one of int, float, error" structural.
   */
  function ParseNumber(n: string, env: Env): (r: Result<Number>)
    ensures ParseInt64(n).Some? ==> r == Ok(Int(ParseInt64(n).value))
    ensures r.Ok? && r.value.Int? ==> IsInt64(r.value.i)
    ensures r.Ok? && r.value.Float? ==> ParseInt64(n).None? && env.parseFloat(n) == Some(r.value.f)
    ensures r.Err? <==> ParseInt64(n).None? && env.parseFloat(n).None?
    ensures r.Err? ==> r.error == ParseNumberFailed(n)
  {
    match ParseInt64(n)
    case Some(i) => Ok(Int(i))
    case None =>
      match env.parseFloat(n)
      case Some(f) => Ok(Float(f))
      case None => Err(ParseNumberFailed(n))
  }

  /** Integer priority: the decimal spelling of an int64 is never classified as a float. */
  lemma IntegerTextIsInt(i: int, env: Env)
    requires IsInt64(i)
    ensures ParseNumber(FormatInt(i), env) == Ok(Int(i))
  {
    ParseFormatInt(i);
  }

  /** The element parseNumber's outcome becomes in the number-set slice. */
  function NumberJson(x: Number): Json {
    match x
    case Int(i) => JInt(i)
    case Float(f) => JFloat(f)
  }

  /**
   * json.Marshal of a []interface{} holding strings and numbers, as the model
   * takes it: it fails on a NaN or infinite float and otherwise writes the array.
   */
  function MarshalArray(items: seq<Json>): Result<Json> {
    if exists k :: 0 <= k < |items| && items[k].JFloat? && !IsFinite(items[k].f) then Err(UnsupportedJsonValue)
    else Ok(JArray(items))
  }

  /** Reads a JSON array of strings back as the list it encodes. */
  function StringsOf(j: Json): Option<seq<string>> {
    if j.JArray? && forall k :: 0 <= k < |j.items| ==> j.items[k].JString? then
      Some(seq(|j.items|, k requires 0 <= k < |j.items| && j.items[k].JString? => j.items[k].s))
    else None
  }

  /** stringSetToJson: the set's strings, in their given order, as one JSON array. */
  function StringSetToJson(ss: seq<string>): (r: Result<Json>)
    ensures r.Ok? && StringsOf(r.value) == Some(ss)
  {
    var items := seq(|ss|, k requires 0 <= k < |ss| => JString(ss[k]));
    assert forall k :: 0 <= k < |items| ==> items[k].JString? && items[k].s == ss[k];
    assert StringsOf(JArray(items)).Some?;
    assert StringsOf(JArray(items)).value == ss;
    MarshalArray(items)
  }

  /** Every member parsed, stopping at the first failure (the loop of numberSetToJson). */
  function ParseAll(ns: seq<string>, env: Env): (r: Result<seq<Json>>)
    ensures r.Ok? ==> |r.value| == |ns|
    ensures r.Err? ==> exists k :: 0 <= k < |ns| && ParseNumber(ns[k], env) == Err(r.error)
    decreases |ns|
  {
    if ns == [] then Ok([])
    else
      match ParseNumber(ns[0], env)
      case Err(e) => Err(e)
      case Ok(x) =>
        match ParseAll(ns[1..], env)
        case Err(e) => Err(e)
        case Ok(rest) => Ok([NumberJson(x)] + rest)
  }

  /** What numberSetToJson computes. */
  function NumberSetJson(ns: seq<string>, env: Env): (r: Result<Json>)
    ensures r.Ok? ==> r.value.JArray? && |r.value.items| == |ns|
    ensures r.Err? ==> r.error == UnsupportedJsonValue || exists k :: 0 <= k < |ns| && ParseNumber(ns[k], env) == Err(r.error)
  {
    match ParseAll(ns, env)
    case Err(e) => Err(e)
    case Ok(items) => MarshalArray(items)
  }

  /** ParseAll succeeds exactly when every member parses, keeping length and order. */
  lemma {:induction false} ParseAllSucceeds(ns: seq<string>, env: Env)
    ensures ParseAll(ns, env).Ok? <==> forall k :: 0 <= k < |ns| ==> ParseNumber(ns[k], env).Ok?
    ensures ParseAll(ns, env).Ok? ==>
      |ParseAll(ns, env).value| == |ns| &&
      forall k :: 0 <= k < |ns| ==> ParseAll(ns, env).value[k] == NumberJson(ParseNumber(ns[k], env).value)
    decreases |ns|
  {
    if ns != [] {
      ParseAllSucceeds(ns[1..], env);
      assert forall k :: 1 <= k < |ns| ==> ns[k] == ns[1..][k - 1];
    }
  }

  /** ParseAll reports the error of the first member that fails to parse. */
  lemma {:induction false} ParseAllFirstError(ns: seq<string>, env: Env, j: nat)
    requires j < |ns|
    requires forall k :: 0 <= k < j ==> ParseNumber(ns[k], env).Ok?
    requires ParseNumber(ns[j], env).Err?
    ensures ParseAll(ns, env) == Err(ParseNumber(ns[j], env).error)
    decreases j
  {
    if j > 0 {
      assert forall k :: 0 <= k < j - 1 ==> ns[1..][k] == ns[k + 1];
      ParseAllFirstError(ns[1..], env, j - 1);
    }
  }

  /**
   * The number set as JSON: it fails, as a whole, exactly when some member does
   * not parse (with the first such member's error) or json.Marshal refuses a
   * float; otherwise element k is member k's int or float.
   */
  lemma NumberSetJsonShape(ns: seq<string>, env: Env)
    ensures (exists k :: 0 <= k < |ns| && ParseNumber(ns[k], env).Err?) ==> NumberSetJson(ns, env).Err?
    ensures NumberSetJson(ns, env).Ok? ==>
      NumberSetJson(ns, env).value.JArray? &&
      |NumberSetJson(ns, env).value.items| == |ns| &&
      forall k :: 0 <= k < |ns| ==>
        (ParseInt64(ns[k]).Some? ==> NumberSetJson(ns, env).value.items[k] == JInt(ParseInt64(ns[k]).value)) &&
        (ParseInt64(ns[k]).None? ==> NumberSetJson(ns, env).value.items[k] == JFloat(env.parseFloat(ns[k]).value))
  {
    ParseAllSucceeds(ns, env);
  }

  /**
   * Once every member parses, the set fails exactly when some member is a
   * non-integer whose float json.Marshal refuses (NaN or an infinity).
   */
  lemma NumberSetRefusesNonFinite(ns: seq<string>, env: Env)
    requires ParseAll(ns, env).Ok?
    ensures NumberSetJson(ns, env).Err? <==>
      exists k :: 0 <= k < |ns| && ParseInt64(ns[k]).None? && env.parseFloat(ns[k]).Some? && !IsFinite(env.parseFloat(ns[k]).value)
    ensures NumberSetJson(ns, env).Err? ==> NumberSetJson(ns, env).error == UnsupportedJsonValue
  {
    ParseAllSucceeds(ns, env);
    var items := ParseAll(ns, env).value;
    forall k | 0 <= k < |ns|
      ensures items[k].JFloat? <==> ParseInt64(ns[k]).None?
      ensures items[k].JFloat? ==> items[k].f == env.parseFloat(ns[k]).value
    {
      assert items[k] == NumberJson(ParseNumber(ns[k], env).value);
    }
  }

  /**
   * numberSetToJson: fills a preallocated slice member by member and gives up at
   * the first member that parseNumber rejects.
   */
  method NumberSetToJson(ns: seq<string>, env: Env) returns (r: Result<Json>)
    ensures r == NumberSetJson(ns, env)
  {
    var l := new Json[|ns|](_ => JNull);
    var idx := 0;
    while idx < |ns|
      invariant 0 <= idx <= |ns|
      invariant forall k :: 0 <= k < idx ==> ParseNumber(ns[k], env).Ok? && l[k] == NumberJson(ParseNumber(ns[k], env).value)
    {
      var x := ParseNumber(ns[idx], env);
      if x.Err? {
        ParseAllFirstError(ns, env, idx);
        return Err(x.error);
      }
      l[idx] := NumberJson(x.value);
      idx := idx + 1;
    }
    ParseAllSucceeds(ns, env);
    assert l[..] == ParseAll(ns, env).value;
    r := MarshalArray(l[..]);
  }
}
