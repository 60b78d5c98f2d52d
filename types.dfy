/**
 * Shared vocabulary of the frame builder: the DynamoDB attribute value, the
 * scalar payloads a column can hold, the errors the builder reports, and the
 * foreign library functions it calls.
 */
module Types {

  datatype Option<+T> = None | Some(value: T)

  /** Go's `(value, error)` pair: exactly one of the two is present. */
  datatype Result<+T> = Ok(value: T) | Err(error: Error)

  /**
   * A DynamoDB `AttributeValue`. The SDK struct has one pointer per kind and the
   * service fills exactly one of them; here that is a closed sum type whose
   * constructors keep the SDK's field names.
   */
  datatype AttributeValue =
    | S(s: string)
    | N(n: string)
    | B(b: seq<bv8>)
    | BOOL(flag: bool)
    | NULL
    | M(m: map<string, AttributeValue>)
    | L(l: seq<AttributeValue>)
    | SS(ss: seq<string>)
    | NS(ns: seq<string>)
    | BS(bs: seq<seq<bv8>>)

  /** The per-column datetime directives: unix seconds and unix milliseconds. */
  const UnixTimestampSeconds: string := "1"
  const UnixTimestampMilliseconds: string := "2"

  /** An IEEE 754 binary64 value, kept as its bit pattern; no arithmetic is modelled. */
  datatype Float64 = Float64(bits: bv64)

  /** Go's json.Marshal refuses NaN and the infinities: exponent bits all ones. */
  predicate IsFinite(x: Float64) {
    (x.bits >> 52) & 0x7FF != 0x7FF
  }

  /** An instant as the `(seconds, nanoseconds)` pair handed to Go's `time.Unix`. */
  datatype Time = Time(seconds: int, nanos: int)

  /**
   * A JSON document. A `json.RawMessage` column value is the text json.Marshal
   * writes for such a document; the model keeps the document itself.
   */
  datatype Json =
    | JNull
    | JBool(b: bool)
    | JInt(i: int)
    | JFloat(f: Float64)
    | JString(s: string)
    | JArray(items: seq<Json>)
    | JObject(members: map<string, Json>)

  /** The nullable element types of a Grafana data field. */
  datatype FieldType =
    | NullableString
    | NullableInt64
    | NullableFloat64
    | NullableBool
    | NullableTime
    | NullableJSON

  datatype Error =
    /** "failed to parse <n>" from parseNumber */
    | ParseNumberFailed(text: string)
    /** json.Marshal met a NaN or an infinity */
    | UnsupportedJsonValue
    /** mapToJson or listToJson failed inside the AWS unmarshaller or json.Marshal */
    | EncodeFailed
    /** time.Parse(layout, text) failed */
    | TimeParseFailed(layout: string, text: string)
    /** "invalid datetime format": an integer under a layout directive */
    | InvalidDatetimeFormat
    /** "field <name> should have type <expected>, but got <got>" */
    | TypeMismatch(field: string, expected: FieldType, got: string)

  /**
   * The library functions the core calls but does not define, passed in as
   * total functions: strconv.ParseFloat(s, 64) (None on error), the conversion
   * float64(i), time.Parse(layout, s), and the map and list encoders built on
   * dynamodbattribute.UnmarshalMap/UnmarshalList followed by json.Marshal.
   */
  datatype Env = Env(
    parseFloat: string -> Option<Float64>,
    intToFloat: int -> Float64,
    parseTime: (string, string) -> Option<Time>,
    mapToJson: map<string, AttributeValue> -> Option<Json>,
    listToJson: seq<AttributeValue> -> Option<Json>)
}
