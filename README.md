# DynamoDB frame builder, in Dafny

This project models the core of the Go backend of a Grafana DynamoDB data
source. That core is the row-to-column frame builder. It takes the items of a
PartiQL query: schema-less maps from attribute name to a DynamoDB
`AttributeValue` (S, N, B, BOOL, NULL, M, L, SS, NS or BS). It turns them into
a Grafana data frame. The frame has one nullable, single-typed field per
attribute name: string, int64, float64, bool, time or JSON.

The model follows the four core files:

- `utils.dfy` (module `Utils`) covers `pkg/plugin/utils.go`.
  - `parseNumber` first tries a base-10 int64 (`strconv.ParseInt` is modelled
    concretely: sign, digits, 64-bit range). It then asks the float parser.
    If both fail it is an error.
  - `stringSetToJson` and `numberSetToJson` are modelled too.
    `NumberSetToJson` keeps the source's preallocated slice and its loop with
    an early return.
- `fields.dfy` (module `Fields`) is the part of Grafana's `data.Field` the
  builder uses:
  - a named sequence of optional values with an element type;
  - `data.NewField` on a `make([]*T, rowIndex+1)` slice, then `Set`;
  - `Append`;
  - the Int64-to-Float64 rebuild, with its conversion loop (`WidenValues`).
- `attribute.dfy` (module `Attributes`) covers `pkg/plugin/attribute.go`.
  - `Create` and `AppendStep` state what `NewAttribute` and `Append`
    compute.
  - The class `Attribute` (with `name`, a mutable `value` field and the
    captured `tsFormat`) and the method `NewAttribute` are proved against
    them.
  - The datetime directive is `""`, `"1"` (unix seconds), `"2"` (unix
    milliseconds) or a Go layout. The millisecond split uses Go's truncating
    `/` and `%`, written out as `TruncDiv` and `TruncMod`.
- `column.dfy` (module `Columns`) covers `pkg/plugin/column.go`. This is the
  older, directive-free copy of the same logic. `Column.AppendValue` and
  `NewColumn` are proved against `AppendStep` and `Create` with the empty
  directive.
- `dataframe.dfy` (module `DataFrame`) covers `pkg/plugin/dataframe.go`.
  - The function `ColumnAt` gives, for one attribute name, what the builder
    holds after k rows: an error, no column yet, or a field exactly k long.
  - `QueryResultToDataFrame` keeps the source's loops: rows, the names of a
    row, padding, and collecting the fields. It keeps `attributes` as a map
    of heap objects that `Append` mutates in place.
  - Go's map iteration order is unspecified, so every loop over a map picks
    its next key with `:|`. The proofs therefore hold for every iteration
    order.
  - A ghost map `cols` mirrors the fields the heap objects hold.
- `scenarios.dfy` (module `Scenarios`) restates about the model the
  table-driven cases of `pkg/plugin/utils_test.go` and the L, SS, NS and
  datetime cases of `pkg/test/dataframe_test.go`. The former call an `OutputToDataFrame` that
  is not in this source; the model reads them as the builder without
  directives.

`strconv.ParseInt`, `json.Marshal` on the string and number sets (as the
`Json` tree, refusing NaN and the infinities) and `time.Unix` (as the
`(seconds, nanoseconds)` pair) are modelled concretely. The remaining library
calls are parameters, collected in `Types.Env`:
- `strconv.ParseFloat`;
- the conversion `float64(i)`;
- `time.Parse(layout, s)`;
- the map and list encoders (`dynamodbattribute.UnmarshalMap`/`UnmarshalList`
  followed by `json.Marshal`).

A float is kept as its IEEE 754 bit pattern. The only float fact the model
uses is that `json.Marshal` refuses NaN and the infinities. A JSON column value
is kept as the document that `json.Marshal` writes.

Behaviour of the code worth knowing:
- The unix directives are the strings `"1"` and `"2"` (`pkg/plugin/types.go:17-18`),
  not enumerated names.
- No first-seen column order is kept. The frame's fields come out in Go map
  iteration order, so the model states exactly which fields appear (each
  once) and no order.
- An N value that is not an int64 under a unix directive is not a directive
  error. As the first value it makes a Float64 column
  (`pkg/plugin/attribute.go:66-70`). As an appended value it needs a Float64
  column or widens an Int64 one; under a Time column it is a type mismatch
  (`pkg/plugin/attribute.go:171-191`).
- An S value under a unix directive is not a directive error. As the first
  value it makes a String column (`pkg/plugin/attribute.go:29-41`). As an
  appended value it needs a String column; under a Time column it is a type
  mismatch (`pkg/plugin/attribute.go:131-135`).
- A kind that does not match the column is reported as
  `field <name> should have type <type>, but got <kind>`. The model's error
  for it is `TypeMismatch`.

## Model

| member | source | states |
|---|---|---|
| Utils.ParseInt64 | pkg/plugin/utils.go:48 | a result only for a non-empty text of decimal digits with an optional leading sign, and only within the int64 range |
| Utils.ParseFormatInt | pkg/plugin/utils.go:48-50 | every int64 written in decimal parses back to itself |
| Utils.LeadingZeroValue | pkg/plugin/utils.go:48 | a leading zero does not change the value of a digit string |
| Utils.NonCanonicalSpellings | pkg/plugin/utils.go:48 | the spellings FormatInt never writes parse as strconv.ParseInt reads them: "+" followed by digits and a leading zero leave the value unchanged, and "-0" is 0 |
| Utils.ParseNumber | pkg/plugin/utils.go:47-60 | exactly one of an int, a float or an error; an int64 text is always an int; a float only when the int parse failed and the float parser succeeded; an error exactly when both failed, naming the text |
| Utils.IntegerTextIsInt | pkg/plugin/utils.go:48-51 | integer priority: the decimal spelling of any int64 is classified as that int, never as a float |
| Utils.StringSetToJson | pkg/plugin/utils.go:139-145 | never fails, and the array it yields reads back as the set's strings in their given order |
| Utils.ParseAll | pkg/plugin/utils.go:148-160 | on success one element per member; an error is the error of some member's parse |
| Utils.NumberSetJson | pkg/plugin/utils.go:147-167 | on success a JSON array with one element per member; an error is json.Marshal's refusal or some member's parse error |
| Utils.NumberSetRefusesNonFinite | pkg/plugin/utils.go:147-167 | when every member parses, the set fails exactly when some member that is not an int64 text parses to a NaN or infinite float, and then the error is json.Marshal's refusal |
| Utils.ParseAllSucceeds | pkg/plugin/utils.go:148-160 | the member loop succeeds exactly when every member parses, and then element k is member k's int or float, same length and order |
| Utils.ParseAllFirstError | pkg/plugin/utils.go:150-154 | the loop stops at the first member that fails and reports that member's error |
| Utils.NumberSetJsonShape | pkg/plugin/utils.go:147-167 | a number set with any unparsable member fails as a whole; on success the JSON array has one element per member, an int where the member is an int64 text and the parsed float otherwise |
| Utils.NumberSetToJson | pkg/plugin/utils.go:147-167 | the preallocated slice filled by the loop, with its early return, gives exactly NumberSetJson |
| Fields.NewField | pkg/plugin/attribute.go:35-36 | a well-typed field of length rowIndex+1, null everywhere except the last slot, which holds the value |
| Fields.Push | pkg/plugin/attribute.go:129 | Append adds exactly one slot at the end and keeps every earlier slot, the name and the type |
| Fields.Widen | pkg/plugin/attribute.go:175-187 | the rebuilt field is Float64, one slot longer, the new float last, every earlier integer k replaced by float64(k) and every null kept |
| Fields.WidenValues | pkg/plugin/attribute.go:178-186 | the conversion loop over a fresh slice computes exactly the values of Widen |
| Attributes.IsLayout | pkg/plugin/attribute.go:29 | a directive is a Go layout exactly when it is neither empty nor one of the two unix directives |
| Attributes.UnixSecondsTime | pkg/plugin/attribute.go:50 | time.Unix(i, 0): the instant lies exactly i seconds from the epoch, with no nanoseconds |
| Attributes.UnixMillisTime | pkg/plugin/attribute.go:54-56 | the milliseconds split gives an instant exactly i milliseconds from the epoch, with nanoseconds strictly between -10^9 and 10^9 |
| Attributes.TruncDivMod | pkg/plugin/attribute.go:54-55 | Go's truncating quotient and remainder recombine to the dividend, and the remainder takes the dividend's sign |
| Attributes.UnixMillisExact | pkg/plugin/attribute.go:54-56 | the milliseconds split loses nothing: seconds*1000 + nanos/1000000 == i and seconds*10^9 + nanos == i*10^6, with nanos strictly between -10^9 and 10^9 and never negative for a non-negative i |
| Attributes.UnixMillisNegative | pkg/plugin/attribute.go:155-157 | -500 ms is handed to time.Unix as (0, -500000000): the split does not normalise |
| Attributes.Create | pkg/plugin/attribute.go:24-113 | NULL and only NULL gives no attribute and no error; any other success is a well-typed field of length rowIndex+1, null before the last slot, which holds a value |
| Attributes.AppendStep | pkg/plugin/attribute.go:119-248 | a successful append keeps the name, adds exactly one slot, keeps the type or widens Int64 to Float64, keeps which earlier slots are null, keeps all earlier slots when the type stays, and appends a null exactly for NULL |
| Attributes.AppendVersusCreate | pkg/plugin/attribute.go:119-248 | Append against NewAttribute: it fails when NewAttribute would fail; NULL appends a null; a value of the column's own type is appended as NewAttribute decodes it; an integer under Float64 is stored as its float; a float under Int64 widens; any other kind is a mismatch naming the column, its type and the kind |
| Attributes.CreateIntegerDirectives | pkg/plugin/attribute.go:49-64 | for an integer N: directive "1" gives time.Unix(i, 0), "2" gives a time whose seconds and nanoseconds recombine to i milliseconds, a layout directive is "invalid datetime format", no directive gives an Int64 column |
| Attributes.CreateStringDirectives | pkg/plugin/attribute.go:27-41 | an S value under a layout directive becomes a Time column via time.Parse and a failed parse is an error; under no directive or a unix directive it stays a String column |
| Attributes.CreateNumberType | pkg/plugin/attribute.go:43-70 | the first number fixes the type: an int64 text gives Int64, any other parsable number gives Float64 whatever the directive, an unparsable text is the parse error |
| Attributes.BinaryPlaceholders | pkg/plugin/attribute.go:72-110 | B is stored as "[B]" and BS as "[BS]" in a String column, and a later B or BS appends exactly when the column is String |
| Attributes.TypeChangeIsWiden | pkg/plugin/attribute.go:119-248 | the only append that changes a column's type is a non-integer N at an Int64 column, and the result is then exactly the widening rebuild |
| Attributes.WideningConvertsHistory | pkg/plugin/attribute.go:175-187 | a float arriving at an Int64 column widens it to Float64, one slot longer, the float last, earlier nulls kept and earlier integers converted |
| Attributes.IntegerIntoFloatColumn | pkg/plugin/attribute.go:164-165 | an integer appended to a Float64 column is stored as its float and the type stays Float64 |
| Attributes.Attribute.constructor | pkg/plugin/attribute.go:112 | the attribute holds its name, field and directive, with the field named after it and well typed |
| Attributes.Attribute.Append | pkg/plugin/attribute.go:119-248 | the field becomes AppendStep's result; on error it is unchanged and the error is AppendStep's; on success the size grows by exactly one |
| Attributes.NewAttribute | pkg/plugin/attribute.go:24-113 | returns Create's error, no attribute for NULL, or a fresh attribute holding Create's field with the given name and the captured directive |
| Columns.Column.constructor | pkg/plugin/column.go:82 | the column holds its name and a well-typed field named after it |
| Columns.Column.AppendValue | pkg/plugin/column.go:89-186 | behaves as Append under the empty directive: the field becomes AppendStep's result, is unchanged on error, and grows by exactly one on success |
| Columns.NewColumn | pkg/plugin/column.go:21-83 | behaves as NewAttribute under the empty directive: Create's error, no column for NULL, or a fresh column holding Create's field |
| Columns.FirstNumberFixesType | pkg/plugin/column.go:28-40 | without a directive the first parsable number gives an Int64 column for an int64 text and a Float64 column otherwise |
| Columns.ColumnMismatch | pkg/plugin/column.go:89-186 | a non-numeric value whose kind's column type is not the column's type is a type mismatch naming the column, its type and the kind, checked before any decoding; an int64 or float N under a column that is neither Int64 nor Float64 is a mismatch naming "N"; a matching S, B, BOOL, SS or BS always appends |
| DataFrame.DirectiveFor | pkg/plugin/dataframe.go:12-15 | the directive is the map's entry for the name, or "" when it has none |
| DataFrame.PadField | pkg/plugin/dataframe.go:36-38 | the field keeps its name and type; when it is not the expected size it gets exactly one more slot, a null, at the end, and otherwise it is unchanged |
| DataFrame.PadFieldKeepsSlots | pkg/plugin/dataframe.go:36-38 | padding keeps every slot the field already has |
| DataFrame.ValueStep | pkg/plugin/dataframe.go:17-30 | one present value creates the column (NewAttribute) or appends to it; the result is named after the column, well typed and one slot longer, and an existing column is never dropped |
| DataFrame.RowStep | pkg/plugin/dataframe.go:11-31 | a row that lacks the name leaves the column as it was; otherwise ValueStep with the column's directive |
| DataFrame.ColumnAt | pkg/plugin/dataframe.go:10-40 | after k rows a column that exists is named after its attribute, well typed and exactly k long |
| DataFrame.NextRowAbsent | pkg/plugin/dataframe.go:34-39 | a row without the name only pads the column with one null |
| DataFrame.NextRowPresent | pkg/plugin/dataframe.go:11-39 | a row that holds the name applies the row step and then the padding, or fails with the step's error |
| DataFrame.AppendExisting | pkg/plugin/dataframe.go:17-21 | appending to a registered attribute mutates that one object as ValueStep says and no other |
| DataFrame.CreateMissing | pkg/plugin/dataframe.go:22-29 | a new name goes through NewAttribute with its directive, or "" when there is none; the attribute is registered only when one was built |
| DataFrame.AppendName | pkg/plugin/dataframe.go:12-30 | one name of the row takes its row step, and every other column is untouched |
| DataFrame.AppendRow | pkg/plugin/dataframe.go:11-31 | the inner loop, in any key order, brings every name of the row to its row step, or stops at a name whose step fails |
| DataFrame.PadAttribute | pkg/plugin/dataframe.go:36-38 | a column shorter than the row count gets exactly one null |
| DataFrame.PadOne | pkg/plugin/dataframe.go:35-38 | one iteration pads the attribute it visits as PadField says and leaves every other attribute's field as it was |
| DataFrame.PadColumns | pkg/plugin/dataframe.go:34-39 | every column is padded as PadField says and no column is added or removed |
| DataFrame.RowFails | pkg/plugin/dataframe.go:18-26 | a failing row step in a row where every column was fine makes that row the first failure |
| DataFrame.RowSucceeds | pkg/plugin/dataframe.go:33-39 | after the inner loop and the padding, the columns are exactly ColumnAt after one more row |
| DataFrame.ProcessRow | pkg/plugin/dataframe.go:10-40 | one row iteration takes the builder state from k rows to k+1 rows, or reports an error of the first failing row |
| DataFrame.BuildColumns | pkg/plugin/dataframe.go:9-40 | the row loop ends with exactly the columns ColumnAt describes after the last row, or with an error of the first failing row |
| DataFrame.CollectFields | pkg/plugin/dataframe.go:43-45 | the frame's field list holds every attribute's field exactly once, in some order |
| DataFrame.FrameFromColumns | pkg/plugin/dataframe.go:42-47 | the collected fields are exactly the columns after the last row, each as long as the item list |
| DataFrame.QueryResultToDataFrame | pkg/plugin/dataframe.go:8-48 | succeeds exactly when every column succeeds over all rows; an error is one of the first failing row and no frame is returned; on success the frame has the given name, exactly one field per existing column, and every field is as long as the item list |
| DataFrame.ColumnErrorSticky | pkg/plugin/dataframe.go:18-26 | once a column fails it stays failed with the same error: the abort is final |
| DataFrame.FirstFailureRow | pkg/plugin/dataframe.go:18-26 | the error reported always comes from the same row: the first one in which any column fails |
| DataFrame.LazyCreation | pkg/plugin/dataframe.go:22-29 | a column exists after k rows exactly when some earlier row holds a non-NULL value for it |
| DataFrame.NullsWhereAbsent | pkg/plugin/dataframe.go:34-39 | slot r of a column is null exactly when row r lacks the name or holds NULL |
| DataFrame.ColumnGrows | pkg/plugin/dataframe.go:10-40 | between rows j and k a column keeps existing and its type stays or widens Int64 to Float64; without widening its first j slots stay as they were, and with widening each of them is a null kept null or an integer now read as its float64 |
| DataFrame.ColumnPersists | pkg/plugin/dataframe.go:27-29 | a column, once created, is never removed |
| DataFrame.TypeOnlyWidens | pkg/plugin/attribute.go:171-191 | over any stretch of rows a column's type stays or goes from Int64 to Float64, never back |
| DataFrame.HistoryKept | pkg/plugin/dataframe.go:17-21 | a column whose type is the same at rows j and k kept its first j slots |
| DataFrame.WidenedHistory | pkg/plugin/attribute.go:175-187 | a column whose type changed between rows j and k went from Int64 to Float64, and each of its first j slots is a null kept null or an integer now read as float64 of it |
| Scenarios.AbsentEverywhere | pkg/plugin/dataframe.go:10-31 | a name that no row holds never gets a column |
| Scenarios.SingleColumnFrame | pkg/plugin/dataframe.go:42-45 | when rows hold at most one name, the frame is that name's column alone |
| Scenarios.GapColumn | pkg/plugin/dataframe.go:10-40 | rows "value, empty item, value" build the column at row 0, pad it at row 1 and append at row 2 |
| Scenarios.IntColumn | pkg/plugin/utils_test.go:125-155 | the "N int" case: an Int64 column 1, null, 2 |
| Scenarios.IntFrame | pkg/plugin/utils_test.go:143-154 | the "N int" frame is that column alone |
| Scenarios.FloatColumn | pkg/plugin/utils_test.go:156-185 | the "N float" case: a Float64 column of the parsed floats with a null between |
| Scenarios.IntThenFloatColumn | pkg/plugin/utils_test.go:186-215 | the "N int & float" case: the column widens to Float64 holding float64(1), null, the parsed 2.1 |
| Scenarios.IntThenFloatFrame | pkg/plugin/utils_test.go:204-214 | the "N int & float" frame is that widened column alone |
| Scenarios.FloatThenIntColumn | pkg/plugin/utils_test.go:216-245 | the "N float & int" case: a Float64 column holding the parsed 1.1, null, float64(2) |
| Scenarios.PairColumn | pkg/plugin/utils_test.go:34-67 | the three items a two-item case reads back (its two items and the empty third one left in the table) build the column at row 0, append at row 1 and pad at row 2 |
| Scenarios.PairOfValues | pkg/plugin/dataframe.go:10-40 | two values that build [x1] and append x2 give the column x1, x2, null on those items |
| Scenarios.BoolColumn | pkg/plugin/utils_test.go:246-270 | the "BOOL" case: a Bool column true, false, then the null of the item left behind |
| Scenarios.MapColumn | pkg/plugin/utils_test.go:271-307 | the "M" case: a JSON column of the two documents the map encoder writes, then a null |
| Scenarios.ListColumn | pkg/test/dataframe_test.go:206-242 | the "L" case: a JSON column of the two documents the list encoder writes, then a null |
| Scenarios.TwoStrings | pkg/plugin/utils.go:139-145 | a two-string set is written as the array of its two strings |
| Scenarios.StringSetColumn | pkg/test/dataframe_test.go:244-266 | the "SS" case: a JSON column of the arrays ["s1","s2"] and ["s3","s4"], then a null, with no assumption, since a string set never fails |
| Scenarios.TwoNumbers | pkg/plugin/utils.go:147-167 | a two-member number set whose members parse, with finite floats, is the array of the two numbers |
| Scenarios.SignedTexts | pkg/plugin/utils.go:48 | "-2" is the int64 -2 and "-3.1" is no int64 |
| Scenarios.NumberSetColumn | pkg/test/dataframe_test.go:268-290 | the "NS" case: a JSON column of [1.1 as float, 2 as int] and [-2 as int, -3.1 as float], then a null, when the two floats parse to finite values |
| Scenarios.NumberSetPair | pkg/plugin/dataframe.go:10-40 | two number sets that encode make a JSON column of their two documents, then a null |
| Scenarios.UnixCreate | pkg/plugin/attribute.go:49-58 | the first integer text under "1" or "2" makes a one-slot Time column of its instant |
| Scenarios.UnixAppend | pkg/plugin/attribute.go:144-159 | a later integer text under the same directive appends its instant to the Time column |
| Scenarios.UnixGap | pkg/test/dataframe_test.go:292-350 | any two int64 texts under directive "1" or "2", with an empty item between, give a Time column of their instants with a null between |
| Scenarios.UnixSecondsColumn | pkg/test/dataframe_test.go:292-320 | the "Datetime Unix seconds" case: under directive "1" a Time column time.Unix(1730070176, 0), null, time.Unix(1730070193, 0) |
| Scenarios.UnixMillisColumn | pkg/test/dataframe_test.go:322-350 | the "Datetime Unix miliseconds" case: under directive "2" the milliseconds 1730070554000 and 1730070568000 become the instants (1730070554, 0) and (1730070568, 0), with a null between |
| Scenarios.LayoutColumn | pkg/test/dataframe_test.go:352-384 | the "Datetime Custom format ISO8601" case: under the layout the strings become the instants time.Parse gives, with a null between |
| Scenarios.MismatchFails | pkg/plugin/attribute.go:132-134 | a string arriving at a Bool column fails the build with a type mismatch naming the column, Bool and "S" |

`Attribute.Type`, `Attribute.Size`, `Column.Type` and `Column.Size` are
modelled as functions that read the field (`pkg/plugin/attribute.go:20-22`,
`115-117`; `pkg/plugin/column.go:17-19`, `85-87`). The contracts above use them.

## Left out

- `pkg/plugin/datasource.go` is not part of this model: AWS sessions, the HTTP client, `ExecuteStatementWithContext`, query unmarshalling and `CheckHealth` are network and SDK calls.
- `PrintDataFrame`, `loadExtraPluginSettings`, `CreateTestDatasource` and `Pointer` in `pkg/plugin/utils.go` are left out: console output, configuration and test plumbing.
- The internals of `mapToJson` and `listToJson` are left out. They rely on the AWS unmarshaller and `json.Marshal`, and are parameters that may fail (`Env.mapToJson`, `Env.listToJson`).
- `time.Parse` with Go layouts, and the translation between dayjs and Go layouts, are left out. They are foreign date libraries; the layout parse is the parameter `Env.parseTime`.
- Float semantics are left out. `strconv.ParseFloat` and the rounding of `float64(i)` are parameters; the only float fact used is that `json.Marshal` refuses NaN and infinities.
- MarshalArray: it models `json.Marshal` of the number slice (`pkg/plugin/utils.go:162-165`) by assumption. It fails exactly on a NaN or infinite float, and otherwise writes the array. The encoder itself is not part of this model.
- Utils.NumberSetJsonShape: it states fail-as-a-whole in one direction only. A set whose members all parse can still fail in `json.Marshal` on a NaN or infinite float; NumberSetRefusesNonFinite states that case.
- The SDK struct can arrive with no kind set, or with several set. The model's `AttributeValue` has exactly one kind, as DynamoDB sends it. With no kind set, the source's `NewAttribute` would return an attribute with a nil field.
- A nil element inside an SS set, or inside an NS set, is left out: the set members are plain strings.
- `time.Unix` normalisation of out-of-range nanoseconds is left out. A time is the `(seconds, nanoseconds)` pair handed to `time.Unix`.
- The JSON text is left out. A JSON value is the document `json.Marshal` serialises, not its bytes.
- The split between `JInt` and `JFloat` in a number set is finer than the text: `json.Marshal` writes the int 2 and the float 2.0 both as `2`, so the stored RawMessage does not show it.
- The order of the frame's fields is left out, because it follows Go map iteration order. The same goes for which of several failing names in the first failing row is reported; the model only says it is one of them.
- The round trip of the test items through DynamoDB is left out, in `pkg/plugin/utils_test.go` and in `pkg/test`: the tests write them to a live local table and read them back. The scenarios start from the items the query returns, as the key layout gives them. Every case writes to one table under sort keys 1, 2, ..., so a two-item case (BOOL, M, L, SS, NS) also reads back the third item that the three-item case before it left behind, with none of its attribute; the scenarios include it, and the tests themselves read only the first two slots.
- The first six cases of `pkg/test/dataframe_test.go` (N int to M, lines 22-205) use the same items as those of `pkg/plugin/utils_test.go` and are restated once. Its L, SS, NS and datetime cases have scenarios of their own.
- UnixSecondsColumn and UnixMillisColumn: the N texts are written as the decimal spelling of the integers (`FormatInt`), and the test's check of the calendar date is not restated, because calendar arithmetic is in `time`.
- LayoutColumn: the instants are parameters, because `time.Parse` is.
