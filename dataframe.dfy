/**
 * QueryResultToDataFrame (pkg/plugin/dataframe.go): rows of DynamoDB items in,
 * one column per attribute name out. ColumnAt says, for one attribute name,
 * what the builder holds for it after k rows; the builder method is proved
 * against it for every order in which Go may iterate its maps.
 */
module DataFrame {
  import opened Types
  import opened Utils
  import opened Fields
  import opened Attributes

  /** One item of the query output: attribute name to value. */
  type Row = map<string, AttributeValue>

  datatype Frame = Frame(name: string, fields: seq<Field>)

  /** The directive configured for a column, "" when there is none. */
  function DirectiveFor(dir: map<string, string>, name: string): (r: string)
    ensures name !in dir ==> r == ""
    ensures name in dir ==> r == dir[name]
  {
    if name in dir then dir[name] else ""
  }

  /** A row that contributes a null to a column: the name is missing or holds NULL. */
  predicate AbsentOrNull(row: Row, name: string) {
    name !in row || row[name].NULL?
  }

  /**
   * One present value at row rowIndex: NewAttribute when the column does not
   * exist yet, Append otherwise. The column is one slot longer afterwards.
   */
  function ValueStep(prev: Option<Field>, rowIndex: nat, name: string, v: AttributeValue, format: string, env: Env): (r: Result<Option<Field>>)
    requires prev.Some? ==> prev.value.name == name && WellTyped(prev.value) && |prev.value.values| == rowIndex
    ensures r.Ok? && r.value.Some? ==>
      r.value.value.name == name && WellTyped(r.value.value) && |r.value.value.values| == rowIndex + 1
    ensures r.Ok? && prev.Some? ==> r.value.Some?
  {
    match prev
    case None => Create(rowIndex, name, v, format, env)
    case Some(f) =>
      (match AppendStep(f, format, v, env)
       case Err(e) => Err(e)
       case Ok(g) => Ok(Some(g)))
  }

  /** The inner loop's effect on one column at row rowIndex: nothing when the row lacks the name. */
  function RowStep(prev: Option<Field>, rowIndex: nat, name: string, row: Row, format: string, env: Env): (r: Result<Option<Field>>)
    requires prev.Some? ==> prev.value.name == name && WellTyped(prev.value) && |prev.value.values| == rowIndex
    ensures r.Ok? && r.value.Some? ==>
      r.value.value.name == name && WellTyped(r.value.value) &&
      |r.value.value.values| == if name in row then rowIndex + 1 else rowIndex
    ensures r.Ok? && prev.Some? ==> r.value.Some?
  {
    if name !in row then Ok(prev) else ValueStep(prev, rowIndex, name, row[name], format, env)
  }

  /** The padding loop on one column: one null appended when it is not `size` long. */
  function Pad(o: Option<Field>, size: nat): Option<Field> {
    if o.Some? then Some(PadField(o.value, size)) else None
  }

  /**
   * The column `name` after the first k rows: an error once some row failed,
   * no column while every row so far lacked the name or held NULL, otherwise
   * a well-typed field exactly k long.
   */
  function ColumnAt(items: seq<Row>, name: string, dir: map<string, string>, env: Env, k: nat): (r: Result<Option<Field>>)
    requires k <= |items|
    ensures r.Ok? && r.value.Some? ==>
      r.value.value.name == name && WellTyped(r.value.value) && |r.value.value.values| == k
    decreases k
  {
    if k == 0 then Ok(None)
    else
      match ColumnAt(items, name, dir, env, k - 1)
      case Err(e) => Err(e)
      case Ok(prev) =>
        (match RowStep(prev, k - 1, name, items[k - 1], DirectiveFor(dir, name), env)
         case Err(e) => Err(e)
         case Ok(o) => Ok(Pad(o, k)))
  }

  /** Row rowIndex is the first row in which some column fails, and `name` fails there with e. */
  ghost predicate FirstFailure(items: seq<Row>, dir: map<string, string>, env: Env, rowIndex: nat, name: string, e: Error) {
    rowIndex < |items| &&
    (forall m :: ColumnAt(items, m, dir, env, rowIndex).Ok?) &&
    ColumnAt(items, name, dir, env, rowIndex + 1) == Err(e)
  }

  /** Some row is the first failing one, with e as the error of a column failing there. */
  ghost predicate Failed(items: seq<Row>, dir: map<string, string>, env: Env, e: Error) {
    exists i: nat, n :: FirstFailure(items, dir, env, i, n, e)
  }

  function Names(fields: seq<Field>): seq<string> {
    seq(|fields|, k requires 0 <= k < |fields| => fields[k].name)
  }

  /**
   * The fields are exactly the columns that exist after the last row, each
   * once, in some order.
   */
  ghost predicate FrameMatches(items: seq<Row>, dir: map<string, string>, env: Env, fields: seq<Field>) {
    (forall k :: 0 <= k < |fields| ==> ColumnAt(items, fields[k].name, dir, env, |items|) == Ok(Some(fields[k]))) &&
    (forall i, j :: 0 <= i < j < |fields| ==> fields[i].name != fields[j].name) &&
    (forall n :: ColumnAt(items, n, dir, env, |items|).Ok? && ColumnAt(items, n, dir, env, |items|).value.Some? ==>
      n in Names(fields))
  }

  /** The attributes map of the builder: keyed by column name, one object per column. */
  ghost predicate Registry(attributes: map<string, Attribute>, dir: map<string, string>)
    reads attributes.Values
  {
    (forall n :: n in attributes ==>
      attributes[n].name == n && attributes[n].tsFormat == DirectiveFor(dir, n) && attributes[n].Valid()) &&
    Distinct(attributes)
  }

  /** Different names, different objects. */
  predicate Distinct(attributes: map<string, Attribute>) {
    forall n, m :: n in attributes && m in attributes && n != m ==> attributes[n] != attributes[m]
  }

  /** The fields the attributes hold, as values. */
  ghost predicate Mirrors(attributes: map<string, Attribute>, cols: map<string, Field>)
    reads attributes.Values
  {
    attributes.Keys == cols.Keys && forall n :: n in attributes ==> attributes[n].value == cols[n]
  }

  /** The attributes are registered under their names and hold cols. */
  ghost predicate Tracks(attributes: map<string, Attribute>, cols: map<string, Field>, dir: map<string, string>)
    reads attributes.Values
  {
    Registry(attributes, dir) && Mirrors(attributes, cols)
  }

  function Before(cols: map<string, Field>, n: string): Option<Field> {
    if n in cols then Some(cols[n]) else None
  }

  /** cols is exactly the set of columns after k rows. */
  ghost predicate Columns(items: seq<Row>, dir: map<string, string>, env: Env, k: nat, cols: map<string, Field>)
    requires k <= |items|
  {
    forall n :: ColumnAt(items, n, dir, env, k) == Ok(Before(cols, n))
  }

  /** The columns that exist when a row starts, as the row step expects them. */
  predicate StartOk(start: map<string, Field>, rowIndex: nat) {
    forall n :: n in start ==> start[n].name == n && WellTyped(start[n]) && |start[n].values| == rowIndex
  }

  lemma ColumnsStartOk(items: seq<Row>, dir: map<string, string>, env: Env, k: nat, cols: map<string, Field>)
    requires k <= |items| && Columns(items, dir, env, k, cols)
    ensures StartOk(cols, k)
  {
    forall n | n in cols
      ensures cols[n].name == n && WellTyped(cols[n]) && |cols[n].values| == k
    {
      assert ColumnAt(items, n, dir, env, k) == Ok(Some(cols[n]));
    }
  }

  /** The row step of every name present in row rowIndex. */
  predicate IsRowTarget(rowIndex: nat, row: Row, start: map<string, Field>, target: map<string, Result<Option<Field>>>,
                        dir: map<string, string>, env: Env)
    requires StartOk(start, rowIndex)
  {
    row.Keys <= target.Keys &&
    forall n {:trigger RowStep(Before(start, n), rowIndex, n, row, DirectiveFor(dir, n), env)} ::
      n in row ==> target[n] == RowStep(Before(start, n), rowIndex, n, row, DirectiveFor(dir, n), env)
  }

  /** One field's step of the padding loop: a null appended when the field is short of `size`. */
  function PadField(f: Field, size: nat): (g: Field)
    ensures g.name == f.name && g.ftype == f.ftype
    ensures |f.values| == size ==> g == f
    ensures |f.values| != size ==> |g.values| == |f.values| + 1 && g.values[|f.values|].None?
  {
    if |f.values| != size then f.(values := f.values + [None]) else f
  }

  /** Padding never touches the slots a field already has. */
  lemma PadFieldKeepsSlots(f: Field, size: nat)
    ensures |f.values| <= |PadField(f, size).values| && PadField(f, size).values[..|f.values|] == f.values
  {
    if |f.values| != size {
      assert PadField(f, size).values == f.values + [None];
    }
  }

  /** One more row for a column the row lacks: the column is only padded. */
  lemma NextRowAbsent(items: seq<Row>, name: string, dir: map<string, string>, env: Env, rowIndex: nat, p: Option<Field>)
    requires rowIndex < |items| && name !in items[rowIndex]
    requires ColumnAt(items, name, dir, env, rowIndex) == Ok(p)
    ensures ColumnAt(items, name, dir, env, rowIndex + 1) == Ok(Pad(p, rowIndex + 1))
  {
  }

  /** One more row for a column the row holds: the row step t, then the padding. */
  lemma NextRowPresent(items: seq<Row>, name: string, dir: map<string, string>, env: Env, rowIndex: nat,
                       p: Option<Field>, t: Result<Option<Field>>)
    requires rowIndex < |items| && name in items[rowIndex]
    requires ColumnAt(items, name, dir, env, rowIndex) == Ok(p)
    requires t == RowStep(p, rowIndex, name, items[rowIndex], DirectiveFor(dir, name), env)
    ensures ColumnAt(items, name, dir, env, rowIndex + 1) == match t case Err(e) => Err(e) case Ok(o) => Ok(Pad(o, rowIndex + 1))
  {
  }

  /** A row step that fails is the first failure when every column was fine before the row. */
  lemma RowFails(items: seq<Row>, rowIndex: nat, start: map<string, Field>, target: map<string, Result<Option<Field>>>,
                 dir: map<string, string>, env: Env, n: string, e: Error)
    requires rowIndex < |items| && StartOk(start, rowIndex)
    requires Columns(items, dir, env, rowIndex, start)
    requires IsRowTarget(rowIndex, items[rowIndex], start, target, dir, env)
    requires n in items[rowIndex] && target[n] == Err(e)
    ensures FirstFailure(items, dir, env, rowIndex, n, e)
  {
    NextRowPresent(items, n, dir, env, rowIndex, Before(start, n), target[n]);
  }

  /**
   * A row that succeeds: with mid the fields once the row's names are done and
   * padded those fields after the padding loop, padded is the set of columns
   * after the row.
   */
  lemma RowSucceeds(items: seq<Row>, rowIndex: nat, start: map<string, Field>, target: map<string, Result<Option<Field>>>,
                    mid: map<string, Field>, padded: map<string, Field>, dir: map<string, string>, env: Env)
    requires rowIndex < |items| && StartOk(start, rowIndex)
    requires Columns(items, dir, env, rowIndex, start)
    requires IsRowTarget(rowIndex, items[rowIndex], start, target, dir, env)
    requires RowDone(items[rowIndex], {}, start, target, mid)
    requires padded.Keys == mid.Keys && forall n :: n in mid ==> padded[n] == PadField(mid[n], rowIndex + 1)
    ensures Columns(items, dir, env, rowIndex + 1, padded)
  {
    forall n
      ensures ColumnAt(items, n, dir, env, rowIndex + 1) == Ok(Before(padded, n))
    {
      if n in items[rowIndex] {
        NextRowPresent(items, n, dir, env, rowIndex, Before(start, n), target[n]);
      } else {
        NextRowAbsent(items, n, dir, env, rowIndex, Before(start, n));
      }
    }
  }

  /** Append of one value to an existing column, as the inner loop does it. */
  method AppendExisting(rowIndex: nat, name: string, v: AttributeValue, attrs: map<string, Attribute>,
                        ghost cols: map<string, Field>, datetimeAttributes: map<string, string>, env: Env)
    returns (ghost next: map<string, Field>, err: Option<Error>)
    requires Tracks(attrs, cols, datetimeAttributes)
    requires name in attrs && |cols[name].values| == rowIndex
    modifies attrs[name]
    ensures err.Some? ==>
      ValueStep(Before(cols, name), rowIndex, name, v, DirectiveFor(datetimeAttributes, name), env) == Err(err.value)
    ensures err.None? ==>
      ValueStep(Before(cols, name), rowIndex, name, v, DirectiveFor(datetimeAttributes, name), env) == Ok(Before(next, name))
    ensures err.None? ==> Tracks(attrs, next, datetimeAttributes)
    ensures err.None? ==> forall n :: n != name ==> Before(next, n) == Before(cols, n)
  {
    var a := attrs[name];
    err := a.Append(v, env);
    next := cols[name := a.value];
  }

  /** NewAttribute for a name without a column, registered unless the value is NULL. */
  method CreateMissing(rowIndex: nat, name: string, v: AttributeValue, attrs: map<string, Attribute>,
                       ghost cols: map<string, Field>, datetimeAttributes: map<string, string>, env: Env)
    returns (attrs': map<string, Attribute>, ghost next: map<string, Field>, err: Option<Error>)
    requires Tracks(attrs, cols, datetimeAttributes)
    requires name !in attrs
    ensures err.Some? ==>
      ValueStep(None, rowIndex, name, v, DirectiveFor(datetimeAttributes, name), env) == Err(err.value)
    ensures err.None? ==>
      ValueStep(None, rowIndex, name, v, DirectiveFor(datetimeAttributes, name), env) == Ok(Before(next, name))
    ensures err.None? ==> Tracks(attrs', next, datetimeAttributes)
    ensures err.None? ==> forall n :: n != name ==> Before(next, n) == Before(cols, n)
    ensures err.None? ==> fresh(attrs'.Values - attrs.Values)
  {
    attrs', next := attrs, cols;
    var newAttribute := NewAttribute(rowIndex, name, v, DirectiveFor(datetimeAttributes, name), env);
    if newAttribute.Err? {
      return attrs', next, Some(newAttribute.error);
    }
    if newAttribute.value.Some? {
      var a := newAttribute.value.value;
      TracksInsert(attrs, cols, datetimeAttributes, name, a);
      attrs' := attrs[name := a];
      next := cols[name := a.value];
    }
    err := None;
  }

  /** Registering a new attribute under its own name keeps the builder's bookkeeping. */
  lemma TracksInsert(attrs: map<string, Attribute>, cols: map<string, Field>, dir: map<string, string>, name: string, a: Attribute)
    requires Tracks(attrs, cols, dir) && name !in attrs && a !in attrs.Values
    requires a.name == name && a.tsFormat == DirectiveFor(dir, name) && a.Valid()
    ensures Tracks(attrs[name := a], cols[name := a.value], dir)
  {
  }

  /**
   * Progress through row rowIndex: the names already done (present in the row,
   * not in todo) hold their row step, all other names still hold their start.
   */
  ghost predicate RowDone(row: Row, todo: set<string>, start: map<string, Field>, target: map<string, Result<Option<Field>>>,
                    cols: map<string, Field>)
    requires row.Keys <= target.Keys
  {
    (forall n :: n in row && n !in todo ==> target[n] == Ok(Before(cols, n))) &&
    (forall n :: n !in row || n in todo ==> Before(cols, n) == Before(start, n))
  }

  /** One iteration of the inner loop: the value of `name` appended or its column created. */
  method AppendName(rowIndex: nat, row: Row, name: string, todo: set<string>, attrs: map<string, Attribute>,
                    ghost start: map<string, Field>, ghost target: map<string, Result<Option<Field>>>,
                    ghost cols: map<string, Field>, datetimeAttributes: map<string, string>, env: Env)
    returns (attrs': map<string, Attribute>, ghost cols': map<string, Field>, err: Option<Error>)
    requires name in todo && todo <= row.Keys
    requires StartOk(start, rowIndex)
    requires IsRowTarget(rowIndex, row, start, target, datetimeAttributes, env)
    requires Tracks(attrs, cols, datetimeAttributes)
    requires RowDone(row, todo, start, target, cols)
    modifies attrs.Values
    ensures err.Some? ==> target[name] == Err(err.value)
    ensures err.None? ==> Tracks(attrs', cols', datetimeAttributes)
    ensures err.None? ==> RowDone(row, todo - {name}, start, target, cols')
    ensures err.None? ==> fresh(attrs'.Values - attrs.Values)
  {
    assert target[name] == RowStep(Before(start, name), rowIndex, name, row, DirectiveFor(datetimeAttributes, name), env);
    attrs' := attrs;
    if name in attrs {
      cols', err := AppendExisting(rowIndex, name, row[name], attrs, cols, datetimeAttributes, env);
    } else {
      attrs', cols', err := CreateMissing(rowIndex, name, row[name], attrs, cols, datetimeAttributes, env);
    }
  }

  /**
   * The inner loop of QueryResultToDataFrame over one row: every present value
   * is appended to its column, or creates the column when there is none; the
   * first failure ends the row with that column's error. `start` holds the
   * fields as they were when the row began and `target` the row step of each
   * name present in the row; `cols` is the fields afterwards.
   */
  method AppendRow(rowIndex: nat, row: Row, attributes: map<string, Attribute>,
                   ghost start: map<string, Field>, ghost target: map<string, Result<Option<Field>>>,
                   datetimeAttributes: map<string, string>, env: Env)
    returns (attrs: map<string, Attribute>, ghost cols: map<string, Field>, err: Option<Error>)
    requires StartOk(start, rowIndex)
    requires IsRowTarget(rowIndex, row, start, target, datetimeAttributes, env)
    requires Tracks(attributes, start, datetimeAttributes)
    modifies attributes.Values
    ensures err.Some? ==> exists n :: n in row && target[n] == Err(err.value)
    ensures err.None? ==> Tracks(attrs, cols, datetimeAttributes)
    ensures err.None? ==> fresh(attrs.Values - attributes.Values)
    ensures err.None? ==> RowDone(row, {}, start, target, cols)
  {
    attrs, cols := attributes, start;
    var todo := row.Keys;
    err := None;
    while todo != {}
      invariant todo <= row.Keys
      invariant err.None?
      invariant Tracks(attrs, cols, datetimeAttributes)
      invariant fresh(attrs.Values - attributes.Values)
      invariant RowDone(row, todo, start, target, cols)
      decreases todo
    {
      var name :| name in todo;
      attrs, cols, err := AppendName(rowIndex, row, name, todo, attrs, start, target, cols, datetimeAttributes, env);
      if err.Some? {
        return;
      }
      todo := todo - {name};
    }
  }

  /** The padding loop: every column shorter than `size` gets one null appended. */
  method PadColumns(attributes: map<string, Attribute>, ghost cols: map<string, Field>, size: nat)
    returns (ghost padded: map<string, Field>)
    requires (forall n :: n in attributes ==> attributes[n].Valid()) && Distinct(attributes)
    requires Mirrors(attributes, cols)
    modifies attributes.Values
    ensures forall n :: n in attributes ==> attributes[n].Valid()
    ensures Mirrors(attributes, padded)
    ensures padded.Keys == cols.Keys && forall n :: n in cols ==> padded[n] == PadField(cols[n], size)
  {
    padded := cols;
    var pending := attributes.Keys;
    while pending != {}
      invariant pending <= attributes.Keys
      invariant forall n :: n in attributes ==> attributes[n].Valid()
      invariant Mirrors(attributes, padded)
      invariant padded.Keys == cols.Keys
      invariant forall n :: n in cols ==> padded[n] == if n in pending then cols[n] else PadField(cols[n], size)
      decreases pending
    {
      var n :| n in pending;
      padded := PadOne(attributes, padded, n, size);
      pending := pending - {n};
    }
  }

  /** One iteration of the padding loop: only the attribute n changes. */
  method PadOne(attributes: map<string, Attribute>, ghost cols: map<string, Field>, n: string, size: nat)
    returns (ghost padded: map<string, Field>)
    requires (forall m :: m in attributes ==> attributes[m].Valid()) && Distinct(attributes)
    requires Mirrors(attributes, cols) && n in attributes
    modifies attributes[n]
    ensures forall m :: m in attributes ==> attributes[m].Valid()
    ensures Mirrors(attributes, padded)
    ensures padded == cols[n := PadField(cols[n], size)]
  {
    var c := attributes[n];
    PadAttribute(c, size);
    padded := cols[n := c.value];
  }

  /** The body of the padding loop: `c.Value.Append(nil)` when c is not `size` long. */
  method PadAttribute(c: Attribute, size: nat)
    requires c.Valid()
    modifies c
    ensures c.Valid() && c.value == PadField(old(c.value), size)
  {
    if c.Size() != size {
      c.value := Push(c.value, None);
    }
  }

  /** The final loop: every column's field, once each, in map iteration order. */
  method CollectFields(attributes: map<string, Attribute>, ghost cols: map<string, Field>) returns (fields: seq<Field>)
    requires Mirrors(attributes, cols)
    requires forall n :: n in cols ==> cols[n].name == n
    ensures forall k :: 0 <= k < |fields| ==> fields[k].name in cols && fields[k] == cols[fields[k].name]
    ensures forall i, j :: 0 <= i < j < |fields| ==> fields[i].name != fields[j].name
    ensures forall n :: n in cols ==> n in Names(fields)
  {
    fields := [];
    var pending := attributes.Keys;
    while pending != {}
      invariant pending <= attributes.Keys
      invariant forall k :: 0 <= k < |fields| ==>
        fields[k].name in cols && fields[k].name !in pending && fields[k] == cols[fields[k].name]
      invariant forall i, j :: 0 <= i < j < |fields| ==> fields[i].name != fields[j].name
      invariant forall n :: n in cols && n !in pending ==> n in Names(fields)
      decreases pending
    {
      var n :| n in pending;
      var c := attributes[n];
      assert Names(fields + [c.value]) == Names(fields) + [n];
      fields := fields + [c.value];
      pending := pending - {n};
    }
  }

  /** The collected fields form the frame the columns describe. */
  lemma FrameFromColumns(items: seq<Row>, dir: map<string, string>, env: Env, cols: map<string, Field>, fields: seq<Field>)
    requires Columns(items, dir, env, |items|, cols)
    requires forall k :: 0 <= k < |fields| ==> fields[k].name in cols && fields[k] == cols[fields[k].name]
    requires forall i, j :: 0 <= i < j < |fields| ==> fields[i].name != fields[j].name
    requires forall n :: n in cols ==> n in Names(fields)
    ensures FrameMatches(items, dir, env, fields)
    ensures forall k :: 0 <= k < |fields| ==> |fields[k].values| == |items|
  {
    forall k | 0 <= k < |fields|
      ensures ColumnAt(items, fields[k].name, dir, env, |items|) == Ok(Some(fields[k]))
    {
      assert ColumnAt(items, fields[k].name, dir, env, |items|) == Ok(Before(cols, fields[k].name));
    }
  }

  /**
   * One iteration of the row loop of QueryResultToDataFrame: the inner loop
   * over the row's names, then the padding of every column to rowIndex+1.
   */
  method ProcessRow(items: seq<Row>, rowIndex: nat, attributes: map<string, Attribute>, ghost cols: map<string, Field>,
                    datetimeAttributes: map<string, string>, env: Env)
    returns (attrs: map<string, Attribute>, ghost next: map<string, Field>, err: Option<Error>)
    requires rowIndex < |items|
    requires Builder(items, datetimeAttributes, env, rowIndex, attributes, cols)
    modifies attributes.Values
    ensures err.Some? ==> Failed(items, datetimeAttributes, env, err.value)
    ensures err.None? ==> Builder(items, datetimeAttributes, env, rowIndex + 1, attrs, next)
    ensures err.None? ==> fresh(attrs.Values - attributes.Values)
  {
    var row := items[rowIndex];
    ColumnsStartOk(items, datetimeAttributes, env, rowIndex, cols);
    ghost var target := map n | n in row ::
      RowStep(Before(cols, n), rowIndex, n, row, DirectiveFor(datetimeAttributes, n), env);
    ghost var mid;
    attrs, mid, err := AppendRow(rowIndex, row, attributes, cols, target, datetimeAttributes, env);
    if err.Some? {
      ghost var n :| n in row && target[n] == Err(err.value);
      RowFails(items, rowIndex, cols, target, datetimeAttributes, env, n, err.value);
      return attrs, cols, err;
    }
    next := PadColumns(attrs, mid, rowIndex + 1);
    RowSucceeds(items, rowIndex, cols, target, mid, next, datetimeAttributes, env);
  }

  /**
   * The builder's state after k rows: the attributes registered under their
   * names and holding cols, and cols holding exactly the columns ColumnAt
   * describes.
   */
  ghost predicate Builder(items: seq<Row>, dir: map<string, string>, env: Env, k: nat,
                          attributes: map<string, Attribute>, cols: map<string, Field>)
    requires k <= |items|
    reads attributes.Values
  {
    Registry(attributes, dir) && Mirrors(attributes, cols) && Columns(items, dir, env, k, cols)
  }

  /**
   * The row loop of QueryResultToDataFrame: for each row, append every present
   * value to its column or create the column, then pad the columns the row
   * left out. It stops at the first row in which some column fails.
   */
  method BuildColumns(items: seq<Row>, datetimeAttributes: map<string, string>, env: Env)
    returns (attributes: map<string, Attribute>, ghost cols: map<string, Field>, err: Option<Error>)
    ensures err.Some? ==> Failed(items, datetimeAttributes, env, err.value)
    ensures err.None? ==> Builder(items, datetimeAttributes, env, |items|, attributes, cols)
  {
    attributes, cols := map[], map[];
    NoRowsNoColumns(items, datetimeAttributes, env);
    var rowIndex := 0;
    while rowIndex < |items|
      invariant 0 <= rowIndex <= |items|
      invariant Builder(items, datetimeAttributes, env, rowIndex, attributes, cols)
      invariant fresh(attributes.Values)
    {
      attributes, cols, err := ProcessRow(items, rowIndex, attributes, cols, datetimeAttributes, env);
      if err.Some? {
        return;
      }
      rowIndex := rowIndex + 1;
    }
    err := None;
  }

  /** Before the first row there are no columns. */
  lemma NoRowsNoColumns(items: seq<Row>, dir: map<string, string>, env: Env)
    ensures Builder(items, dir, env, 0, map[], map[])
  {
  }

  /**
   * QueryResultToDataFrame: the columns of all rows collected into a frame. It
   * fails exactly when some column fails, with an error of the first failing
   * row; otherwise the frame holds every column that exists after the last row.
   */
  method QueryResultToDataFrame(dataFrameName: string, items: seq<Row>, datetimeAttributes: map<string, string>, env: Env)
    returns (r: Result<Frame>)
    ensures r.Ok? <==> forall n :: ColumnAt(items, n, datetimeAttributes, env, |items|).Ok?
    ensures r.Err? ==> Failed(items, datetimeAttributes, env, r.error)
    ensures r.Ok? ==> r.value.name == dataFrameName && FrameMatches(items, datetimeAttributes, env, r.value.fields)
    ensures r.Ok? ==> forall k :: 0 <= k < |r.value.fields| ==> |r.value.fields[k].values| == |items|
  {
    var attributes, cols, err := BuildColumns(items, datetimeAttributes, env);
    if err.Some? {
      ghost var i: nat, n :| FirstFailure(items, datetimeAttributes, env, i, n, err.value);
      ColumnErrorSticky(items, n, datetimeAttributes, env, i + 1, |items|);
      return Err(err.value);
    }
    ColumnsStartOk(items, datetimeAttributes, env, |items|, cols);
    var fields := CollectFields(attributes, cols);
    FrameFromColumns(items, datetimeAttributes, env, cols, fields);
    return Ok(Frame(dataFrameName, fields));
  }

  /** A failed column stays failed, with the same error, for the rest of the rows. */
  lemma {:induction false} ColumnErrorSticky(items: seq<Row>, name: string, dir: map<string, string>, env: Env, i: nat, j: nat)
    requires i <= j <= |items|
    requires ColumnAt(items, name, dir, env, i).Err?
    ensures ColumnAt(items, name, dir, env, j) == ColumnAt(items, name, dir, env, i)
    decreases j
  {
    if j > i {
      ColumnErrorSticky(items, name, dir, env, i, j - 1);
    }
  }

  /** The reported error comes from one definite row: the first row in which anything fails. */
  lemma FirstFailureRow(items: seq<Row>, dir: map<string, string>, env: Env,
                        i: nat, n: string, e: Error, i': nat, n': string, e': Error)
    requires FirstFailure(items, dir, env, i, n, e) && FirstFailure(items, dir, env, i', n', e')
    ensures i == i'
  {
    if i < i' {
      ColumnErrorSticky(items, n, dir, env, i + 1, i');
    } else if i' < i {
      ColumnErrorSticky(items, n', dir, env, i' + 1, i);
    }
  }

  /**
   * Lazy creation: a column exists after k rows exactly when some row before k
   * holds a non-NULL value for it.
   */
  lemma {:induction false} LazyCreation(items: seq<Row>, name: string, dir: map<string, string>, env: Env, k: nat)
    requires k <= |items| && ColumnAt(items, name, dir, env, k).Ok?
    ensures ColumnAt(items, name, dir, env, k).value.None? <==> forall r :: 0 <= r < k ==> AbsentOrNull(items[r], name)
    decreases k
  {
    if k > 0 {
      LazyCreation(items, name, dir, env, k - 1);
    }
  }

  /**
   * Nulls sit exactly where the rows lack the name or hold NULL; every other
   * slot holds a value.
   */
  lemma {:induction false} NullsWhereAbsent(items: seq<Row>, name: string, dir: map<string, string>, env: Env, k: nat, r: nat)
    requires r < k <= |items|
    requires ColumnAt(items, name, dir, env, k).Ok? && ColumnAt(items, name, dir, env, k).value.Some?
    ensures ColumnAt(items, name, dir, env, k).value.value.values[r].None? <==> AbsentOrNull(items[r], name)
    decreases k
  {
    var prev := ColumnAt(items, name, dir, env, k - 1);
    var cur := ColumnAt(items, name, dir, env, k).value.value;
    var row := items[k - 1];
    var format := DirectiveFor(dir, name);
    assert prev.Ok?;
    if prev.value.None? {
      // The column was created by this row, with NewAttribute.
      assert name in row && Create(k - 1, name, row[name], format, env) == Ok(Some(cur));
      if r < k - 1 {
        LazyCreation(items, name, dir, env, k - 1);
      }
    } else {
      var h := prev.value.value;
      if name !in row {
        assert cur == PadField(h, k);
      } else {
        var g := AppendStep(h, format, row[name], env).value;
        assert cur == g;
      }
      if r < k - 1 {
        NullsWhereAbsent(items, name, dir, env, k - 1, r);
      }
    }
  }


  /**
   * g is what f may become over later rows: at least as long, the same type or
   * Int64 widened to Float64; when the type is the same, f's slots intact, and
   * when it widened, each of f's slots a null or an integer that now reads as
   * its float64.
   */
  ghost predicate Grows(f: Field, g: Field, env: Env) {
    |f.values| <= |g.values| &&
    (g.ftype == f.ftype || (f.ftype == NullableInt64 && g.ftype == NullableFloat64)) &&
    (g.ftype == f.ftype ==> g.values[..|f.values|] == f.values) &&
    (g.ftype != f.ftype ==> forall r :: 0 <= r < |f.values| ==>
      (f.values[r].None? || f.values[r].value.VInt64?) && g.values[r] == ToFloat64(f.values[r], env))
  }

  lemma GrowsTransitive(f: Field, h: Field, g: Field, env: Env)
    requires Grows(f, h, env) && Grows(h, g, env)
    ensures Grows(f, g, env)
  {
    if g.ftype == f.ftype {
      // Int64 never comes back once widened, so neither step widened.
      assert h.ftype == f.ftype;
      assert g.values[..|f.values|] == g.values[..|h.values|][..|f.values|];
    } else if h.ftype == f.ftype {
      // The second step widened: h still holds f's slots.
      forall r | 0 <= r < |f.values|
        ensures (f.values[r].None? || f.values[r].value.VInt64?) && g.values[r] == ToFloat64(f.values[r], env)
      {
        assert h.values[..|f.values|][r] == f.values[r];
      }
    } else {
      // The first step widened, so the second kept Float64 and h's slots.
      forall r | 0 <= r < |f.values|
        ensures (f.values[r].None? || f.values[r].value.VInt64?) && g.values[r] == ToFloat64(f.values[r], env)
      {
        assert g.values[..|h.values|][r] == h.values[r];
      }
    }
  }

  /** One row moves a column that exists on by one slot, as Grows allows. */
  lemma OneRowStep(items: seq<Row>, name: string, dir: map<string, string>, env: Env, k: nat)
    requires 0 < k <= |items|
    requires ColumnAt(items, name, dir, env, k - 1).Ok? && ColumnAt(items, name, dir, env, k - 1).value.Some?
    requires ColumnAt(items, name, dir, env, k).Ok?
    ensures ColumnAt(items, name, dir, env, k).value.Some?
    ensures Grows(ColumnAt(items, name, dir, env, k - 1).value.value, ColumnAt(items, name, dir, env, k).value.value, env)
  {
    var h := ColumnAt(items, name, dir, env, k - 1).value.value;
    var t := RowStep(Some(h), k - 1, name, items[k - 1], DirectiveFor(dir, name), env);
    assert ColumnAt(items, name, dir, env, k) == Ok(Pad(t.value, k));
    if name in items[k - 1] {
      var g := AppendStep(h, DirectiveFor(dir, name), items[k - 1][name], env).value;
      assert t.value == Some(g) && Pad(t.value, k) == Some(g);
      TypeChangeIsWiden(h, DirectiveFor(dir, name), items[k - 1][name], env);
      if g.ftype != h.ftype {
        forall r | 0 <= r < |h.values|
          ensures (h.values[r].None? || h.values[r].value.VInt64?) && g.values[r] == ToFloat64(h.values[r], env)
        {
          assert h.values[r].Some? ==> HasType(h.values[r].value, h.ftype);
        }
      }
    } else {
      assert Pad(t.value, k) == Some(h.(values := h.values + [None]));
      assert (h.values + [None])[..k - 1] == h.values;
    }
  }

  /** A column that is fine after k rows was fine after k-1 rows. */
  lemma ColumnFineBefore(items: seq<Row>, name: string, dir: map<string, string>, env: Env, k: nat)
    requires 0 < k <= |items| && ColumnAt(items, name, dir, env, k).Ok?
    ensures ColumnAt(items, name, dir, env, k - 1).Ok?
  {
  }

  /**
   * Between rows j and k an existing column only grows: it still exists, its
   * type stays or widens from Int64 to Float64, and without widening its first
   * j slots are untouched.
   */
  lemma {:induction false} ColumnGrows(items: seq<Row>, name: string, dir: map<string, string>, env: Env, j: nat, k: nat)
    requires j <= k <= |items|
    requires ColumnAt(items, name, dir, env, j).Ok? && ColumnAt(items, name, dir, env, j).value.Some?
    requires ColumnAt(items, name, dir, env, k).Ok?
    ensures ColumnAt(items, name, dir, env, k).value.Some?
    ensures Grows(ColumnAt(items, name, dir, env, j).value.value, ColumnAt(items, name, dir, env, k).value.value, env)
    decreases k
  {
    if j < k {
      ColumnFineBefore(items, name, dir, env, k);
      ColumnGrows(items, name, dir, env, j, k - 1);
      OneRowStep(items, name, dir, env, k);
      GrowsTransitive(ColumnAt(items, name, dir, env, j).value.value,
                      ColumnAt(items, name, dir, env, k - 1).value.value,
                      ColumnAt(items, name, dir, env, k).value.value, env);
    } else {
      assert ColumnAt(items, name, dir, env, k).value.value.values[..j] == ColumnAt(items, name, dir, env, k).value.value.values;
    }
  }

  /** Once a column exists it keeps existing (unless a later row fails). */
  lemma ColumnPersists(items: seq<Row>, name: string, dir: map<string, string>, env: Env, j: nat, k: nat)
    requires j <= k <= |items|
    requires ColumnAt(items, name, dir, env, j).Ok? && ColumnAt(items, name, dir, env, j).value.Some?
    requires ColumnAt(items, name, dir, env, k).Ok?
    ensures ColumnAt(items, name, dir, env, k).value.Some?
  {
    ColumnGrows(items, name, dir, env, j, k);
  }

  /** Over any stretch of rows a column's type stays put or goes from Int64 to Float64, never back. */
  lemma TypeOnlyWidens(items: seq<Row>, name: string, dir: map<string, string>, env: Env, j: nat, k: nat)
    requires j <= k <= |items|
    requires ColumnAt(items, name, dir, env, j).Ok? && ColumnAt(items, name, dir, env, j).value.Some?
    requires ColumnAt(items, name, dir, env, k).Ok? && ColumnAt(items, name, dir, env, k).value.Some?
    ensures var f, g := ColumnAt(items, name, dir, env, j).value.value, ColumnAt(items, name, dir, env, k).value.value;
      g.ftype == f.ftype || (f.ftype == NullableInt64 && g.ftype == NullableFloat64)
  {
    ColumnGrows(items, name, dir, env, j, k);
  }

  /**
   * A column whose type is the same at row j and row k kept its first j slots
   * untouched in between; only widening ever rewrites history.
   */
  lemma HistoryKept(items: seq<Row>, name: string, dir: map<string, string>, env: Env, j: nat, k: nat)
    requires j <= k <= |items|
    requires ColumnAt(items, name, dir, env, j).Ok? && ColumnAt(items, name, dir, env, j).value.Some?
    requires ColumnAt(items, name, dir, env, k).Ok? && ColumnAt(items, name, dir, env, k).value.Some?
    requires ColumnAt(items, name, dir, env, k).value.value.ftype == ColumnAt(items, name, dir, env, j).value.value.ftype
    ensures ColumnAt(items, name, dir, env, k).value.value.values[..j] == ColumnAt(items, name, dir, env, j).value.value.values
  {
    ColumnGrows(items, name, dir, env, j, k);
  }

  /**
   * A column whose type changed between row j and row k was widened: each of
   * its first j slots was a null, which stays null, or an integer, which now
   * reads as its float64.
   */
  lemma WidenedHistory(items: seq<Row>, name: string, dir: map<string, string>, env: Env, j: nat, k: nat, r: nat)
    requires r < j <= k <= |items|
    requires ColumnAt(items, name, dir, env, j).Ok? && ColumnAt(items, name, dir, env, j).value.Some?
    requires ColumnAt(items, name, dir, env, k).Ok? && ColumnAt(items, name, dir, env, k).value.Some?
    requires ColumnAt(items, name, dir, env, k).value.value.ftype != ColumnAt(items, name, dir, env, j).value.value.ftype
    ensures var f, g := ColumnAt(items, name, dir, env, j).value.value, ColumnAt(items, name, dir, env, k).value.value;
      f.ftype == NullableInt64 && g.ftype == NullableFloat64 &&
      (f.values[r].None? ==> g.values[r].None?) &&
      (f.values[r].Some? ==> f.values[r].value.VInt64? && g.values[r] == Some(VFloat64(env.intToFloat(f.values[r].value.i))))
  {
    ColumnGrows(items, name, dir, env, j, k);
  }
}
