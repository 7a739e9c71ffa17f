/** Declared transforms and their meaning: fold the column map, then the steps, over a table. */
module Transform {
  import opened Rows

  /** An expression is an opaque pure function of the columns it names; a UDF one of its arguments. */
  datatype Expr = Expr(uses: seq<string>, eval: seq<Value> -> Value)
  datatype Cond = Cond(uses: seq<string>, holds: seq<Value> -> bool)
  type Udf = seq<Value> -> Value

  datatype CastType = BigInt | Integer | Double | Varchar | Boolean | Date | Timestamp | Decimal

  /** A relation: its columns in order and its rows. */
  datatype Table = Table(columns: seq<string>, rows: seq<Row>)

  /** What the engine brings: casts, and which row of a group of ties comes first. */
  datatype Engine = Engine(convert: (CastType, Value) -> Value, pick: seq<Row> -> nat)

  datatype Step =
    | Filter(cond: Cond)
    | Rename(renames: seq<(string, string)>)
    | Cast(casts: seq<(string, CastType)>)
    | Select(columns: seq<string>)
    | Dedup(keys: seq<string>)
    | Derive(derived: seq<(string, Expr)>)
    | Sql(body: Table -> Option<Table>)
    | Python(function_: Udf, args: seq<string>, output: string)

  /** An empty `columnMap` stands for a spec without a map. */
  datatype Spec = Spec(columnMap: seq<(string, Expr)>, steps: seq<Step>)

  ghost predicate Shaped(t: Table) {
    && t.columns != [] && Distinct(t.columns)
    && forall i :: 0 <= i < |t.rows| ==> t.rows[i].cells.Keys == set c | c in t.columns
  }

  // ------------------------------------------------------------------ Helpers

  function Firsts<T>(pairs: seq<(string, T)>): (names: seq<string>)
    ensures |names| == |pairs| && forall i :: 0 <= i < |pairs| ==> names[i] == pairs[i].0
  {
    seq(|pairs|, i requires 0 <= i < |pairs| => pairs[i].0)
  }

  function Seconds(pairs: seq<(string, string)>): (names: seq<string>)
    ensures |names| == |pairs| && forall i :: 0 <= i < |pairs| ==> names[i] == pairs[i].1
  {
    seq(|pairs|, i requires 0 <= i < |pairs| => pairs[i].1)
  }

  function Without(columns: seq<string>, gone: seq<string>): seq<string> {
    if columns == [] then []
    else (if columns[0] in gone then [] else [columns[0]]) + Without(columns[1..], gone)
  }

  function Evaluate(expr: Expr, row: Row): Value {
    expr.eval(KeyOf(row, expr.uses))
  }

  predicate Holds(cond: Cond, row: Row) {
    cond.holds(KeyOf(row, cond.uses))
  }

  function Keep(cond: Cond, rows: seq<Row>): seq<Row> {
    if rows == [] then []
    else (if Holds(cond, rows[0]) then [rows[0]] else []) + Keep(cond, rows[1..])
  }

  function MapRows(f: Row -> Row, rows: seq<Row>): (out: seq<Row>)
    ensures |out| == |rows| && forall i :: 0 <= i < |rows| ==> out[i] == f(rows[i])
  {
    seq(|rows|, i requires 0 <= i < |rows| => f(rows[i]))
  }

  // ------------------------------------------------------------------ Dedup

  /** The rows of a key, in order. */
  function Group(rows: seq<Row>, keys: seq<string>, key: seq<Value>): seq<Row> {
    if rows == [] then []
    else (if KeyOf(rows[0], keys) == key then [rows[0]] else []) + Group(rows[1..], keys, key)
  }

  /** How many rows before position i share its key: its place in its group. */
  function PlaceInGroup(rows: seq<Row>, keys: seq<string>, i: nat): nat
    requires i < |rows|
  {
    |Group(rows[..i], keys, KeyOf(rows[i], keys))|
  }

  /** row_number() is 1 for the row of its group that the engine puts first. */
  predicate IsFirst(e: Engine, rows: seq<Row>, keys: seq<string>, i: nat)
    requires i < |rows|
  {
    var group := Group(rows, keys, KeyOf(rows[i], keys));
    group != [] && PlaceInGroup(rows, keys, i) == e.pick(group) % |group|
  }

  function FirstsUpTo(e: Engine, rows: seq<Row>, keys: seq<string>, n: nat): seq<Row>
    requires n <= |rows|
  {
    if n == 0 then []
    else FirstsUpTo(e, rows, keys, n - 1) + if IsFirst(e, rows, keys, n - 1) then [rows[n - 1]] else []
  }

  function FirstPerKey(e: Engine, rows: seq<Row>, keys: seq<string>): seq<Row> {
    FirstsUpTo(e, rows, keys, |rows|)
  }

  // ------------------------------------------------------------------ Meaning

  /** The old name of a column after a rename; a column not renamed keeps its name. */
  function SourceOf(renames: seq<(string, string)>, column: string): string {
    if renames == [] then column
    else if renames[0].1 == column then renames[0].0
    else SourceOf(renames[1..], column)
  }

  function RenameRow(renames: seq<(string, string)>, columns: seq<string>, row: Row): Row {
    Row(map c | c in columns :: Cell(row, SourceOf(renames, c)))
  }

  function CastRow(e: Engine, casts: seq<(string, CastType)>, row: Row): Row
    decreases |casts|
  {
    if casts == [] then row
    else
      var (column, type_) := casts[0];
      CastRow(e, casts[1..], Row(row.cells[column := e.convert(type_, Cell(row, column))]))
  }

  /** The derived columns are all computed from the row as it came in. */
  function DerivedCells(derived: seq<(string, Expr)>, row: Row): map<string, Value> {
    if derived == [] then map[]
    else map[derived[0].0 := Evaluate(derived[0].1, row)] + DerivedCells(derived[1..], row)
  }

  function SelectRow(columns: seq<string>, row: Row): Row {
    Row(map c | c in columns :: Cell(row, c))
  }

  ghost predicate AllIn(names: seq<string>, columns: seq<string>) {
    forall n :: n in names ==> n in columns
  }

  ghost predicate NoneIn(names: seq<string>, columns: seq<string>) {
    forall n :: n in names ==> n !in columns
  }

  /** Every column the expressions name is there. */
  ghost predicate Readable(derived: seq<(string, Expr)>, columns: seq<string>) {
    forall i :: 0 <= i < |derived| ==> AllIn(derived[i].1.uses, columns)
  }

  /** One step on one table; None when the engine rejects it. */
  ghost function DenoteStep(e: Engine, step: Step, t: Table): Option<Table> {
    match step
    case Filter(cond) => if AllIn(cond.uses, t.columns) then Some(Table(t.columns, Keep(cond, t.rows))) else None
    case Rename(renames) =>
      var olds, news := Firsts(renames), Seconds(renames);
      var rest := Without(t.columns, olds);
      if renames != [] && Distinct(olds) && AllIn(olds, t.columns) && Distinct(news) && NoneIn(news, rest) then
        Some(Table(rest + news, MapRows((row: Row) => RenameRow(renames, rest + news, row), t.rows)))
      else None
    case Cast(casts) =>
      if casts != [] && Distinct(Firsts(casts)) && AllIn(Firsts(casts), t.columns) then
        Some(Table(t.columns, MapRows((row: Row) => CastRow(e, casts, row), t.rows)))
      else None
    case Select(columns) =>
      if columns != [] && Distinct(columns) && AllIn(columns, t.columns) then
        Some(Table(columns, MapRows((row: Row) => SelectRow(columns, row), t.rows)))
      else None
    case Dedup(keys) =>
      if keys != [] && AllIn(keys, t.columns) then Some(Table(t.columns, FirstPerKey(e, t.rows, keys))) else None
    case Derive(derived) =>
      var names := Firsts(derived);
      if derived != [] && Distinct(names) && NoneIn(names, t.columns) && Readable(derived, t.columns) then
        Some(Table(t.columns + names, MapRows((row: Row) => Row(row.cells + DerivedCells(derived, row)), t.rows)))
      else None
    case Sql(body) => if body(t).Some? && Shaped(body(t).value) then body(t) else None
    case Python(f, args, output) =>
      if args != [] && AllIn(args, t.columns) && output !in t.columns then
        Some(Table(t.columns + [output], MapRows((row: Row) => Row(row.cells[output := f(KeyOf(row, args))]), t.rows)))
      else None
  }

  /** The column map replaces all columns by computed ones. */
  ghost function DenoteMap(columnMap: seq<(string, Expr)>, t: Table): Option<Table> {
    if columnMap == [] then Some(t)
    else if Distinct(Firsts(columnMap)) && Readable(columnMap, t.columns) then
      Some(Table(Firsts(columnMap), MapRows((row: Row) => Row(DerivedCells(columnMap, row)), t.rows)))
    else None
  }

  ghost function DenoteSteps(e: Engine, steps: seq<Step>, t: Table): Option<Table> {
    if steps == [] then Some(t)
    else
      match DenoteStep(e, steps[0], t)
      case None => None
      case Some(t') => DenoteSteps(e, steps[1..], t')
  }

  ghost function Denote(e: Engine, spec: Spec, t: Table): Option<Table> {
    match DenoteMap(spec.columnMap, t)
    case None => None
    case Some(t') => DenoteSteps(e, spec.steps, t')
  }
}
