/** Chains of row-local steps treat every row by itself, so they distribute over concatenation. */
module RowLocal {
  import opened Rows
  import opened Transform

  /** All steps but dedup and raw SQL look at one row at a time. */
  predicate StepIsRowLocal(step: Step) {
    !step.Dedup? && !step.Sql?
  }

  predicate IsRowLocal(spec: Spec) {
    forall i :: 0 <= i < |spec.steps| ==> StepIsRowLocal(spec.steps[i])
  }

  /** The outcomes over two row sets joined: rejected together, else same columns and rows in order. */
  ghost predicate Joined(whole: Option<Table>, left: Option<Table>, right: Option<Table>) {
    && (whole.Some? <==> left.Some?) && (left.Some? <==> right.Some?)
    && (whole.Some? ==>
          && whole.value.columns == left.value.columns == right.value.columns
          && whole.value.rows == left.value.rows + right.value.rows)
  }

  lemma {:induction false} KeepAppend(cond: Cond, a: seq<Row>, b: seq<Row>)
    ensures Keep(cond, a + b) == Keep(cond, a) + Keep(cond, b)
  {
    if a == [] {
      assert a + b == b;
    } else {
      assert (a + b)[0] == a[0] && (a + b)[1..] == a[1..] + b;
      KeepAppend(cond, a[1..], b);
      AppendAssociates(if Holds(cond, a[0]) then [a[0]] else [], Keep(cond, a[1..]), Keep(cond, b));
    }
  }

  ghost predicate Distributes(e: Engine, step: Step, columns: seq<string>, a: seq<Row>, b: seq<Row>) {
    Joined(DenoteStep(e, step, Table(columns, a + b)),
           DenoteStep(e, step, Table(columns, a)), DenoteStep(e, step, Table(columns, b)))
  }

  lemma MapRowsAppend(f: Row -> Row, a: seq<Row>, b: seq<Row>)
    ensures MapRows(f, a + b) == MapRows(f, a) + MapRows(f, b)
  {
  }

  lemma RenameDistributes(e: Engine, step: Step, columns: seq<string>, a: seq<Row>, b: seq<Row>)
    requires step.Rename?
    ensures Distributes(e, step, columns, a, b)
  {
    var names := Without(columns, Firsts(step.renames)) + Seconds(step.renames);
    MapRowsAppend((row: Row) => RenameRow(step.renames, names, row), a, b);
  }

  lemma CastDistributes(e: Engine, step: Step, columns: seq<string>, a: seq<Row>, b: seq<Row>)
    requires step.Cast?
    ensures Distributes(e, step, columns, a, b)
  {
    MapRowsAppend((row: Row) => CastRow(e, step.casts, row), a, b);
  }

  lemma SelectDistributes(e: Engine, step: Step, columns: seq<string>, a: seq<Row>, b: seq<Row>)
    requires step.Select?
    ensures Distributes(e, step, columns, a, b)
  {
    MapRowsAppend((row: Row) => SelectRow(step.columns, row), a, b);
  }

  lemma DeriveDistributes(e: Engine, step: Step, columns: seq<string>, a: seq<Row>, b: seq<Row>)
    requires step.Derive?
    ensures Distributes(e, step, columns, a, b)
  {
    MapRowsAppend((row: Row) => Row(row.cells + DerivedCells(step.derived, row)), a, b);
  }

  lemma PythonDistributes(e: Engine, step: Step, columns: seq<string>, a: seq<Row>, b: seq<Row>)
    requires step.Python?
    ensures Distributes(e, step, columns, a, b)
  {
    MapRowsAppend((row: Row) => Row(row.cells[step.output := step.function_(KeyOf(row, step.args))]), a, b);
  }

  lemma StepDistributes(e: Engine, step: Step, columns: seq<string>, a: seq<Row>, b: seq<Row>)
    requires StepIsRowLocal(step)
    ensures Distributes(e, step, columns, a, b)
  {
    match step
    case Filter(cond) => KeepAppend(cond, a, b);
    case Rename(_) => RenameDistributes(e, step, columns, a, b);
    case Cast(_) => CastDistributes(e, step, columns, a, b);
    case Select(_) => SelectDistributes(e, step, columns, a, b);
    case Derive(_) => DeriveDistributes(e, step, columns, a, b);
    case Python(_, _, _) => PythonDistributes(e, step, columns, a, b);
  }

  lemma {:induction false} StepsDistribute(
    e: Engine, steps: seq<Step>, columns: seq<string>, a: seq<Row>, b: seq<Row>)
    requires forall i :: 0 <= i < |steps| ==> StepIsRowLocal(steps[i])
    ensures Joined(DenoteSteps(e, steps, Table(columns, a + b)),
                   DenoteSteps(e, steps, Table(columns, a)), DenoteSteps(e, steps, Table(columns, b)))
  {
    if steps != [] {
      StepDistributes(e, steps[0], columns, a, b);
      var left, right := DenoteStep(e, steps[0], Table(columns, a)), DenoteStep(e, steps[0], Table(columns, b));
      if left.Some? {
        StepsDistribute(e, steps[1..], left.value.columns, left.value.rows, right.value.rows);
      }
    }
  }

  lemma MapDistributes(columnMap: seq<(string, Expr)>, columns: seq<string>, a: seq<Row>, b: seq<Row>)
    ensures Joined(DenoteMap(columnMap, Table(columns, a + b)),
                   DenoteMap(columnMap, Table(columns, a)), DenoteMap(columnMap, Table(columns, b)))
  {
    MapRowsAppend((row: Row) => Row(DerivedCells(columnMap, row)), a, b);
  }

  /** A row-local transform of a concatenation is the concatenation of the transforms. */
  lemma TransformDistributes(e: Engine, spec: Spec, columns: seq<string>, a: seq<Row>, b: seq<Row>)
    requires IsRowLocal(spec)
    ensures Joined(Denote(e, spec, Table(columns, a + b)),
                   Denote(e, spec, Table(columns, a)), Denote(e, spec, Table(columns, b)))
  {
    var left, right := DenoteMap(spec.columnMap, Table(columns, a)), DenoteMap(spec.columnMap, Table(columns, b));
    MapDistributes(spec.columnMap, columns, a, b);
    if left.Some? {
      StepsDistribute(e, spec.steps, left.value.columns, left.value.rows, right.value.rows);
    }
  }
}
