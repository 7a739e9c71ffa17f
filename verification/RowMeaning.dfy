/**
 What a row-local transform makes of a row, read by name: a column the row lacks and one that is NULL
 are the same to it, so the columns other files bring along do not matter.
 */
module RowMeaning {
  import opened Rows
  import opened Transform
  import opened Compilation
  import opened RowLocal

  /** What a step makes of a row on its own; None when it drops it. */
  function ReadStep(e: Engine, step: Step, row: Row): Option<Row>
    requires StepIsRowLocal(step)
  {
    match step
    case Filter(cond) => if Holds(cond, row) then Some(row) else None
    case Rename(renames) => Some(AsRead(Renamed(renames, row)))
    case Cast(casts) => Some(AsRead(CastRow(e, casts, row)))
    case Select(columns) => Some(AsRead(SelectRow(columns, row)))
    case Derive(derived) => Some(AsRead(Row(row.cells + DerivedCells(derived, row))))
    case Python(f, args, output) => Some(AsRead(Row(row.cells[output := f(KeyOf(row, args))])))
  }

  function Renamed(renames: seq<(string, string)>, row: Row): Row {
    var olds, news := Firsts(renames), Seconds(renames);
    var kept := set c | c in row.cells.Keys + (set n | n in news) && (c in news || c !in olds);
    Row(map c | c in kept :: Cell(row, SourceOf(renames, c)))
  }

  function Through(e: Engine, step: Step, rows: seq<Row>): seq<Row>
    requires StepIsRowLocal(step)
  {
    if rows == [] then []
    else
      OneOrNone(ReadStep(e, step, rows[0])) + Through(e, step, rows[1..])
  }

  function OneOrNone(row: Option<Row>): seq<Row> {
    if row.None? then [] else [row.value]
  }

  function ReadSteps(e: Engine, steps: seq<Step>, rows: seq<Row>): seq<Row>
    requires forall i :: 0 <= i < |steps| ==> StepIsRowLocal(steps[i])
  {
    if steps == [] then rows else ReadSteps(e, steps[1..], Through(e, steps[0], rows))
  }

  function ReadMap(columnMap: seq<(string, Expr)>, rows: seq<Row>): (out: seq<Row>)
    ensures |out| == |rows|
  {
    if columnMap == [] then rows
    else seq(|rows|, i requires 0 <= i < |rows| => AsRead(Row(DerivedCells(columnMap, rows[i]))))
  }

  /** What a transform makes of rows, one by one. */
  function ReadSpec(e: Engine, spec: Spec, rows: seq<Row>): seq<Row>
    requires IsRowLocal(spec)
  {
    ReadSteps(e, spec.steps, ReadMap(spec.columnMap, rows))
  }

  // ------------------------------------------------------------------ Row by row

  lemma {:induction false} ThroughAppend(e: Engine, step: Step, a: seq<Row>, b: seq<Row>)
    requires StepIsRowLocal(step)
    ensures Through(e, step, a + b) == Through(e, step, a) + Through(e, step, b)
  {
    if a == [] {
      assert a + b == b;
    } else {
      assert (a + b)[0] == a[0] && (a + b)[1..] == a[1..] + b;
      ThroughAppend(e, step, a[1..], b);
      AppendAssociates(OneOrNone(ReadStep(e, step, a[0])), Through(e, step, a[1..]), Through(e, step, b));
    }
  }

  lemma {:induction false} ReadStepsAppend(e: Engine, steps: seq<Step>, a: seq<Row>, b: seq<Row>)
    requires forall i :: 0 <= i < |steps| ==> StepIsRowLocal(steps[i])
    ensures ReadSteps(e, steps, a + b) == ReadSteps(e, steps, a) + ReadSteps(e, steps, b)
  {
    if steps != [] {
      ThroughAppend(e, steps[0], a, b);
      ReadStepsAppend(e, steps[1..], Through(e, steps[0], a), Through(e, steps[0], b));
    }
  }

  /** Rows put together are transformed as they are apart. */
  lemma ReadSpecAppend(e: Engine, spec: Spec, a: seq<Row>, b: seq<Row>)
    requires IsRowLocal(spec)
    ensures ReadSpec(e, spec, a + b) == ReadSpec(e, spec, a) + ReadSpec(e, spec, b)
  {
    assert ReadMap(spec.columnMap, a + b) == ReadMap(spec.columnMap, a) + ReadMap(spec.columnMap, b);
    ReadStepsAppend(e, spec.steps, ReadMap(spec.columnMap, a), ReadMap(spec.columnMap, b));
  }

  // ------------------------------------------------------------------ Reading by name

  lemma ReadsTheSame(row: Row, columns: seq<string>)
    ensures KeyOf(AsRead(row), columns) == KeyOf(row, columns)
  {
  }

  lemma {:induction false} CastReads(e: Engine, casts: seq<(string, CastType)>, a: Row, b: Row)
    requires AsRead(a) == AsRead(b)
    ensures AsRead(CastRow(e, casts, a)) == AsRead(CastRow(e, casts, b))
    decreases |casts|
  {
    if casts != [] {
      var (column, type_) := casts[0];
      SameCells(a, b, column);
      var v := e.convert(type_, Cell(a, column));
      SetReads(a, b, column, v);
      CastReads(e, casts[1..], Row(a.cells[column := v]), Row(b.cells[column := v]));
    }
  }

  lemma SameCells(a: Row, b: Row, column: string)
    requires AsRead(a) == AsRead(b)
    ensures Cell(a, column) == Cell(b, column)
  {
    assert Cell(a, column) == Cell(AsRead(a), column) && Cell(b, column) == Cell(AsRead(b), column);
  }

  lemma SetReads(a: Row, b: Row, column: string, v: Value)
    requires AsRead(a) == AsRead(b)
    ensures AsRead(Row(a.cells[column := v])) == AsRead(Row(b.cells[column := v]))
  {
    var x, y := AsRead(Row(a.cells[column := v])), AsRead(Row(b.cells[column := v]));
    forall c ensures c in x.cells <==> c in y.cells {
      SameCells(a, b, c);
    }
    forall c | c in x.cells ensures x.cells[c] == y.cells[c] {
      SameCells(a, b, c);
    }
    assert x.cells == y.cells;
  }

  lemma {:induction false} DerivedReads(derived: seq<(string, Expr)>, row: Row)
    ensures DerivedCells(derived, AsRead(row)) == DerivedCells(derived, row)
  {
    if derived != [] {
      ReadsTheSame(row, derived[0].1.uses);
      DerivedReads(derived[1..], row);
    }
  }

  lemma AddReads(row: Row, more: map<string, Value>)
    ensures AsRead(Row(AsRead(row).cells + more)) == AsRead(Row(row.cells + more))
  {
    assert AsRead(Row(AsRead(row).cells + more)).cells == AsRead(Row(row.cells + more)).cells;
  }

  lemma SelectReads(columns: seq<string>, row: Row)
    ensures SelectRow(columns, AsRead(row)) == SelectRow(columns, row)
  {
    assert SelectRow(columns, AsRead(row)).cells == SelectRow(columns, row).cells;
  }

  /** The cell of one column after a rename, whether the row is read before it or after. */
  lemma RenameReadsCell(renames: seq<(string, string)>, columns: seq<string>, row: Row, c: string)
    requires row.cells.Keys == set c | c in columns
    ensures var a := AsRead(Renamed(renames, AsRead(row)));
            var b := AsRead(RenameRow(renames, Without(columns, Firsts(renames)) + Seconds(renames), row));
            (c in a.cells <==> c in b.cells) && (c in a.cells ==> a.cells[c] == b.cells[c])
  {
    WithoutIn(columns, Firsts(renames), c);
    if c !in Seconds(renames) {
      SourceOfOther(renames, c);
    }
    assert Cell(AsRead(row), SourceOf(renames, c)) == Cell(row, SourceOf(renames, c));
  }

  lemma RenameReads(renames: seq<(string, string)>, columns: seq<string>, row: Row)
    requires row.cells.Keys == set c | c in columns
    ensures AsRead(Renamed(renames, AsRead(row)))
            == AsRead(RenameRow(renames, Without(columns, Firsts(renames)) + Seconds(renames), row))
  {
    var out := Without(columns, Firsts(renames)) + Seconds(renames);
    var a, b := AsRead(Renamed(renames, AsRead(row))), AsRead(RenameRow(renames, out, row));
    forall c ensures (c in a.cells <==> c in b.cells) && (c in a.cells ==> a.cells[c] == b.cells[c]) {
      RenameReadsCell(renames, columns, row, c);
    }
    assert a.cells == b.cells;
  }

  /** The row a step makes of a row of a table, read, is what it makes of the row as read. */
  lemma RowReads(e: Engine, step: Step, t: Table, i: nat)
    requires StepIsRowLocal(step) && !step.Filter? && DenoteStep(e, step, t).Some? && i < |t.rows|
    requires t.rows[i].cells.Keys == set c | c in t.columns
    ensures i < |DenoteStep(e, step, t).value.rows|
    ensures ReadStep(e, step, AsRead(t.rows[i])) == Some(AsRead(DenoteStep(e, step, t).value.rows[i]))
  {
    var row := t.rows[i];
    match step
    case Rename(renames) => RenameReads(renames, t.columns, row);
    case Cast(casts) => CastReads(e, casts, row, AsRead(row));
    case Select(columns) => SelectReads(columns, row);
    case Derive(derived) =>
      DerivedReads(derived, row);
      AddReads(row, DerivedCells(derived, row));
    case Python(f, args, output) =>
      ReadsTheSame(row, args);
      AddReads(row, map[output := f(KeyOf(row, args))]);
      assert row.cells[output := f(KeyOf(row, args))] == row.cells + map[output := f(KeyOf(row, args))];
      assert AsRead(row).cells[output := f(KeyOf(row, args))]
          == AsRead(row).cells + map[output := f(KeyOf(row, args))];
  }

  lemma {:induction false} FilterReads(e: Engine, step: Step, rows: seq<Row>)
    requires step.Filter?
    ensures ReadAll(Keep(step.cond, rows)) == Through(e, step, ReadAll(rows))
  {
    if rows != [] {
      FilterReads(e, step, rows[1..]);
      ReadsTheSame(rows[0], step.cond.uses);
      assert ReadAll(rows)[1..] == ReadAll(rows[1..]);
      var first := if Holds(step.cond, rows[0]) then [rows[0]] else [];
      ReadAppend(first, Keep(step.cond, rows[1..]));
      assert ReadAll([rows[0]]) == [AsRead(rows[0])];
    }
  }

  lemma {:induction false} ThroughRows(e: Engine, step: Step, rows: seq<Row>, out: seq<Row>)
    requires StepIsRowLocal(step) && |out| == |rows|
    requires forall i :: 0 <= i < |rows| ==> ReadStep(e, step, rows[i]) == Some(out[i])
    ensures Through(e, step, rows) == out
  {
    if rows != [] {
      assert forall i :: 0 <= i < |rows[1..]| ==> rows[1..][i] == rows[i + 1];
      ThroughRows(e, step, rows[1..], out[1..]);
    }
  }

  lemma StepReads(e: Engine, step: Step, t: Table)
    requires StepIsRowLocal(step) && Wide(t.rows, t.columns) && DenoteStep(e, step, t).Some?
    ensures ReadAll(DenoteStep(e, step, t).value.rows) == Through(e, step, ReadAll(t.rows))
  {
    if step.Filter? {
      FilterReads(e, step, t.rows);
    } else {
      var out := DenoteStep(e, step, t).value.rows;
      forall i | 0 <= i < |t.rows|
        ensures i < |out| && ReadStep(e, step, ReadAll(t.rows)[i]) == Some(ReadAll(out)[i])
      {
        RowReads(e, step, t, i);
      }
      ThroughRows(e, step, ReadAll(t.rows), ReadAll(out));
    }
  }

  lemma {:induction false} StepsRead(e: Engine, steps: seq<Step>, t: Table)
    requires (forall i :: 0 <= i < |steps| ==> StepIsRowLocal(steps[i])) && Shaped(t)
    requires DenoteSteps(e, steps, t).Some?
    ensures ReadAll(DenoteSteps(e, steps, t).value.rows) == ReadSteps(e, steps, ReadAll(t.rows))
  {
    if steps != [] {
      StepReads(e, steps[0], t);
      StepShaped(e, steps[0], t);
      StepsRead(e, steps[1..], DenoteStep(e, steps[0], t).value);
    }
  }

  lemma MapReads(columnMap: seq<(string, Expr)>, t: Table)
    requires Shaped(t) && DenoteMap(columnMap, t).Some?
    ensures ReadAll(DenoteMap(columnMap, t).value.rows) == ReadMap(columnMap, ReadAll(t.rows))
    ensures Shaped(DenoteMap(columnMap, t).value)
  {
    if columnMap != [] {
      var a, b := ReadAll(DenoteMap(columnMap, t).value.rows), ReadMap(columnMap, ReadAll(t.rows));
      forall i | 0 <= i < |t.rows|
        ensures a[i] == b[i]
        ensures DerivedCells(columnMap, t.rows[i]).Keys == set n | n in Firsts(columnMap)
      {
        DerivedReads(columnMap, t.rows[i]);
        DerivedKeys(columnMap, t.rows[i]);
      }
      assert a == b;
    }
  }

  /**
   What an accepted row-local transform gives, read by name, is what each row of its input gives on its
   own, in order, whatever other columns the input has.
   */
  lemma TransformReads(e: Engine, spec: Spec, t: Table)
    requires IsRowLocal(spec) && Shaped(t) && Denote(e, spec, t).Some?
    ensures ReadAll(Denote(e, spec, t).value.rows) == ReadSpec(e, spec, ReadAll(t.rows))
  {
    MapReads(spec.columnMap, t);
    StepsRead(e, spec.steps, DenoteMap(spec.columnMap, t).value);
  }
}
