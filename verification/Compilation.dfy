/** Compilation preserves meaning: every compiled step, and with it every compiled transform. */
module Compilation {
  import opened Rows
  import opened Transform
  import opened Transpiler

  // ------------------------------------------------------------ Column lists

  lemma {:induction false} WithoutIn(columns: seq<string>, gone: seq<string>, c: string)
    ensures c in Without(columns, gone) <==> c in columns && c !in gone
  {
    if columns != [] {
      WithoutIn(columns[1..], gone, c);
    }
  }

  lemma {:induction false} WithoutDistinct(columns: seq<string>, gone: seq<string>)
    requires Distinct(columns)
    ensures Distinct(Without(columns, gone))
  {
    if columns != [] {
      assert forall i :: 0 <= i < |columns[1..]| ==> columns[1..][i] == columns[i + 1];
      WithoutDistinct(columns[1..], gone);
      WithoutIn(columns[1..], gone, columns[0]);
    }
  }

  lemma DistinctAppend(a: seq<string>, b: seq<string>)
    requires Distinct(a)
    ensures Distinct(a + b) <==> Distinct(b) && NoneIn(b, a)
  {
    var s := a + b;
    if Distinct(s) {
      forall j, k | 0 <= j < k < |b| ensures b[j] != b[k] {
        assert s[|a| + j] != s[|a| + k];
      }
      forall i, j | 0 <= i < |a| && 0 <= j < |b| ensures a[i] != b[j] {
        assert s[i] != s[|a| + j];
      }
      assert forall n :: n in b ==> n !in a;
    }
    if Distinct(b) && NoneIn(b, a) {
      forall i, j | 0 <= i < j < |s| ensures s[i] != s[j] {
        assert j >= |a| ==> s[j] in b;
      }
    }
  }

  // ---------------------------------------------------------------- Rows kept

  ghost predicate Wide(rows: seq<Row>, columns: seq<string>) {
    forall i :: 0 <= i < |rows| ==> rows[i].cells.Keys == set c | c in columns
  }

  /** A filter keeps exactly the rows whose values in the columns it names satisfy it. */
  lemma {:induction false} KeepMembers(cond: Cond, rows: seq<Row>, r: Row)
    ensures r in Keep(cond, rows) <==> r in rows && cond.holds(KeyOf(r, cond.uses))
  {
    if rows != [] {
      KeepMembers(cond, rows[1..], r);
    }
  }

  /** A derived cell is the expression's value for the values in the columns it names. */
  lemma {:induction false} DerivedCellIs(derived: seq<(string, Expr)>, row: Row, i: nat)
    requires Distinct(Firsts(derived)) && i < |derived|
    ensures derived[i].0 in DerivedCells(derived, row)
    ensures DerivedCells(derived, row)[derived[i].0] == derived[i].1.eval(KeyOf(row, derived[i].1.uses))
  {
    var rest := derived[1..];
    assert Firsts(rest) == Firsts(derived)[1..];
    if i > 0 {
      DerivedCellIs(rest, row, i - 1);
    } else {
      OnlyNamed(rest, row, derived[0].0);
    }
  }

  lemma {:induction false} OnlyNamed(derived: seq<(string, Expr)>, row: Row, c: string)
    ensures c in DerivedCells(derived, row) ==> c in Firsts(derived)
  {
    if derived != [] {
      OnlyNamed(derived[1..], row, c);
      assert Firsts(derived) == [derived[0].0] + Firsts(derived[1..]);
    }
  }

  lemma {:induction false} KeepWide(cond: Cond, rows: seq<Row>, columns: seq<string>)
    requires Wide(rows, columns)
    ensures Wide(Keep(cond, rows), columns)
  {
    if rows != [] {
      KeepWide(cond, rows[1..], columns);
    }
  }

  lemma OneMoreWide(rows: seq<Row>, row: Row, columns: seq<string>)
    requires Wide(rows, columns) && row.cells.Keys == set c | c in columns
    ensures Wide(rows + [row], columns) && Wide(rows + [], columns)
  {
  }

  lemma {:induction false} FirstsWide(e: Engine, rows: seq<Row>, keys: seq<string>, n: nat, columns: seq<string>)
    requires Wide(rows, columns) && n <= |rows|
    ensures Wide(FirstsUpTo(e, rows, keys, n), columns)
  {
    if n > 0 {
      FirstsWide(e, rows, keys, n - 1, columns);
      OneMoreWide(FirstsUpTo(e, rows, keys, n - 1), rows[n - 1], columns);
    }
  }

  // ------------------------------------------------------------ Select lists

  lemma {:induction false} CellsAppend(e: Engine, reg: Registry, a: seq<Output>, b: seq<Output>, row: Row)
    ensures Cells(e, reg, a + b, row) == Cells(e, reg, a, row) + Cells(e, reg, b, row)
  {
    if a == [] {
      assert a + b == b;
      assert map[] + Cells(e, reg, b, row) == Cells(e, reg, b, row);
    } else {
      assert (a + b)[1..] == a[1..] + b;
      CellsAppend(e, reg, a[1..], b, row);
      OverrideAssociates(map[a[0].name := Compute(e, reg, a[0].scalar, row)],
                         Cells(e, reg, a[1..], row), Cells(e, reg, b, row));
    }
  }

  /** SELECT * gives each row back. */
  lemma PlainCells(e: Engine, reg: Registry, columns: seq<string>, row: Row)
    requires Distinct(columns) && row.cells.Keys == set c | c in columns
    ensures Cells(e, reg, Plain(columns), row) == row.cells
  {
    assert Names(Plain(columns)) == columns;
    CellsAre(e, reg, Plain(columns), row, row.cells);
  }

  lemma {:induction false} ComputedCells(e: Engine, reg: Registry, derived: seq<(string, Expr)>, row: Row)
    ensures Cells(e, reg, ComputedOutputs(derived), row) == DerivedCells(derived, row)
  {
    if derived != [] {
      assert ComputedOutputs(derived)[1..] == ComputedOutputs(derived[1..]);
      ComputedCells(e, reg, derived[1..], row);
    }
  }

  lemma ExpandTwo(items: seq<Item>, rest: seq<Item>, columns: seq<string>)
    requires |items| == 1
    ensures Expand(items + rest, columns) ==
            (if ExpandItem(items[0], columns).None? || Expand(rest, columns).None? then None
             else Some(ExpandItem(items[0], columns).value + Expand(rest, columns).value))
  {
    assert (items + rest)[1..] == rest;
  }

  /** A SELECT without WHERE and QUALIFY over a known relation is its projection. */
  lemma EvalSelect(e: Engine, reg: Registry, input: Table, items: seq<Item>, prev: nat, env: Relations)
    requires prev in env
    ensures EvalBody(e, reg, input, SelectFrom(items, prev, None, []), env) ==
            (if Expand(items, env[prev].columns).None? then None
             else Project(e, reg, Expand(items, env[prev].columns).value, env[prev]))
  {
  }

  /** A projection is the table with its names whose rows hold the computed cells. */
  lemma ProjectIs(e: Engine, reg: Registry, outputs: seq<Output>, t: Table, result: Table)
    requires outputs != [] && Distinct(Names(outputs)) && Names(outputs) == result.columns
    requires forall i :: 0 <= i < |outputs| ==> ScalarOk(reg, outputs[i].scalar, t.columns)
    requires |result.rows| == |t.rows|
    requires forall i :: 0 <= i < |t.rows| ==> result.rows[i] == Row(Cells(e, reg, outputs, t.rows[i]))
    ensures Project(e, reg, outputs, t) == Some(result)
  {
    assert Project(e, reg, outputs, t).value.rows == result.rows;
  }

  /** Two tables with the same columns and, row by row, the same cells. */
  lemma SameTable(a: Table, b: Table)
    requires a.columns == b.columns && |a.rows| == |b.rows|
    requires forall i :: 0 <= i < |a.rows| ==> a.rows[i] == b.rows[i]
    ensures a == b
  {
    assert a.rows == b.rows;
  }

  // ------------------------------------------------------------ One step each

  ghost predicate Matches(
    e: Engine, reg: Registry, input: Table, step: Step, prev: nat, stepIndex: nat, env: Relations)
    requires prev in env
  {
    EvalBody(e, reg, input, CompileStep(step, prev, stepIndex), env) == DenoteStep(e, step, env[prev])
  }

  lemma StarProjects(e: Engine, reg: Registry, t: Table)
    requires Shaped(t)
    ensures Project(e, reg, Plain(t.columns), t) == Some(t)
  {
    assert Names(Plain(t.columns)) == t.columns;
    var r := Project(e, reg, Plain(t.columns), t).value;
    forall i | 0 <= i < |t.rows| ensures r.rows[i] == t.rows[i] {
      PlainCells(e, reg, t.columns, t.rows[i]);
    }
    SameTable(r, t);
  }

  lemma FilterMatches(e: Engine, reg: Registry, input: Table, step: Step, prev: nat, i: nat, env: Relations)
    requires prev in env && Shaped(env[prev]) && step.Filter?
    ensures Matches(e, reg, input, step, prev, i, env)
  {
    var t := env[prev];
    if !AllIn(step.cond.uses, t.columns) {
      return;
    }
    KeepWide(step.cond, t.rows, t.columns);
    ExpandOne(Star, t.columns);
    StarProjects(e, reg, Table(t.columns, Keep(step.cond, t.rows)));
  }

  lemma DedupMatches(e: Engine, reg: Registry, input: Table, step: Step, prev: nat, i: nat, env: Relations)
    requires prev in env && Shaped(env[prev]) && step.Dedup?
    ensures Matches(e, reg, input, step, prev, i, env)
  {
    var t := env[prev];
    FirstsWide(e, t.rows, step.keys, |t.rows|, t.columns);
    ExpandOne(Star, t.columns);
    StarProjects(e, reg, Table(t.columns, FirstPerKey(e, t.rows, step.keys)));
  }

  lemma SelectMatches(e: Engine, reg: Registry, input: Table, step: Step, prev: nat, i: nat, env: Relations)
    requires prev in env && Shaped(env[prev]) && step.Select?
    ensures Matches(e, reg, input, step, prev, i, env)
  {
    var t, columns := env[prev], step.columns;
    ExpandProjected(columns, t.columns);
    EvalSelect(e, reg, input, Projected(columns), prev, env);
    assert Names(Plain(columns)) == columns;
    assert forall k :: 0 <= k < |columns| ==> Plain(columns)[k].scalar == Column(columns[k]);
    if columns != [] && Distinct(columns) && AllIn(columns, t.columns) {
      var a, b := Project(e, reg, Plain(columns), t).value, DenoteStep(e, step, t).value;
      forall k | 0 <= k < |t.rows| ensures a.rows[k] == b.rows[k] {
        CellsAre(e, reg, Plain(columns), t.rows[k], SelectRow(columns, t.rows[k]).cells);
      }
      SameTable(a, b);
    } else if Distinct(columns) && columns != [] {
      var n :| n in columns && n !in t.columns;
      var k :| 0 <= k < |columns| && columns[k] == n;
      assert !ScalarOk(reg, Plain(columns)[k].scalar, t.columns);
    }
  }

  lemma DeriveCells(e: Engine, reg: Registry, columns: seq<string>, derived: seq<(string, Expr)>, row: Row)
    requires Distinct(columns) && row.cells.Keys == set c | c in columns
    ensures Cells(e, reg, Plain(columns) + ComputedOutputs(derived), row) == row.cells + DerivedCells(derived, row)
  {
    CellsAppend(e, reg, Plain(columns), ComputedOutputs(derived), row);
    PlainCells(e, reg, columns, row);
    ComputedCells(e, reg, derived, row);
  }

  /** The references of a select list of computed columns resolve exactly when all their columns are there. */
  lemma ComputedOk(reg: Registry, derived: seq<(string, Expr)>, columns: seq<string>)
    ensures (forall k :: 0 <= k < |derived| ==> ScalarOk(reg, ComputedOutputs(derived)[k].scalar, columns))
            <==> Readable(derived, columns)
  {
    forall k | 0 <= k < |derived|
      ensures ScalarOk(reg, ComputedOutputs(derived)[k].scalar, columns) <==> AllIn(derived[k].1.uses, columns)
    {
    }
  }

  lemma PlainThenComputedOk(reg: Registry, derived: seq<(string, Expr)>, columns: seq<string>)
    ensures var outputs := Plain(columns) + ComputedOutputs(derived);
            (forall k :: 0 <= k < |outputs| ==> ScalarOk(reg, outputs[k].scalar, columns))
            <==> Readable(derived, columns)
  {
    var outputs := Plain(columns) + ComputedOutputs(derived);
    ComputedOk(reg, derived, columns);
    forall k | 0 <= k < |derived| ensures outputs[|columns| + k] == ComputedOutputs(derived)[k] {
    }
  }

  lemma DeriveProjects(e: Engine, reg: Registry, step: Step, t: Table)
    requires Shaped(t) && step.Derive? && step.derived != []
    ensures Project(e, reg, Plain(t.columns) + ComputedOutputs(step.derived), t) == DenoteStep(e, step, t)
  {
    var outputs := Plain(t.columns) + ComputedOutputs(step.derived);
    assert Names(outputs) == t.columns + Firsts(step.derived);
    DistinctAppend(t.columns, Firsts(step.derived));
    PlainThenComputedOk(reg, step.derived, t.columns);
    if Distinct(Names(outputs)) && Readable(step.derived, t.columns) {
      forall k | 0 <= k < |t.rows|
        ensures Cells(e, reg, outputs, t.rows[k]) == t.rows[k].cells + DerivedCells(step.derived, t.rows[k])
      {
        DeriveCells(e, reg, t.columns, step.derived, t.rows[k]);
      }
      ProjectIs(e, reg, outputs, t, DenoteStep(e, step, t).value);
    }
  }

  lemma DeriveMatches(e: Engine, reg: Registry, input: Table, step: Step, prev: nat, i: nat, env: Relations)
    requires prev in env && Shaped(env[prev]) && step.Derive?
    ensures Matches(e, reg, input, step, prev, i, env)
  {
    var t, derived := env[prev], step.derived;
    if derived != [] {
      var outputs := Plain(t.columns) + ComputedOutputs(derived);
      ExpandTwo([Star], Computed(derived), t.columns);
      ExpandComputed(derived, t.columns);
      EvalSelect(e, reg, input, [Star] + Computed(derived), prev, env);
      DeriveProjects(e, reg, step, t);
    }
  }

  lemma PythonCells(e: Engine, reg: Registry, columns: seq<string>, call: Output, row: Row)
    requires Distinct(columns) && row.cells.Keys == set c | c in columns
    ensures Cells(e, reg, Plain(columns) + [call], row) == row.cells[call.name := Compute(e, reg, call.scalar, row)]
  {
    CellsAppend(e, reg, Plain(columns), [call], row);
    PlainCells(e, reg, columns, row);
    OneCell(e, reg, call, row);
  }

  lemma PythonProjects(e: Engine, reg: Registry, step: Step, i: nat, t: Table)
    requires Shaped(t) && step.Python? && i in reg && reg[i] == step.function_
    ensures Project(e, reg, Plain(t.columns) + [Output(step.output, Call(i, step.args))], t) == DenoteStep(e, step, t)
  {
    var call := Output(step.output, Call(i, step.args));
    var outputs := Plain(t.columns) + [call];
    assert Names(outputs) == t.columns + [step.output];
    DistinctAppend(t.columns, [step.output]);
    assert outputs[|t.columns|] == call && step.output in [step.output];
    if DenoteStep(e, step, t).Some? {
      assert NoneIn([step.output], t.columns);
      forall k | 0 <= k < |t.rows|
        ensures DenoteStep(e, step, t).value.rows[k] == Row(Cells(e, reg, outputs, t.rows[k]))
      {
        PythonCells(e, reg, t.columns, call, t.rows[k]);
      }
      ProjectIs(e, reg, outputs, t, DenoteStep(e, step, t).value);
    }
  }

  lemma PythonMatches(e: Engine, reg: Registry, input: Table, step: Step, prev: nat, i: nat, env: Relations)
    requires prev in env && Shaped(env[prev]) && step.Python?
    requires i in reg && reg[i] == step.function_
    ensures Matches(e, reg, input, step, prev, i, env)
  {
    var t, item := env[prev], As(Call(i, step.args), step.output);
    ExpandTwo([Star], [item], t.columns);
    ExpandOne(item, t.columns);
    assert [Star] + [item] == [Star, item];
    EvalSelect(e, reg, input, [Star, item], prev, env);
    PythonProjects(e, reg, step, i, t);
  }

  lemma OneCell(e: Engine, reg: Registry, output: Output, row: Row)
    ensures Cells(e, reg, [output], row) == map[output.name := Compute(e, reg, output.scalar, row)]
  {
    assert [output][1..] == [];
  }

  lemma {:induction false} SourceOfAt(renames: seq<(string, string)>, k: nat)
    requires k < |renames| && Distinct(Seconds(renames))
    ensures SourceOf(renames, renames[k].1) == renames[k].0
  {
    if k > 0 {
      assert Seconds(renames)[0] != Seconds(renames)[k];
      assert forall j :: 0 <= j < |renames[1..]| ==> Seconds(renames[1..])[j] == Seconds(renames)[j + 1];
      SourceOfAt(renames[1..], k - 1);
    }
  }

  lemma {:induction false} SourceOfOther(renames: seq<(string, string)>, c: string)
    requires c !in Seconds(renames)
    ensures SourceOf(renames, c) == c
  {
    if renames != [] {
      assert Seconds(renames)[0] == renames[0].1;
      assert forall j :: 0 <= j < |renames[1..]| ==> Seconds(renames[1..])[j] == Seconds(renames)[j + 1];
      SourceOfOther(renames[1..], c);
    }
  }

  lemma RenameCells(e: Engine, reg: Registry, renames: seq<(string, string)>, rest: seq<string>, row: Row)
    requires Distinct(rest) && Distinct(Seconds(renames)) && NoneIn(Seconds(renames), rest)
    ensures Cells(e, reg, Plain(rest) + AliasOutputs(renames), row)
            == RenameRow(renames, rest + Seconds(renames), row).cells
  {
    var outputs, columns := Plain(rest) + AliasOutputs(renames), rest + Seconds(renames);
    assert Names(outputs) == columns;
    DistinctAppend(rest, Seconds(renames));
    var expected := RenameRow(renames, columns, row).cells;
    forall k | 0 <= k < |outputs|
      ensures outputs[k].name in expected
      ensures expected[outputs[k].name] == Compute(e, reg, outputs[k].scalar, row)
    {
      assert outputs[k].name == columns[k];
      if k < |rest| {
        assert rest[k] in rest;
        SourceOfOther(renames, rest[k]);
      } else {
        SourceOfAt(renames, k - |rest|);
      }
    }
    CellsAre(e, reg, outputs, row, expected);
  }

  lemma RenameProjects(e: Engine, reg: Registry, step: Step, t: Table)
    requires Shaped(t) && step.Rename? && step.renames != []
    requires Distinct(Firsts(step.renames)) && AllIn(Firsts(step.renames), t.columns)
    ensures Project(e, reg, Plain(Without(t.columns, Firsts(step.renames))) + AliasOutputs(step.renames), t)
            == DenoteStep(e, step, t)
  {
    var olds, news := Firsts(step.renames), Seconds(step.renames);
    var rest := Without(t.columns, olds);
    var outputs := Plain(rest) + AliasOutputs(step.renames);
    WithoutDistinct(t.columns, olds);
    DistinctAppend(rest, news);
    assert Names(outputs) == rest + news;
    if Distinct(rest + news) {
      forall k | 0 <= k < |outputs| ensures ScalarOk(reg, outputs[k].scalar, t.columns) {
        if k < |rest| {
          assert rest[k] in rest;
          WithoutIn(t.columns, olds, rest[k]);
        } else {
          assert olds[k - |rest|] in olds;
        }
      }
      forall k | 0 <= k < |t.rows|
        ensures Cells(e, reg, outputs, t.rows[k]) == RenameRow(step.renames, rest + news, t.rows[k]).cells
      {
        RenameCells(e, reg, step.renames, rest, t.rows[k]);
      }
      ProjectIs(e, reg, outputs, t, DenoteStep(e, step, t).value);
    }
  }

  /** EXCLUDE and aliases rename all columns at once, swaps included. */
  lemma RenameMatches(e: Engine, reg: Registry, input: Table, step: Step, prev: nat, i: nat, env: Relations)
    requires prev in env && Shaped(env[prev]) && step.Rename?
    ensures Matches(e, reg, input, step, prev, i, env)
  {
    var t, olds := env[prev], Firsts(step.renames);
    ExpandTwo([StarExclude(olds)], Aliases(step.renames), t.columns);
    ExpandAliases(step.renames, t.columns);
    EvalSelect(e, reg, input, [StarExclude(olds)] + Aliases(step.renames), prev, env);
    if step.renames != [] && Distinct(olds) && AllIn(olds, t.columns) {
      RenameProjects(e, reg, step, t);
    }
  }

  /** Casting column by column gives each cast column its converted value and leaves the others. */
  lemma {:induction false} CastRowCell(e: Engine, reg: Registry, casts: seq<(string, CastType)>, row: Row, c: string)
    requires Distinct(Firsts(casts)) && forall k :: 0 <= k < |casts| ==> casts[k].0 in row.cells
    ensures CastRow(e, casts, row).cells.Keys == row.cells.Keys
    ensures Cell(CastRow(e, casts, row), c) == Compute(e, reg, Replacement(Recast(casts), c), row)
    decreases |casts|
  {
    if casts != [] {
      var (column, type_) := casts[0];
      var row1 := Row(row.cells[column := e.convert(type_, Cell(row, column))]);
      assert Firsts(casts)[1..] == Firsts(casts[1..]);
      assert Recast(casts)[1..] == Recast(casts[1..]);
      CastRowCell(e, reg, casts[1..], row1, c);
      if c == column {
        forall k | 0 <= k < |casts[1..]| ensures casts[1..][k].0 != c {
          assert Firsts(casts)[0] != Firsts(casts)[k + 1];
        }
        NoReplacement(casts[1..], c);
      } else {
        ReplacementSkips(e, reg, casts[1..], row, row1, c);
      }
    }
  }

  lemma {:induction false} NoReplacement(casts: seq<(string, CastType)>, c: string)
    requires forall k :: 0 <= k < |casts| ==> casts[k].0 != c
    ensures Replacement(Recast(casts), c) == Column(c)
  {
    if casts != [] {
      assert Recast(casts)[1..] == Recast(casts[1..]);
      NoReplacement(casts[1..], c);
    }
  }

  /** What replaces a column reads that column only. */
  lemma {:induction false} ReplacementSkips(
    e: Engine, reg: Registry, casts: seq<(string, CastType)>, a: Row, b: Row, c: string)
    requires Cell(a, c) == Cell(b, c)
    ensures Compute(e, reg, Replacement(Recast(casts), c), a) == Compute(e, reg, Replacement(Recast(casts), c), b)
  {
    if casts != [] {
      assert Recast(casts)[1..] == Recast(casts[1..]);
      ReplacementSkips(e, reg, casts[1..], a, b, c);
    }
  }

  lemma {:induction false} ReplacementOk(reg: Registry, casts: seq<(string, CastType)>, c: string, columns: seq<string>)
    requires c in columns
    ensures ScalarOk(reg, Replacement(Recast(casts), c), columns)
  {
    if casts != [] {
      assert Recast(casts)[1..] == Recast(casts[1..]);
      ReplacementOk(reg, casts[1..], c, columns);
    }
  }

  lemma CastMatches(e: Engine, reg: Registry, input: Table, step: Step, prev: nat, i: nat, env: Relations)
    requires prev in env && Shaped(env[prev]) && step.Cast?
    ensures Matches(e, reg, input, step, prev, i, env)
  {
    var t, casts := env[prev], step.casts;
    var item := StarReplace(Recast(casts));
    ExpandOne(item, t.columns);
    EvalSelect(e, reg, input, [item], prev, env);
    assert Firsts(Recast(casts)) == Firsts(casts);
    if casts != [] && Distinct(Firsts(casts)) && AllIn(Firsts(casts), t.columns) {
      var outputs := ExpandItem(item, t.columns).value;
      assert Names(outputs) == t.columns;
      forall k | 0 <= k < |outputs| ensures ScalarOk(reg, outputs[k].scalar, t.columns) {
        ReplacementOk(reg, casts, t.columns[k], t.columns);
      }
      var a, b := Project(e, reg, outputs, t).value, DenoteStep(e, step, t).value;
      forall k | 0 <= k < |t.rows| ensures a.rows[k] == b.rows[k] {
        var row := t.rows[k];
        forall j | 0 <= j < |casts| ensures casts[j].0 in row.cells {
          assert Firsts(casts)[j] in t.columns;
        }
        forall j | 0 <= j < |outputs|
          ensures outputs[j].name in CastRow(e, casts, row).cells
          ensures CastRow(e, casts, row).cells[outputs[j].name] == Compute(e, reg, outputs[j].scalar, row)
        {
          CastRowCell(e, reg, casts, row, t.columns[j]);
        }
        CastRowCell(e, reg, casts, row, "");
        CellsAre(e, reg, outputs, row, CastRow(e, casts, row).cells);
      }
      SameTable(a, b);
    }
  }

  /** Every compiled step means what the step means. */
  lemma StepMatches(e: Engine, reg: Registry, input: Table, step: Step, prev: nat, i: nat, env: Relations)
    requires prev in env && Shaped(env[prev])
    requires step.Python? ==> i in reg && reg[i] == step.function_
    ensures Matches(e, reg, input, step, prev, i, env)
  {
    match step
    case Filter(_) => FilterMatches(e, reg, input, step, prev, i, env);
    case Rename(_) => RenameMatches(e, reg, input, step, prev, i, env);
    case Cast(_) => CastMatches(e, reg, input, step, prev, i, env);
    case Select(_) => SelectMatches(e, reg, input, step, prev, i, env);
    case Dedup(_) => DedupMatches(e, reg, input, step, prev, i, env);
    case Derive(_) => DeriveMatches(e, reg, input, step, prev, i, env);
    case Sql(_) =>
    case Python(_, _, _) => PythonMatches(e, reg, input, step, prev, i, env);
  }

  // ------------------------------------------------------------ Whole transforms

  /** Whatever a step produces is a relation again. */
  lemma StepShaped(e: Engine, step: Step, t: Table)
    requires Shaped(t) && DenoteStep(e, step, t).Some?
    ensures Shaped(DenoteStep(e, step, t).value)
  {
    match step
    case Filter(cond) => KeepWide(cond, t.rows, t.columns);
    case Rename(renames) =>
      WithoutDistinct(t.columns, Firsts(renames));
      DistinctAppend(Without(t.columns, Firsts(renames)), Seconds(renames));
    case Cast(casts) =>
      forall k | 0 <= k < |t.rows| ensures CastRow(e, casts, t.rows[k]).cells.Keys == t.rows[k].cells.Keys {
        forall j | 0 <= j < |casts| ensures casts[j].0 in t.rows[k].cells {
          assert Firsts(casts)[j] in t.columns;
        }
        CastRowCell(e, map[], casts, t.rows[k], "");
      }
    case Select(_) =>
    case Dedup(keys) => FirstsWide(e, t.rows, keys, |t.rows|, t.columns);
    case Derive(derived) => DerivedShaped(step, t, e);
    case Sql(_) =>
    case Python(_, _, output) =>
      assert NoneIn([output], t.columns);
      DistinctAppend(t.columns, [output]);
  }

  lemma {:induction false} DerivedKeys(derived: seq<(string, Expr)>, row: Row)
    ensures DerivedCells(derived, row).Keys == set n | n in Firsts(derived)
  {
    if derived != [] {
      DerivedKeys(derived[1..], row);
      assert Firsts(derived) == [derived[0].0] + Firsts(derived[1..]);
    }
  }

  lemma DerivedShaped(step: Step, t: Table, e: Engine)
    requires Shaped(t) && step.Derive? && DenoteStep(e, step, t).Some?
    ensures Shaped(DenoteStep(e, step, t).value)
  {
    DistinctAppend(t.columns, Firsts(step.derived));
    forall k | 0 <= k < |t.rows|
      ensures DerivedCells(step.derived, t.rows[k]).Keys == set n | n in Firsts(step.derived)
    {
      DerivedKeys(step.derived, t.rows[k]);
    }
  }

  /** The name a compiled python step calls is the one its function is registered under. */
  lemma {:induction false} Registered(steps: seq<Step>, start: nat, j: nat)
    requires j < |steps| && steps[j].Python?
    ensures start + j in RegisterFrom(steps, start) && RegisterFrom(steps, start)[start + j] == steps[j].function_
  {
    if j > 0 {
      Registered(steps[1..], start + 1, j - 1);
    } else {
      NotRegistered(steps[1..], start + 1, start);
    }
  }

  lemma {:induction false} NotRegistered(steps: seq<Step>, start: nat, n: nat)
    requires n < start
    ensures n !in RegisterFrom(steps, start)
  {
    if steps != [] {
      NotRegistered(steps[1..], start + 1, n);
    }
  }

  ghost predicate RegistersAll(reg: Registry, steps: seq<Step>) {
    forall j :: 0 <= j < |steps| && steps[j].Python? ==> j in reg && reg[j] == steps[j].function_
  }

  /** What the rest of a query yields: the remaining CTEs, then the final SELECT over the last one. */
  ghost function Finish(
    e: Engine, reg: Registry, input: Table, ctes: seq<Cte>, final: Body, env: Relations): Option<Table>
  {
    match EvalCtes(e, reg, input, ctes, env)
    case None => None
    case Some(env') => EvalBody(e, reg, input, final, env')
  }

  lemma FinishCons(
    e: Engine, reg: Registry, input: Table, cte: Cte, rest: seq<Cte>, final: Body, env: Relations)
    ensures Finish(e, reg, input, [cte] + rest, final, env) ==
            match EvalBody(e, reg, input, cte.body, env)
            case None => None
            case Some(t) => Finish(e, reg, input, rest, final, env[cte.name := t])
  {
    assert ([cte] + rest)[1..] == rest;
  }

  /** A step that has a CTE: its result is what the remaining CTEs start from. */
  lemma ConsMatches(
    e: Engine, reg: Registry, input: Table, steps: seq<Step>, i: nat, idx: nat, env: Relations, rest: seq<Cte>,
    final: Body)
    requires i < |steps| && RegistersAll(reg, steps) && idx in env && Shaped(env[idx])
    requires var r := DenoteStep(e, steps[i], env[idx]);
             r.Some? ==>
               Finish(e, reg, input, rest, final, env[idx + 1 := r.value]) == DenoteSteps(e, steps[i + 1..], r.value)
    ensures Finish(e, reg, input, [Cte(idx + 1, CompileStep(steps[i], idx, i))] + rest, final, env)
            == DenoteSteps(e, steps[i..], env[idx])
  {
    StepMatches(e, reg, input, steps[i], idx, i, env);
    FinishCons(e, reg, input, Cte(idx + 1, CompileStep(steps[i], idx, i)), rest, final, env);
    assert steps[i..][1..] == steps[i + 1..];
  }

  /** The last SELECT: either everything, or the projection of an elided trailing select. */
  lemma FinalMatches(e: Engine, reg: Registry, input: Table, steps: seq<Step>, i: nat, idx: nat, env: Relations)
    requires i <= |steps| && idx in env && Shaped(env[idx]) && StepCtes(steps, i, idx) == []
    requires i == |steps| && steps != [] ==> !steps[i - 1].Select?
    ensures EvalBody(e, reg, input, FinalSelect(steps, idx), env) == DenoteSteps(e, steps[i..], env[idx])
  {
    if i == |steps| {
      ExpandOne(Star, env[idx].columns);
      StarProjects(e, reg, env[idx]);
    } else {
      SelectMatches(e, reg, input, steps[i], idx, i, env);
      assert steps[i..][1..] == [];
    }
  }

  /** The compiled steps from position i on, over any relation, mean those steps. */
  lemma {:induction false} StepsMatch(
    e: Engine, reg: Registry, input: Table, steps: seq<Step>, i: nat, idx: nat, env: Relations, final: Body)
    requires i <= |steps| && RegistersAll(reg, steps)
    requires idx in env && Shaped(env[idx])
    requires i == |steps| && steps != [] ==> !steps[i - 1].Select?
    requires final == FinalSelect(steps, idx + |StepCtes(steps, i, idx)|)
    ensures Finish(e, reg, input, StepCtes(steps, i, idx), final, env) == DenoteSteps(e, steps[i..], env[idx])
    decreases |steps| - i
  {
    if StepCtes(steps, i, idx) == [] {
      FinalMatches(e, reg, input, steps, i, idx, env);
    } else {
      var rest := StepCtes(steps, i + 1, idx + 1);
      var r := DenoteStep(e, steps[i], env[idx]);
      if r.Some? {
        StepShaped(e, steps[i], env[idx]);
        StepsMatch(e, reg, input, steps, i + 1, idx + 1, env[idx + 1 := r.value], final);
      }
      ConsMatches(e, reg, input, steps, i, idx, env, rest, final);
    }
  }

  lemma MapMatches(e: Engine, reg: Registry, input: Table, columnMap: seq<(string, Expr)>, env: Relations)
    requires columnMap != [] && 0 in env && Shaped(env[0])
    ensures EvalBody(e, reg, input, SelectFrom(Computed(columnMap), 0, None, []), env) == DenoteMap(columnMap, env[0])
    ensures DenoteMap(columnMap, env[0]).Some? ==> Shaped(DenoteMap(columnMap, env[0]).value)
  {
    var t, outputs := env[0], ComputedOutputs(columnMap);
    ExpandComputed(columnMap, t.columns);
    EvalSelect(e, reg, input, Computed(columnMap), 0, env);
    assert Names(outputs) == Firsts(columnMap);
    ComputedOk(reg, columnMap, t.columns);
    if Distinct(Names(outputs)) && Readable(columnMap, t.columns) {
      forall k | 0 <= k < |t.rows|
        ensures Cells(e, reg, outputs, t.rows[k]) == DerivedCells(columnMap, t.rows[k])
        ensures DerivedCells(columnMap, t.rows[k]).Keys == set n | n in Firsts(columnMap)
      {
        ComputedCells(e, reg, columnMap, t.rows[k]);
        DerivedKeys(columnMap, t.rows[k]);
      }
      ProjectIs(e, reg, outputs, t, DenoteMap(columnMap, t).value);
    }
  }

  /** With a map: from its CTE on, the query means the map and then the steps. */
  lemma MappedMatch(e: Engine, reg: Registry, input: Table, spec: Spec, rest: seq<Cte>, final: Body)
    requires Shaped(input) && spec.columnMap != [] && RegistersAll(reg, spec.steps)
    requires rest == StepCtes(spec.steps, 0, 1) && final == FinalSelect(spec.steps, 1 + |rest|)
    ensures var second := Cte(1, SelectFrom(Computed(spec.columnMap), 0, None, []));
            Finish(e, reg, input, [second] + rest, final, map[0 := input]) == Denote(e, spec, input)
  {
    var env0: Relations := map[0 := input];
    assert spec.steps[0..] == spec.steps;
    FinishCons(e, reg, input, Cte(1, SelectFrom(Computed(spec.columnMap), 0, None, [])), rest, final, env0);
    MapMatches(e, reg, input, spec.columnMap, env0);
    var mapped := DenoteMap(spec.columnMap, input);
    if mapped.Some? {
      var env1 := env0[1 := mapped.value];
      assert env1[1] == mapped.value;
      StepsMatch(e, reg, input, spec.steps, 0, 1, env1, final);
    }
  }

  /**
   For every spec and every relation, the compiled query evaluates to what the map and the steps
   mean, columns in order and rows, and is rejected exactly when one of them is.
   */
  lemma CompilationPreservesMeaning(e: Engine, spec: Spec, input: Table)
    requires Shaped(input)
    ensures EvalQuery(e, RegisterFrom(spec.steps, 0), input, Compile(spec)) == Denote(e, spec, input)
  {
    var reg, q := RegisterFrom(spec.steps, 0), Compile(spec);
    forall j | 0 <= j < |spec.steps| && spec.steps[j].Python?
      ensures j in reg && reg[j] == spec.steps[j].function_
    {
      Registered(spec.steps, 0, j);
    }
    var start := if spec.columnMap != [] then 1 else 0;
    var rest := StepCtes(spec.steps, 0, start);
    var env0: Relations := map[0 := input];
    assert spec.steps[0..] == spec.steps;
    assert EvalQuery(e, reg, input, q) == Finish(e, reg, input, q.ctes, q.final, map[]);
    if spec.columnMap == [] {
      assert q.ctes == [Cte(0, ReadParquet)] + rest;
      FinishCons(e, reg, input, Cte(0, ReadParquet), rest, q.final, map[]);
      StepsMatch(e, reg, input, spec.steps, 0, 0, env0, q.final);
    } else {
      var second := Cte(1, SelectFrom(Computed(spec.columnMap), 0, None, []));
      assert q.ctes == [Cte(0, ReadParquet)] + ([second] + rest);
      FinishCons(e, reg, input, Cte(0, ReadParquet), [second] + rest, q.final, map[]);
      MappedMatch(e, reg, input, spec, rest, q.final);
    }
  }

  // ------------------------------------------------------------ Dedup

  lemma {:induction false} GroupAppend(a: seq<Row>, b: seq<Row>, keys: seq<string>, key: seq<Value>)
    ensures Group(a + b, keys, key) == Group(a, keys, key) + Group(b, keys, key)
  {
    if a == [] {
      assert a + b == b;
    } else {
      assert (a + b)[0] == a[0] && (a + b)[1..] == a[1..] + b;
      GroupAppend(a[1..], b, keys, key);
      AppendAssociates(
        if KeyOf(a[0], keys) == key then [a[0]] else [], Group(a[1..], keys, key), Group(b, keys, key));
    }
  }

  lemma GroupOne(row: Row, keys: seq<string>, key: seq<Value>)
    ensures Group([row], keys, key) == if KeyOf(row, keys) == key then [row] else []
  {
    assert [row][1..] == [];
  }

  /** A row of a key stands in its group after the rows of that key before it. */
  lemma GroupAround(rows: seq<Row>, keys: seq<string>, key: seq<Value>, i: nat)
    requires i < |rows|
    ensures var before, group := Group(rows[..i], keys, key), Group(rows, keys, key);
            && Group(rows[..i + 1], keys, key) == before + (if KeyOf(rows[i], keys) == key then [rows[i]] else [])
            && |before| <= |group|
            && (KeyOf(rows[i], keys) == key ==> |before| < |group| && group[|before|] == rows[i])
  {
    var row, after := rows[i], rows[i + 1..];
    assert rows[..i + 1] == rows[..i] + [row] && rows == rows[..i] + ([row] + after);
    GroupAppend(rows[..i], [row], keys, key);
    GroupAppend(rows[..i], [row] + after, keys, key);
    GroupAppend([row], after, keys, key);
    GroupOne(row, keys, key);
  }

  /** One more row is kept for a key if it is the one that comes first. */
  lemma KeptHere(e: Engine, rows: seq<Row>, keys: seq<string>, key: seq<Value>, first: nat, i: nat)
    requires i < |rows|
    requires KeyOf(rows[i], keys) == key ==>
               (IsFirst(e, rows, keys, i) <==> |Group(rows[..i], keys, key)| == first)
    ensures Group(FirstsUpTo(e, rows, keys, i + 1), keys, key)
            == Group(FirstsUpTo(e, rows, keys, i), keys, key)
               + if KeyOf(rows[i], keys) == key && |Group(rows[..i], keys, key)| == first then [rows[i]] else []
  {
    var before := FirstsUpTo(e, rows, keys, i);
    if IsFirst(e, rows, keys, i) {
      GroupAppend(before, [rows[i]], keys, key);
      GroupOne(rows[i], keys, key);
    } else {
      assert before + [] == before;
    }
  }

  /** Of a key's rows below n, the one that comes first is kept, if it is among them. */
  lemma {:induction false} KeptOfGroup(
    e: Engine, rows: seq<Row>, keys: seq<string>, key: seq<Value>, first: nat, n: nat)
    requires n <= |rows| && first < |Group(rows, keys, key)|
    requires forall i :: 0 <= i < |rows| && KeyOf(rows[i], keys) == key ==>
                           (IsFirst(e, rows, keys, i) <==> PlaceInGroup(rows, keys, i) == first)
    ensures Group(FirstsUpTo(e, rows, keys, n), keys, key)
            == if first < |Group(rows[..n], keys, key)| then [Group(rows, keys, key)[first]] else []
  {
    if n > 0 {
      KeptOfGroup(e, rows, keys, key, first, n - 1);
      GroupAround(rows, keys, key, n - 1);
      KeptHere(e, rows, keys, key, first, n - 1);
    }
  }

  /** dedup keeps exactly one row of every key that occurs: whichever of the key's rows the engine numbers first. */
  lemma DedupKeepsOnePerKey(e: Engine, rows: seq<Row>, keys: seq<string>, key: seq<Value>)
    ensures var group, kept := Group(rows, keys, key), Group(FirstPerKey(e, rows, keys), keys, key);
            kept == if group == [] then [] else [group[e.pick(group) % |group|]]
  {
    assert rows[..|rows|] == rows;
    var group := Group(rows, keys, key);
    if group != [] {
      KeptOfGroup(e, rows, keys, key, e.pick(group) % |group|, |rows|);
    } else {
      NothingKept(e, rows, keys, key, |rows|);
    }
  }

  lemma {:induction false} NothingKept(e: Engine, rows: seq<Row>, keys: seq<string>, key: seq<Value>, n: nat)
    requires n <= |rows| && Group(rows, keys, key) == []
    ensures Group(FirstsUpTo(e, rows, keys, n), keys, key) == []
  {
    if n > 0 {
      NothingKept(e, rows, keys, key, n - 1);
      var row := rows[n - 1];
      assert rows == rows[..n - 1] + ([row] + rows[n..]);
      GroupAppend(rows[..n - 1], [row] + rows[n..], keys, key);
      GroupAppend([row], rows[n..], keys, key);
      GroupOne(row, keys, key);
      var kept := if IsFirst(e, rows, keys, n - 1) then [row] else [];
      GroupAppend(FirstsUpTo(e, rows, keys, n - 1), kept, keys, key);
    }
  }
}
