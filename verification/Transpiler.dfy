/**
 The steps-to-SQL compiler. A query is a chain of numbered CTEs and a final SELECT; its meaning is
 given by an evaluator over named relations that knows only SELECT, and compilation is proved to
 preserve the meaning of the declared transform.
 */
module Transpiler {
  import opened Rows
  import opened Transform

  // ------------------------------------------------------------------ Queries

  datatype Scalar =
    | Column(name: string)
    | Expression(e: Expr)
    | CastOf(column: string, type_: CastType)
    | Call(udf: nat, args: seq<string>)

  datatype Item =
    | Star
    | StarExclude(excluded: seq<string>)
    | StarReplace(replacements: seq<(string, Scalar)>)
    | As(scalar: Scalar, name: string)

  /** `source` and CTE names are the numbers n of the names s{n}. */
  datatype Body =
    | ReadParquet
    | SelectFrom(items: seq<Item>, source: nat, where_: Option<Cond>, partition: seq<string>)
    | RawSql(body: Table -> Option<Table>, source: nat)

  datatype Cte = Cte(name: nat, body: Body)

  datatype Query = Query(ctes: seq<Cte>, final: Body)

  // ------------------------------------------------------------------ Evaluation

  type Registry = map<nat, Udf>

  datatype Output = Output(name: string, scalar: Scalar)

  function Plain(columns: seq<string>): (outputs: seq<Output>)
    ensures |outputs| == |columns|
    ensures forall i :: 0 <= i < |columns| ==> outputs[i] == Output(columns[i], Column(columns[i]))
  {
    seq(|columns|, i requires 0 <= i < |columns| => Output(columns[i], Column(columns[i])))
  }

  function Replacement(replacements: seq<(string, Scalar)>, column: string): Scalar {
    if replacements == [] then Column(column)
    else if replacements[0].0 == column then replacements[0].1
    else Replacement(replacements[1..], column)
  }

  /** The output columns an item stands for over an input with these columns. */
  ghost function ExpandItem(item: Item, columns: seq<string>): Option<seq<Output>> {
    match item
    case Star => Some(Plain(columns))
    case StarExclude(excluded) =>
      if excluded != [] && Distinct(excluded) && AllIn(excluded, columns)
      then Some(Plain(Without(columns, excluded))) else None
    case StarReplace(replacements) =>
      if replacements != [] && Distinct(Firsts(replacements)) && AllIn(Firsts(replacements), columns)
      then Some(seq(|columns|, i requires 0 <= i < |columns| =>
                  Output(columns[i], Replacement(replacements, columns[i]))))
      else None
    case As(scalar, name) => Some([Output(name, scalar)])
  }

  ghost function Expand(items: seq<Item>, columns: seq<string>): Option<seq<Output>> {
    if items == [] then Some([])
    else
      var first, rest := ExpandItem(items[0], columns), Expand(items[1..], columns);
      if first.None? || rest.None? then None else Some(first.value + rest.value)
  }

  ghost predicate ScalarOk(reg: Registry, scalar: Scalar, columns: seq<string>) {
    match scalar
    case Column(name) => name in columns
    case Expression(expr) => AllIn(expr.uses, columns)
    case CastOf(column, _) => column in columns
    case Call(udf, args) => udf in reg && args != [] && AllIn(args, columns)
  }

  function Compute(e: Engine, reg: Registry, scalar: Scalar, row: Row): Value {
    match scalar
    case Column(name) => Cell(row, name)
    case Expression(expr) => Evaluate(expr, row)
    case CastOf(column, type_) => e.convert(type_, Cell(row, column))
    case Call(udf, args) => if udf in reg then reg[udf](KeyOf(row, args)) else Null
  }

  function Names(outputs: seq<Output>): (names: seq<string>)
    ensures |names| == |outputs| && forall i :: 0 <= i < |outputs| ==> names[i] == outputs[i].name
  {
    seq(|outputs|, i requires 0 <= i < |outputs| => outputs[i].name)
  }

  function Cells(e: Engine, reg: Registry, outputs: seq<Output>, row: Row): map<string, Value> {
    if outputs == [] then map[]
    else map[outputs[0].name := Compute(e, reg, outputs[0].scalar, row)] + Cells(e, reg, outputs[1..], row)
  }

  /** The projection of a SELECT; output names must differ and every reference must resolve. */
  ghost function Project(e: Engine, reg: Registry, outputs: seq<Output>, t: Table): Option<Table> {
    if outputs != [] && Distinct(Names(outputs))
       && forall i :: 0 <= i < |outputs| ==> ScalarOk(reg, outputs[i].scalar, t.columns)
    then Some(Table(Names(outputs), MapRows((row: Row) => Row(Cells(e, reg, outputs, row)), t.rows)))
    else None
  }

  type Relations = map<nat, Table>

  /** FROM, WHERE, QUALIFY, then the select list. */
  ghost function EvalBody(e: Engine, reg: Registry, input: Table, body: Body, env: Relations): Option<Table> {
    match body
    case ReadParquet => Some(input)
    case RawSql(f, source) =>
      if source !in env then None
      else if f(env[source]).Some? && Shaped(f(env[source]).value) then f(env[source])
      else None
    case SelectFrom(items, source, where_, partition) =>
      if source !in env || !AllIn(partition, env[source].columns) then None
      else if where_.Some? && !AllIn(where_.value.uses, env[source].columns) then None
      else
        var t := env[source];
        var filtered := if where_.Some? then Keep(where_.value, t.rows) else t.rows;
        var qualified := if partition != [] then FirstPerKey(e, filtered, partition) else filtered;
        match Expand(items, t.columns)
        case None => None
        case Some(outputs) => Project(e, reg, outputs, Table(t.columns, qualified))
  }

  ghost function EvalCtes(e: Engine, reg: Registry, input: Table, ctes: seq<Cte>, env: Relations): Option<Relations> {
    if ctes == [] then Some(env)
    else
      match EvalBody(e, reg, input, ctes[0].body, env)
      case None => None
      case Some(t) => EvalCtes(e, reg, input, ctes[1..], env[ctes[0].name := t])
  }

  ghost function EvalQuery(e: Engine, reg: Registry, input: Table, q: Query): Option<Table> {
    match EvalCtes(e, reg, input, q.ctes, map[])
    case None => None
    case Some(env) => EvalBody(e, reg, input, q.final, env)
  }

  // ------------------------------------------------------------------ Compilation

  /** register_python_udfs: one function per python step, named by the step's position. */
  function RegisterFrom(steps: seq<Step>, i: nat): Registry {
    if steps == [] then map[]
    else (if steps[0].Python? then map[i := steps[0].function_] else map[]) + RegisterFrom(steps[1..], i + 1)
  }

  function Aliases(renames: seq<(string, string)>): seq<Item> {
    if renames == [] then [] else [As(Column(renames[0].0), renames[0].1)] + Aliases(renames[1..])
  }

  function Computed(derived: seq<(string, Expr)>): seq<Item> {
    if derived == [] then [] else [As(Expression(derived[0].1), derived[0].0)] + Computed(derived[1..])
  }

  function Projected(columns: seq<string>): seq<Item> {
    if columns == [] then [] else [As(Column(columns[0]), columns[0])] + Projected(columns[1..])
  }

  function Recast(casts: seq<(string, CastType)>): (r: seq<(string, Scalar)>)
    ensures |r| == |casts| && forall i :: 0 <= i < |casts| ==> r[i] == (casts[i].0, CastOf(casts[i].0, casts[i].1))
  {
    seq(|casts|, i requires 0 <= i < |casts| => (casts[i].0, CastOf(casts[i].0, casts[i].1)))
  }

  function CompileStep(step: Step, prev: nat, stepIndex: nat): Body {
    match step
    case Filter(cond) => SelectFrom([Star], prev, Some(cond), [])
    case Rename(renames) => SelectFrom([StarExclude(Firsts(renames))] + Aliases(renames), prev, None, [])
    case Cast(casts) => SelectFrom([StarReplace(Recast(casts))], prev, None, [])
    case Dedup(keys) =>
      // an empty PARTITION BY list does not parse
      if keys == [] then SelectFrom([], prev, None, []) else SelectFrom([Star], prev, None, keys)
    case Derive(derived) =>
      if derived == [] then SelectFrom([], prev, None, []) else SelectFrom([Star] + Computed(derived), prev, None, [])
    case Select(columns) => SelectFrom(Projected(columns), prev, None, [])
    case Sql(body) => RawSql(body, prev)
    case Python(_, args, output) => SelectFrom([Star, As(Call(stepIndex, args), output)], prev, None, [])
  }

  function FinalSelect(steps: seq<Step>, last: nat): Body {
    if steps != [] && steps[|steps| - 1].Select?
    then SelectFrom(Projected(steps[|steps| - 1].columns), last, None, [])
    else SelectFrom([Star], last, None, [])
  }

  /** The CTEs of the steps from position i on, numbered after `idx`; a trailing select has none. */
  function StepCtes(steps: seq<Step>, i: nat, idx: nat): seq<Cte>
    requires i <= |steps|
    decreases |steps| - i
  {
    if i == |steps| || (i == |steps| - 1 && steps[i].Select?) then []
    else [Cte(idx + 1, CompileStep(steps[i], idx, i))] + StepCtes(steps, i + 1, idx + 1)
  }

  function Compile(spec: Spec): Query {
    var mapped := spec.columnMap != [];
    var start := if mapped then 1 else 0;
    var head := [Cte(0, ReadParquet)] +
                if mapped then [Cte(1, SelectFrom(Computed(spec.columnMap), 0, None, []))] else [];
    var ctes := head + StepCtes(spec.steps, 0, start);
    Query(ctes, FinalSelect(spec.steps, |ctes| - 1))
  }

  lemma {:induction false} StepCtesAre(steps: seq<Step>, i: nat, idx: nat)
    requires i <= |steps|
    ensures var ctes := StepCtes(steps, i, idx);
            && |ctes| == |steps| - i - (if i < |steps| && steps[|steps| - 1].Select? then 1 else 0)
            && forall k :: 0 <= k < |ctes| ==> ctes[k].name == idx + 1 + k
    decreases |steps| - i
  {
    if !(i == |steps| || (i == |steps| - 1 && steps[i].Select?)) {
      StepCtesAre(steps, i + 1, idx + 1);
    }
  }

  /** The CTEs are s0, s1, ... in order: one for the input, one for the map, one per step but a last select. */
  lemma CtesAreNumbered(spec: Spec)
    ensures var ctes, steps := Compile(spec).ctes, spec.steps;
            && |ctes| == 1 + (if spec.columnMap != [] then 1 else 0) + |steps|
                         - (if steps != [] && steps[|steps| - 1].Select? then 1 else 0)
            && ctes[0].body == ReadParquet
            && forall k :: 0 <= k < |ctes| ==> ctes[k].name == k
  {
    StepCtesAre(spec.steps, 0, if spec.columnMap != [] then 1 else 0);
  }

  /** compile_sql: append a CTE per step, counting CTEs and steps separately. */
  method CompileSql(spec: Spec) returns (q: Query)
    ensures q == Compile(spec)
  {
    var ctes := [Cte(0, ReadParquet)];
    var idx := 0;
    if spec.columnMap != [] {
      idx := idx + 1;
      ctes := ctes + [Cte(idx, SelectFrom(Computed(spec.columnMap), idx - 1, None, []))];
    }
    ghost var head, start := ctes, idx;
    var i := 0;
    while i < |spec.steps|
      invariant 0 <= i <= |spec.steps| && |ctes| == idx + 1
      invariant head + StepCtes(spec.steps, 0, start) == ctes + StepCtes(spec.steps, i, idx)
    {
      var isLast := i == |spec.steps| - 1;
      if !(spec.steps[i].Select? && isLast) {
        assert StepCtes(spec.steps, i, idx)
            == [Cte(idx + 1, CompileStep(spec.steps[i], idx, i))] + StepCtes(spec.steps, i + 1, idx + 1);
        assert ctes + ([Cte(idx + 1, CompileStep(spec.steps[i], idx, i))] + StepCtes(spec.steps, i + 1, idx + 1))
            == ctes + [Cte(idx + 1, CompileStep(spec.steps[i], idx, i))] + StepCtes(spec.steps, i + 1, idx + 1);
        idx := idx + 1;
        ctes := ctes + [Cte(idx, CompileStep(spec.steps[i], idx - 1, i))];
      }
      i := i + 1;
    }
    assert ctes + [] == ctes;
    q := Query(ctes, FinalSelect(spec.steps, idx));
  }

  // ------------------------------------------------------------ Select lists

  function AliasOutputs(renames: seq<(string, string)>): (outputs: seq<Output>)
    ensures |outputs| == |renames|
    ensures forall i :: 0 <= i < |renames| ==> outputs[i] == Output(renames[i].1, Column(renames[i].0))
  {
    seq(|renames|, i requires 0 <= i < |renames| => Output(renames[i].1, Column(renames[i].0)))
  }

  lemma {:induction false} ExpandAliases(renames: seq<(string, string)>, columns: seq<string>)
    ensures Expand(Aliases(renames), columns) == Some(AliasOutputs(renames))
  {
    if renames != [] {
      ExpandAliases(renames[1..], columns);
      assert Aliases(renames)[1..] == Aliases(renames[1..]);
      assert [Output(renames[0].1, Column(renames[0].0))] + AliasOutputs(renames[1..]) == AliasOutputs(renames);
    }
  }

  function ComputedOutputs(derived: seq<(string, Expr)>): (outputs: seq<Output>)
    ensures |outputs| == |derived|
    ensures forall i :: 0 <= i < |derived| ==> outputs[i] == Output(derived[i].0, Expression(derived[i].1))
  {
    seq(|derived|, i requires 0 <= i < |derived| => Output(derived[i].0, Expression(derived[i].1)))
  }

  lemma {:induction false} ExpandComputed(derived: seq<(string, Expr)>, columns: seq<string>)
    ensures Expand(Computed(derived), columns) == Some(ComputedOutputs(derived))
  {
    if derived != [] {
      ExpandComputed(derived[1..], columns);
      assert Computed(derived)[1..] == Computed(derived[1..]);
      assert [Output(derived[0].0, Expression(derived[0].1))] + ComputedOutputs(derived[1..])
          == ComputedOutputs(derived);
    }
  }

  lemma {:induction false} ExpandProjected(names: seq<string>, columns: seq<string>)
    ensures Expand(Projected(names), columns) == Some(Plain(names))
  {
    if names != [] {
      ExpandProjected(names[1..], columns);
      assert Projected(names)[1..] == Projected(names[1..]);
      assert [Output(names[0], Column(names[0]))] + Plain(names[1..]) == Plain(names);
    }
  }

  lemma ExpandOne(item: Item, columns: seq<string>)
    ensures Expand([item], columns) == ExpandItem(item, columns)
  {
    assert [item][1..] == [];
    var first := ExpandItem(item, columns);
    if first.Some? {
      assert first.value + [] == first.value;
    }
  }

  lemma {:induction false} CellsKeys(e: Engine, reg: Registry, outputs: seq<Output>, row: Row, name: string)
    ensures name in Cells(e, reg, outputs, row) <==> name in Names(outputs)
  {
    if outputs != [] {
      CellsKeys(e, reg, outputs[1..], row, name);
      assert Names(outputs) == [outputs[0].name] + Names(outputs[1..]);
    }
  }

  /** The cells of an output row, looked up by position. */
  lemma {:induction false} CellsAt(e: Engine, reg: Registry, outputs: seq<Output>, row: Row, i: nat)
    requires Distinct(Names(outputs)) && i < |outputs|
    ensures outputs[i].name in Cells(e, reg, outputs, row)
    ensures Cells(e, reg, outputs, row)[outputs[i].name] == Compute(e, reg, outputs[i].scalar, row)
  {
    if i > 0 {
      assert Names(outputs)[1..] == Names(outputs[1..]);
      CellsAt(e, reg, outputs[1..], row, i - 1);
    } else {
      CellsKeys(e, reg, outputs[1..], row, outputs[0].name);
      assert forall j :: 0 <= j < |outputs[1..]| ==>
          Names(outputs[1..])[j] == Names(outputs)[j + 1] != Names(outputs)[0];
    }
  }

  /** A row is what a select list computes if it has the same cells. */
  lemma CellsAre(e: Engine, reg: Registry, outputs: seq<Output>, row: Row, expected: map<string, Value>)
    requires Distinct(Names(outputs))
    requires expected.Keys == set n | n in Names(outputs)
    requires forall i :: 0 <= i < |outputs| ==>
               outputs[i].name in expected && expected[outputs[i].name] == Compute(e, reg, outputs[i].scalar, row)
    ensures Cells(e, reg, outputs, row) == expected
  {
    var actual := Cells(e, reg, outputs, row);
    forall n ensures n in actual <==> n in expected {
      CellsKeys(e, reg, outputs, row, n);
    }
    forall n | n in expected ensures actual[n] == expected[n] {
      var i :| 0 <= i < |outputs| && Names(outputs)[i] == n;
      CellsAt(e, reg, outputs, row, i);
    }
  }
}
