/**
 Which inputs a transform without raw SQL accepts: whether the engine rejects it depends on the
 columns of its input alone, and there on which are there and which are not.
 */
module Acceptance {
  import opened Rows
  import opened Transform
  import opened Compilation

  function ToSet(names: seq<string>): set<string> {
    set n | n in names
  }

  predicate NoRawSql(spec: Spec) {
    forall i :: 0 <= i < |spec.steps| ==> !spec.steps[i].Sql?
  }

  /** The columns the expressions name. */
  function UsedBy(derived: seq<(string, Expr)>): set<string> {
    if derived == [] then {} else ToSet(derived[0].1.uses) + UsedBy(derived[1..])
  }

  /** The columns a step needs, and those that would get in its way. */
  function StepNeeds(step: Step): set<string> {
    match step
    case Filter(cond) => ToSet(cond.uses)
    case Rename(renames) => ToSet(Firsts(renames))
    case Cast(casts) => ToSet(Firsts(casts))
    case Select(columns) => ToSet(columns)
    case Dedup(keys) => ToSet(keys)
    case Derive(derived) => UsedBy(derived)
    case Sql(_) => {}
    case Python(_, args, _) => ToSet(args)
  }

  function StepBars(step: Step): set<string> {
    match step
    case Rename(renames) => ToSet(Seconds(renames)) - ToSet(Firsts(renames))
    case Derive(derived) => ToSet(Firsts(derived))
    case Python(_, _, output) => {output}
    case _ => {}
  }

  /** What a step must satisfy whatever its input. */
  ghost predicate StepWorks(step: Step) {
    match step
    case Rename(renames) => renames != [] && Distinct(Firsts(renames)) && Distinct(Seconds(renames))
    case Cast(casts) => casts != [] && Distinct(Firsts(casts))
    case Select(columns) => columns != [] && Distinct(columns)
    case Dedup(keys) => keys != []
    case Derive(derived) => derived != [] && Distinct(Firsts(derived))
    case Python(_, args, _) => args != []
    case _ => true
  }

  /** The columns after a step. */
  function After(step: Step, columns: set<string>): set<string> {
    match step
    case Rename(renames) => columns - ToSet(Firsts(renames)) + ToSet(Seconds(renames))
    case Select(selected) => ToSet(selected)
    case Derive(derived) => columns + ToSet(Firsts(derived))
    case Python(_, _, output) => columns + {output}
    case _ => columns
  }

  lemma AllInIff(names: seq<string>, columns: seq<string>)
    ensures AllIn(names, columns) <==> ToSet(names) <= ToSet(columns)
    ensures NoneIn(names, columns) <==> ToSet(names) !! ToSet(columns)
  {
    assert ToSet(names) <= ToSet(columns) ==> forall n :: n in names ==> n in ToSet(names);
    assert ToSet(names) !! ToSet(columns) ==> forall n :: n in names ==> n in ToSet(names);
  }

  lemma ReadableSplit(derived: seq<(string, Expr)>, columns: seq<string>)
    requires derived != []
    ensures Readable(derived, columns) <==> AllIn(derived[0].1.uses, columns) && Readable(derived[1..], columns)
  {
    if AllIn(derived[0].1.uses, columns) && Readable(derived[1..], columns) {
      forall i | 0 <= i < |derived| ensures AllIn(derived[i].1.uses, columns) {
        assert i > 0 ==> derived[i] == derived[1..][i - 1];
      }
    }
  }

  lemma {:induction false} ReadableIff(derived: seq<(string, Expr)>, columns: seq<string>)
    ensures Readable(derived, columns) <==> UsedBy(derived) <= ToSet(columns)
  {
    if derived != [] {
      ReadableIff(derived[1..], columns);
      ReadableSplit(derived, columns);
      AllInIff(derived[0].1.uses, columns);
    }
  }

  lemma WithoutSet(columns: seq<string>, gone: seq<string>)
    ensures ToSet(Without(columns, gone)) == ToSet(columns) - ToSet(gone)
  {
    forall c ensures c in Without(columns, gone) <==> c in columns && c !in gone {
      WithoutIn(columns, gone, c);
    }
  }

  lemma SetOfBoth(a: seq<string>, b: seq<string>)
    ensures ToSet(a + b) == ToSet(a) + ToSet(b)
  {
  }

  /** One step: accepted exactly when it works, finds what it needs and nothing in its way. */
  lemma StepAcceptedIff(e: Engine, step: Step, t: Table)
    requires !step.Sql?
    ensures DenoteStep(e, step, t).Some? <==>
            StepWorks(step) && StepNeeds(step) <= ToSet(t.columns) && StepBars(step) !! ToSet(t.columns)
    ensures DenoteStep(e, step, t).Some? ==>
              ToSet(DenoteStep(e, step, t).value.columns) == After(step, ToSet(t.columns))
  {
    match step
    case Rename(renames) =>
      WithoutSet(t.columns, Firsts(renames));
      SetOfBoth(Without(t.columns, Firsts(renames)), Seconds(renames));
      AllInIff(Firsts(renames), t.columns);
      AllInIff(Seconds(renames), Without(t.columns, Firsts(renames)));
    case Derive(derived) =>
      AllInIff(Firsts(derived), t.columns);
      ReadableIff(derived, t.columns);
      SetOfBoth(t.columns, Firsts(derived));
    case Python(_, args, output) =>
      AllInIff(args, t.columns);
      SetOfBoth(t.columns, [output]);
      assert ToSet([output]) == {output};
    case Filter(cond) => AllInIff(cond.uses, t.columns);
    case Cast(casts) => AllInIff(Firsts(casts), t.columns);
    case Select(columns) => AllInIff(columns, t.columns);
    case Dedup(keys) => AllInIff(keys, t.columns);
  }

  // ------------------------------------------------------------------ Chains of steps

  /** The columns the input must have for all steps to find theirs. */
  function Needs(steps: seq<Step>): set<string> {
    if steps == [] then {}
    else StepNeeds(steps[0]) + (if steps[0].Select? then {} else Needs(steps[1..]) - Made(steps[0]))
  }

  /** The columns the input must not have. */
  function Bars(steps: seq<Step>): set<string> {
    if steps == [] then {}
    else StepBars(steps[0]) + (if steps[0].Select? then {} else Bars(steps[1..]) - Gone(steps[0]))
  }

  /** The columns a step brings. */
  function Made(step: Step): set<string> {
    match step
    case Rename(renames) => ToSet(Seconds(renames))
    case Select(columns) => ToSet(columns)
    case Derive(derived) => ToSet(Firsts(derived))
    case Python(_, _, output) => {output}
    case _ => {}
  }

  /** The columns a step takes away, a projection apart. */
  function Gone(step: Step): set<string> {
    match step
    case Rename(renames) => ToSet(Firsts(renames)) - ToSet(Seconds(renames))
    case _ => {}
  }

  /** What the steps must satisfy together, whatever the input. */
  ghost predicate Works(steps: seq<Step>) {
    steps != [] ==>
      && StepWorks(steps[0]) && Works(steps[1..])
      && Bars(steps[1..]) !! Made(steps[0]) && Needs(steps[1..]) !! Gone(steps[0])
      && (steps[0].Select? ==> Needs(steps[1..]) <= Made(steps[0]))
  }

  lemma {:induction false} StepsAcceptedIff(e: Engine, steps: seq<Step>, t: Table)
    requires forall i :: 0 <= i < |steps| ==> !steps[i].Sql?
    ensures DenoteSteps(e, steps, t).Some? <==>
            Works(steps) && Needs(steps) <= ToSet(t.columns) && Bars(steps) !! ToSet(t.columns)
  {
    if steps != [] {
      StepAcceptedIff(e, steps[0], t);
      var next := DenoteStep(e, steps[0], t);
      if next.Some? {
        StepsAcceptedIff(e, steps[1..], next.value);
        Backward(steps, ToSet(t.columns));
      }
    }
  }

  /** The conditions of the rest on the columns after a step, as conditions on those before it. */
  lemma Backward(steps: seq<Step>, columns: set<string>)
    requires steps != [] && StepNeeds(steps[0]) <= columns && StepBars(steps[0]) !! columns
    ensures var rest, after := steps[1..], After(steps[0], columns);
            && (Needs(rest) <= after <==>
                  && Needs(steps) <= columns && Needs(rest) !! Gone(steps[0])
                  && (steps[0].Select? ==> Needs(rest) <= Made(steps[0])))
            && (Bars(rest) !! after <==> Bars(steps) !! columns && Bars(rest) !! Made(steps[0]))
  {
  }

  // ------------------------------------------------------------------ Whole transforms

  function SpecNeeds(spec: Spec): set<string> {
    if spec.columnMap == [] then Needs(spec.steps) else UsedBy(spec.columnMap)
  }

  function SpecBars(spec: Spec): set<string> {
    if spec.columnMap == [] then Bars(spec.steps) else {}
  }

  ghost predicate SpecWorks(spec: Spec) {
    && Works(spec.steps)
    && (spec.columnMap != [] ==>
          && Distinct(Firsts(spec.columnMap)) && Needs(spec.steps) <= ToSet(Firsts(spec.columnMap))
          && Bars(spec.steps) !! ToSet(Firsts(spec.columnMap)))
  }

  /**
   A transform without raw SQL is accepted exactly when its declaration works at all, the input has
   every column it needs, and none that it would bring a second time.
   */
  lemma AcceptedIff(e: Engine, spec: Spec, t: Table)
    requires NoRawSql(spec)
    ensures Denote(e, spec, t).Some? <==>
            SpecWorks(spec) && SpecNeeds(spec) <= ToSet(t.columns) && SpecBars(spec) !! ToSet(t.columns)
  {
    ReadableIff(spec.columnMap, t.columns);
    var mapped := DenoteMap(spec.columnMap, t);
    if mapped.Some? {
      StepsAcceptedIff(e, spec.steps, mapped.value);
    }
  }
}
