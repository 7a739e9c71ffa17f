/** Running a workflow: in plan order, or over and over what is runnable now until nothing is. */
module Execution {
  import opened Rows
  import opened Workflow
  import opened Planning
  import opened PlanProofs

  predicate Contains(w: Window, current: int) {
    w.start <= current < w.end
  }

  /** Signals are there and the window, if any, is open. */
  predicate Allowed(t: Task, signals: set<string>, now: int) {
    && (forall s :: s in t.signals ==> s in signals)
    && (t.window.None? || Contains(t.window.value, now))
  }

  /** The tasks whose signals and windows would let them run. */
  function AllowedTasks(tasks: seq<Task>, signals: set<string>, now: int): seq<Task> {
    if tasks == [] then []
    else (if Allowed(tasks[0], signals, now) then [tasks[0]] else []) + AllowedTasks(tasks[1..], signals, now)
  }

  /** ready_tasks: not completed, dependencies completed, allowed; by priority, then name. */
  function ReadyTasks(tasks: seq<Task>, completed: set<string>, signals: set<string>, now: int): seq<Task> {
    Sort(Layer(AllowedTasks(tasks, signals, now), completed))
  }

  /** What lets a task run now: its signals are all there, and its window, if it has one, has begun and not ended. */
  ghost predicate MayRun(t: Task, signals: set<string>, now: int) {
    && (set s | s in t.signals) <= signals
    && (t.window.Some? ==> t.window.value.start <= now && now < t.window.value.end)
  }

  lemma AllowedIff(tasks: seq<Task>, signals: set<string>, now: int, t: Task)
    ensures t in AllowedTasks(tasks, signals, now) <==> t in tasks && MayRun(t, signals, now)
  {
    AllowedMembers(tasks, signals, now, t);
  }

  /**
   ready_tasks gives exactly the tasks that are not completed, whose dependencies are, and that may run
   now, each once, by descending priority and then by name.
   */
  lemma ReadyTasksAre(tasks: seq<Task>, completed: set<string>, signals: set<string>, now: int)
    requires NamesDiffer(tasks)
    ensures var ready := ReadyTasks(tasks, completed, signals, now);
            && Sorted(ready) && NamesDiffer(ready)
            && forall t :: t in ready <==>
                 t in tasks && t.name !in completed && (set dep | dep in t.dependsOn) <= completed
                 && MayRun(t, signals, now)
  {
    var allowed := AllowedTasks(tasks, signals, now);
    AllowedNamesDiffer(tasks, signals, now);
    SortedLayer(allowed, completed);
    OrderedNamesDiffer(Sort(Layer(allowed, completed)), allowed);
    forall t ensures t in allowed <==> t in tasks && MayRun(t, signals, now) {
      AllowedIff(tasks, signals, now, t);
    }
  }

  /** run_ready runs what is ready, and then what is ready with that completed, until nothing is. */
  lemma RoundsAreReadyTasks(tasks: seq<Task>, completed: set<string>, signals: set<string>, now: int)
    requires NamesDiffer(tasks)
    ensures var allowed, ready := AllowedTasks(tasks, signals, now), ReadyTasks(tasks, completed, signals, now);
            Rounds(allowed, completed)
            == if ready == [] then [] else ready + Rounds(allowed, completed + Names(ready))
  {
    AllowedNamesDiffer(tasks, signals, now);
    ReadyLayer(AllowedTasks(tasks, signals, now), completed);
  }

  /** Rounds of ready tasks until a round is empty. */
  function Rounds(allowed: seq<Task>, completed: set<string>): seq<Task>
    decreases |Names(allowed) - completed|
  {
    var layer := Layer(allowed, completed);
    if layer == [] then []
    else
      LayerProgress(allowed, completed);
      Sort(layer) + Rounds(allowed, completed + Names(layer))
  }

  lemma {:induction false} AllowedMembers(tasks: seq<Task>, signals: set<string>, now: int, t: Task)
    ensures t in AllowedTasks(tasks, signals, now) <==> t in tasks && Allowed(t, signals, now)
  {
    if tasks != [] {
      AllowedMembers(tasks[1..], signals, now, t);
    }
  }

  lemma {:induction false} AllowedNamesDiffer(tasks: seq<Task>, signals: set<string>, now: int)
    requires NamesDiffer(tasks)
    ensures NamesDiffer(AllowedTasks(tasks, signals, now))
  {
    if tasks != [] {
      var rest, allowed := tasks[1..], AllowedTasks(tasks[1..], signals, now);
      assert forall i :: 0 <= i < |rest| ==> rest[i] == tasks[i + 1];
      AllowedNamesDiffer(rest, signals, now);
      forall i | 0 <= i < |allowed| ensures allowed[i].name != tasks[0].name {
        AllowedMembers(rest, signals, now, allowed[i]);
        assert allowed[i] in rest;
      }
    }
  }

  function NamesInOrder(tasks: seq<Task>): (names: seq<string>)
    ensures |names| == |tasks| && forall i :: 0 <= i < |tasks| ==> names[i] == tasks[i].name
  {
    seq(|tasks|, i requires 0 <= i < |tasks| => tasks[i].name)
  }

  /** Execute the planned tasks one after the other. */
  method ExecuteAll(plan: seq<Task>) returns (names: seq<string>)
    ensures names == NamesInOrder(plan)
  {
    names := [];
    var i := 0;
    while i < |plan|
      invariant 0 <= i <= |plan| && names == NamesInOrder(plan)[..i]
    {
      names := names + [plan[i].name];
      i := i + 1;
    }
  }

  /** Run every task in plan order; a cycle raises before anything runs. */
  method Run(tasks: seq<Task>) returns (completed: Option<seq<string>>)
    requires ValidGraph(tasks)
    ensures completed.Some? <==> PlanFrom(tasks, {}).Some?
    ensures completed.Some? ==> completed.value == NamesInOrder(PlanFrom(tasks, {}).value)
  {
    var plan := Plan(tasks);
    if plan.None? {
      return None;
    }
    var names := ExecuteAll(plan.value);
    completed := Some(names);
  }

  /** One round: every ready task runs and is then recorded as completed. */
  method RunRound(ready: seq<Task>, completed: set<string>, executed: seq<Task>)
    returns (completed': set<string>, executed': seq<Task>)
    ensures completed' == completed + Names(ready) && executed' == executed + ready
  {
    completed', executed' := completed, executed;
    var i := 0;
    while i < |ready|
      invariant 0 <= i <= |ready| && executed' == executed + ready[..i]
      invariant completed' == completed + Names(ready[..i])
    {
      NamesSnoc(ready, i);
      completed' := completed' + {ready[i].name};
      executed' := executed' + [ready[i]];
      i := i + 1;
    }
    assert ready[..|ready|] == ready;
  }

  lemma ReadyLayer(allowed: seq<Task>, completed: set<string>)
    requires NamesDiffer(allowed)
    ensures var layer := Layer(allowed, completed);
            Names(Sort(layer)) == Names(layer) && (Sort(layer) == [] <==> layer == [])
  {
    SortedLayer(allowed, completed);
    SortLength(Layer(allowed, completed));
  }

  lemma RoundsUnfold(allowed: seq<Task>, completed: set<string>, executed: seq<Task>)
    requires Layer(allowed, completed) != []
    ensures var layer := Layer(allowed, completed);
            executed + Rounds(allowed, completed)
            == (executed + Sort(layer)) + Rounds(allowed, completed + Names(layer))
  {
    var layer := Layer(allowed, completed);
    var rest := Rounds(allowed, completed + Names(layer));
    assert Rounds(allowed, completed) == Sort(layer) + rest;
    AppendAssociates(executed, Sort(layer), rest);
  }

  /** Round after round, the tasks that have become eligible run, until no further one is. */
  method RunReady(tasks: seq<Task>, completed: set<string>, signals: set<string>, now: int)
    returns (executed: seq<Task>)
    requires ValidGraph(tasks)
    ensures executed == Rounds(AllowedTasks(tasks, signals, now), completed)
  {
    var completedNames := completed;
    executed := [];
    ghost var allowed := AllowedTasks(tasks, signals, now);
    ghost var goal := Rounds(allowed, completed);
    assert goal == [] + goal;
    AllowedNamesDiffer(tasks, signals, now);
    while true
      invariant goal == executed + Rounds(allowed, completedNames)
      decreases |Names(allowed) - completedNames|
    {
      var ready := ReadyTasks(tasks, completedNames, signals, now);
      ReadyLayer(allowed, completedNames);
      if ready == [] {
        return;
      }
      RoundsUnfold(allowed, completedNames, executed);
      LayerProgress(allowed, completedNames);
      completedNames, executed := RunRound(ready, completedNames, executed);
    }
  }

  // ------------------------------------------------------------------ Properties

  /** Every task runs at most once, none that was completed, each after its dependencies. */
  lemma {:induction false} RoundsAreOrderly(allowed: seq<Task>, completed: set<string>)
    requires NamesDiffer(allowed)
    ensures var executed := Rounds(allowed, completed);
            && NamesDiffer(executed) && AfterDependencies(executed, completed)
            && forall t :: t in executed ==> t in allowed && t.name !in completed
    decreases |Names(allowed) - completed|
  {
    var layer := Layer(allowed, completed);
    if layer != [] {
      var rest := Rounds(allowed, completed + Names(layer));
      LayerProgress(allowed, completed);
      RoundsAreOrderly(allowed, completed + Names(layer));
      SortedLayer(allowed, completed);
      OrderedNamesDiffer(Sort(layer), allowed);
      JoinNamesDiffer(Sort(layer), rest);
      LayerThenRest(Sort(layer), rest, completed);
    }
  }

  /** No task outside the set could run with `completed` and the set done. */
  ghost predicate Closed(allowed: seq<Task>, completed: set<string>, names: set<string>) {
    forall t :: t in allowed && t.name !in completed && DependenciesIn(t, completed + names) ==> t.name in names
  }

  /** What was executed cannot be extended. */
  lemma {:induction false} RoundsAreClosed(allowed: seq<Task>, completed: set<string>)
    requires NamesDiffer(allowed)
    ensures Closed(allowed, completed, Names(Rounds(allowed, completed)))
    decreases |Names(allowed) - completed|
  {
    var layer := Layer(allowed, completed);
    if layer == [] {
      NothingFree(allowed, completed);
    } else {
      var rest := Rounds(allowed, completed + Names(layer));
      LayerProgress(allowed, completed);
      RoundsAreClosed(allowed, completed + Names(layer));
      SortedLayer(allowed, completed);
      NamesAppend(Sort(layer), rest);
      ClosedJoin(allowed, completed, Names(layer), Names(rest));
    }
  }

  lemma NothingFree(allowed: seq<Task>, completed: set<string>)
    requires Layer(allowed, completed) == []
    ensures Closed(allowed, completed, {}) && Names(Rounds(allowed, completed)) == {}
  {
    assert completed + {} == completed;
    forall t | t in allowed && t.name !in completed ensures !DependenciesIn(t, completed) {
      LayerMembers(allowed, completed, t);
    }
  }

  lemma ClosedJoin(allowed: seq<Task>, completed: set<string>, layer: set<string>, rest: set<string>)
    requires Closed(allowed, completed + layer, rest)
    ensures Closed(allowed, completed, layer + rest)
  {
    assert completed + (layer + rest) == (completed + layer) + rest;
  }

  /** Every set closed in this way holds all that was executed. */
  lemma {:induction false} RoundsAreLeast(
    allowed: seq<Task>, completed: set<string>, done: set<string>, names: set<string>)
    requires NamesDiffer(allowed) && Closed(allowed, completed, names) && completed <= done <= completed + names
    ensures Names(Rounds(allowed, done)) <= names
    decreases |Names(allowed) - done|
  {
    var layer := Layer(allowed, done);
    if layer == [] {
      assert Names(Rounds(allowed, done)) == {};
    } else {
      forall n | n in Names(layer) ensures n in names {
        var i :| 0 <= i < |layer| && layer[i].name == n;
        LayerMembers(allowed, done, layer[i]);
      }
      LayerProgress(allowed, done);
      RoundsAreLeast(allowed, completed, done + Names(layer), names);
      SortedLayer(allowed, done);
      NamesAppend(Sort(layer), Rounds(allowed, done + Names(layer)));
    }
  }

  /**
   run_ready executes exactly the least set of tasks closed under "not completed, allowed, and all
   dependencies completed or executed".
   */
  lemma RunReadyIsTheLeastClosedSet(
    tasks: seq<Task>, completed: set<string>, signals: set<string>, now: int, names: set<string>)
    requires ValidGraph(tasks)
    ensures var allowed := AllowedTasks(tasks, signals, now);
            var executed := Names(Rounds(allowed, completed));
            && Closed(allowed, completed, executed)
            && (Closed(allowed, completed, names) ==> executed <= names)
            && forall t :: t in allowed <==> t in tasks && MayRun(t, signals, now)
  {
    var allowed := AllowedTasks(tasks, signals, now);
    AllowedNamesDiffer(tasks, signals, now);
    forall t ensures t in allowed <==> t in tasks && MayRun(t, signals, now) {
      AllowedIff(tasks, signals, now, t);
    }
    RoundsAreClosed(allowed, completed);
    if Closed(allowed, completed, names) {
      RoundsAreLeast(allowed, completed, completed, names);
    }
  }

  lemma {:induction false} EverythingAllowed(tasks: seq<Task>, signals: set<string>, now: int)
    requires forall t :: t in tasks ==> Allowed(t, signals, now)
    ensures AllowedTasks(tasks, signals, now) == tasks
  {
    if tasks != [] {
      EverythingAllowed(tasks[1..], signals, now);
      assert tasks == [tasks[0]] + tasks[1..];
    }
  }

  lemma {:induction false} RoundsFollowPlan(tasks: seq<Task>, done: set<string>)
    requires PlanFrom(tasks, done).Some?
    ensures Rounds(tasks, done) == PlanFrom(tasks, done).value
    decreases |Names(tasks) - done|
  {
    if Names(tasks) <= done {
      assert Layer(tasks, done) == [] by {
        if Layer(tasks, done) != [] {
          LayerMembers(tasks, done, Layer(tasks, done)[0]);
          NameOfMember(tasks, Layer(tasks, done)[0]);
        }
      }
    } else {
      LayerProgress(tasks, done);
      RoundsFollowPlan(tasks, done + Names(Layer(tasks, done)));
    }
  }

  /** With every task allowed and none completed before, an acyclic workflow runs in plan order. */
  lemma RunReadyFollowsPlan(tasks: seq<Task>, signals: set<string>, now: int)
    requires ValidGraph(tasks) && PlanFrom(tasks, {}).Some?
    requires forall t :: t in tasks ==> Allowed(t, signals, now)
    ensures Rounds(AllowedTasks(tasks, signals, now), {}) == PlanFrom(tasks, {}).value
  {
    EverythingAllowed(tasks, signals, now);
    RoundsFollowPlan(tasks, {});
  }
}
