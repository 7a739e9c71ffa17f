/** Planning and execution of workflows against what a topological order and a fixpoint are. */
module Planning {
  import opened Rows
  import opened Workflow

  // ------------------------------------------------------------------ The planner

  /** `remaining` maps every task not done to its dependencies not done. */
  ghost predicate Tracks(tasks: seq<Task>, remaining: map<string, set<string>>, done: set<string>) {
    && (forall n :: n in remaining <==> n in Names(tasks) && n !in done)
    && (forall t :: t in tasks && t.name in remaining ==>
          remaining[t.name] == (set d | d in t.dependsOn) - done)
  }

  lemma SameNames(a: seq<Task>, b: seq<Task>)
    requires forall t :: t in a <==> t in b
    ensures Names(a) == Names(b)
  {
    forall n ensures n in Names(a) <==> n in Names(b) {
      if n in Names(a) {
        var i :| 0 <= i < |a| && a[i].name == n;
        assert a[i] in b;
      }
      if n in Names(b) {
        var i :| 0 <= i < |b| && b[i].name == n;
        assert b[i] in a;
      }
    }
  }

  /** The names of a sorted layer are those of the layer. */
  lemma SortedLayer(tasks: seq<Task>, done: set<string>)
    requires NamesDiffer(tasks)
    ensures var ready := Layer(tasks, done);
            && NamesDiffer(ready) && Names(Sort(ready)) == Names(ready) && InOrder(Sort(ready)) && Sorted(Sort(ready))
            && (forall t :: t in Sort(ready) <==> t in tasks && t.name !in done && DependenciesIn(t, done))
  {
    var ready := Layer(tasks, done);
    LayerNamesDiffer(tasks, done);
    SortSorts(ready);
    SameNames(Sort(ready), ready);
    forall t ensures t in ready <==> t in tasks && t.name !in done && DependenciesIn(t, done) {
      LayerMembers(tasks, done, t);
    }
  }

  /** A task is in the next layer exactly when it still waits, for nothing. */
  lemma ReadyIff(tasks: seq<Task>, remaining: map<string, set<string>>, done: set<string>, i: nat)
    requires Tracks(tasks, remaining, done) && i < |tasks|
    ensures tasks[i].name in remaining && remaining[tasks[i].name] == {}
            <==> tasks[i].name !in done && DependenciesIn(tasks[i], done)
  {
    var t := tasks[i];
    assert t.name in Names(tasks) && t in tasks;
    if t.name in remaining {
      assert forall d :: d in remaining[t.name] <==> d in t.dependsOn && d !in done;
    }
  }

  lemma LayerUnfolds(tasks: seq<Task>, done: set<string>, i: nat)
    requires i < |tasks|
    ensures Layer(tasks[i..], done) ==
            (if tasks[i].name !in done && DependenciesIn(tasks[i], done) then [tasks[i]] else [])
            + Layer(tasks[i + 1..], done)
  {
    assert tasks[i..][1..] == tasks[i + 1..];
  }

  /** One pass over the declared tasks. */
  method ReadyNow(tasks: seq<Task>, remaining: map<string, set<string>>, ghost done: set<string>)
    returns (ready: seq<Task>)
    requires Tracks(tasks, remaining, done)
    ensures ready == Layer(tasks, done)
  {
    ready := [];
    var i := 0;
    while i < |tasks|
      invariant 0 <= i <= |tasks|
      invariant Layer(tasks, done) == ready + Layer(tasks[i..], done)
    {
      ReadyIff(tasks, remaining, done, i);
      LayerUnfolds(tasks, done, i);
      if tasks[i].name in remaining && remaining[tasks[i].name] == {} {
        AppendAssociates(ready, [tasks[i]], Layer(tasks[i + 1..], done));
        ready := ready + [tasks[i]];
      }
      i := i + 1;
    }
  }

  /** Move a layer from the remaining tasks to the plan. */
  method Emit(ready: seq<Task>, ordered: seq<Task>, remaining: map<string, set<string>>)
    returns (ordered': seq<Task>, remaining': map<string, set<string>>)
    ensures ordered' == ordered + ready
    ensures remaining' == map n | n in remaining - Names(ready) :: remaining[n] - Names(ready)
  {
    ordered', remaining' := ordered, remaining;
    var i := 0;
    while i < |ready|
      invariant 0 <= i <= |ready| && ordered' == ordered + ready[..i]
      invariant remaining' == remaining - Names(ready[..i])
    {
      ordered' := ordered' + [ready[i]];
      remaining' := remaining' - {ready[i].name};
      NamesSnoc(ready, i);
      i := i + 1;
    }
    assert ready[..|ready|] == ready;
    remaining' := map n | n in remaining' :: remaining'[n] - Names(ready);
  }

  /** A plan whose first part is known. */
  function Prefixed(ordered: seq<Task>, rest: Option<seq<Task>>): Option<seq<Task>> {
    if rest.None? then None else Some(ordered + rest.value)
  }

  lemma PlanUnfolds(tasks: seq<Task>, done: set<string>, ordered: seq<Task>, n: string)
    requires n in Names(tasks) && n !in done
    ensures var ready := Layer(tasks, done);
            Prefixed(ordered, PlanFrom(tasks, done)) ==
            if ready == [] then None
            else Prefixed(ordered + Sort(ready), PlanFrom(tasks, done + Names(ready)))
  {
    var ready := Layer(tasks, done);
    var rest := PlanFrom(tasks, done + Names(ready));
    if ready != [] && rest.Some? {
      assert ordered + (Sort(ready) + rest.value) == ordered + Sort(ready) + rest.value;
    }
  }

  method Plan(tasks: seq<Task>) returns (plan: Option<seq<Task>>)
    requires ValidGraph(tasks)
    ensures plan == PlanFrom(tasks, {})
  {
    var remaining: map<string, set<string>> := map t | t in tasks :: t.name := set d | d in t.dependsOn;
    var ordered: seq<Task> := [];
    ghost var done: set<string> := {};
    ghost var goal := PlanFrom(tasks, done);
    assert goal == Prefixed(ordered, goal) by {
      assert goal.Some? ==> [] + goal.value == goal.value;
    }
    assert Tracks(tasks, remaining, done);
    while remaining != map[]
      invariant Tracks(tasks, remaining, done)
      invariant goal == Prefixed(ordered, PlanFrom(tasks, done))
      decreases remaining.Keys
    {
      var ready := ReadyNow(tasks, remaining, done);
      ghost var n :| n in remaining;
      PlanUnfolds(tasks, done, ordered, n);
      if ready == [] {
        return None;
      }
      SortedLayer(tasks, done);
      assert ready[0].name in Names(ready);
      ghost var waiting := remaining;
      ordered, remaining := Emit(Sort(ready), ordered, remaining);
      LayerLeaves(tasks, waiting, remaining, done, Names(ready));
      done := done + Names(ready);
    }
    NothingRemains(tasks, remaining, done);
    assert ordered + [] == ordered;
    plan := Some(ordered);
  }

  lemma NothingRemains(tasks: seq<Task>, remaining: map<string, set<string>>, done: set<string>)
    requires Tracks(tasks, remaining, done) && remaining == map[]
    ensures PlanFrom(tasks, done) == Some([])
  {
    assert Names(tasks) <= done;
  }

  lemma NamesSnoc(ready: seq<Task>, i: nat)
    requires i < |ready|
    ensures Names(ready[..i + 1]) == Names(ready[..i]) + {ready[i].name}
  {
    assert ready[..i + 1] == ready[..i] + [ready[i]];
    forall n ensures n in Names(ready[..i + 1]) <==> n in Names(ready[..i]) + {ready[i].name} {
      if n in Names(ready[..i]) {
        var j :| 0 <= j < i && ready[..i][j].name == n;
        assert ready[..i + 1][j].name == n;
      }
      if n == ready[i].name {
        assert ready[..i + 1][i].name == n;
      }
      if n in Names(ready[..i + 1]) {
        var j :| 0 <= j < i + 1 && ready[..i + 1][j].name == n;
        assert j < i ==> ready[..i][j].name == n;
      }
    }
  }

  lemma LayerLeaves(
    tasks: seq<Task>, waiting: map<string, set<string>>, remaining: map<string, set<string>>,
    done: set<string>, ready: set<string>)
    requires Tracks(tasks, waiting, done) && ready == Names(Layer(tasks, done)) && ready != {}
    requires remaining == map n | n in waiting - ready :: waiting[n] - ready
    ensures Tracks(tasks, remaining, done + ready)
    ensures remaining.Keys < waiting.Keys
  {
    forall n | n in ready ensures n in waiting {
      var i :| 0 <= i < |Layer(tasks, done)| && Layer(tasks, done)[i].name == n;
      LayerMembers(tasks, done, Layer(tasks, done)[i]);
    }
    var n0 :| n0 in ready;
    assert n0 in waiting.Keys && n0 !in remaining.Keys;
  }
}
