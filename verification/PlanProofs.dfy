/** What a plan is: a topological order, sorted by depth, and the same however tasks are declared. */
module PlanProofs {
  import opened Workflow
  import opened Planning

  // ------------------------------------------------------- Topological orders

  ghost predicate AfterDependencies(order: seq<Task>, done: set<string>) {
    forall i :: 0 <= i < |order| ==> DependenciesIn(order[i], done + Names(order[..i]))
  }

  lemma NamesAppend(a: seq<Task>, b: seq<Task>)
    ensures Names(a + b) == Names(a) + Names(b)
  {
    forall n ensures n in Names(a + b) <==> n in Names(a) + Names(b) {
      if n in Names(a) {
        var i :| 0 <= i < |a| && a[i].name == n;
        assert (a + b)[i].name == n;
      }
      if n in Names(b) {
        var i :| 0 <= i < |b| && b[i].name == n;
        assert (a + b)[|a| + i].name == n;
      }
    }
  }

  /** A sorted layer followed by a plan for the rest. */
  lemma LayerThenRest(layer: seq<Task>, rest: seq<Task>, done: set<string>)
    requires forall t :: t in layer ==> DependenciesIn(t, done)
    requires AfterDependencies(rest, done + Names(layer))
    ensures AfterDependencies(layer + rest, done)
  {
    var all := layer + rest;
    forall i | 0 <= i < |all| ensures DependenciesIn(all[i], done + Names(all[..i])) {
      if i < |layer| {
        assert layer[i] in layer;
      } else {
        assert all[..i] == layer + rest[..i - |layer|];
        NamesAppend(layer, rest[..i - |layer|]);
        assert DependenciesIn(rest[i - |layer|], (done + Names(layer)) + Names(rest[..i - |layer|]));
      }
    }
  }

  lemma NameOfMember(tasks: seq<Task>, t: Task)
    requires t in tasks
    ensures t.name in Names(tasks)
  {
    var i :| 0 <= i < |tasks| && tasks[i] == t;
  }

  lemma JoinNamesDiffer(a: seq<Task>, b: seq<Task>)
    requires NamesDiffer(a) && NamesDiffer(b) && forall t :: t in b ==> t.name !in Names(a)
    ensures NamesDiffer(a + b)
  {
    var all := a + b;
    forall i, j | 0 <= i < j < |all| ensures all[i].name != all[j].name {
      if i < |a| <= j {
        assert b[j - |a|] in b && a[i].name in Names(a);
      }
    }
  }

  lemma OrderedNamesDiffer(a: seq<Task>, b: seq<Task>)
    requires InOrder(a) && NamesDiffer(b) && forall t :: t in a ==> t in b
    ensures NamesDiffer(a)
  {
    forall i, j | 0 <= i < j < |a| ensures a[i].name != a[j].name {
      assert Before(a[i], a[j]);
      BeforeTotal(a[i], a[i]);
      assert a[i] in b && a[j] in b;
      var k :| 0 <= k < |b| && b[k] == a[i];
      var m :| 0 <= m < |b| && b[m] == a[j];
    }
  }

  /** A plan lists exactly the tasks not done, once each, and each after its dependencies. */
  lemma {:induction false} PlanIsTopological(tasks: seq<Task>, done: set<string>)
    requires NamesDiffer(tasks) && PlanFrom(tasks, done).Some?
    ensures var order := PlanFrom(tasks, done).value;
            && NamesDiffer(order) && AfterDependencies(order, done)
            && forall t :: t in order <==> t in tasks && t.name !in done
    decreases |Names(tasks) - done|
  {
    if Names(tasks) <= done {
      forall t | t in tasks ensures t.name in done {
        NameOfMember(tasks, t);
      }
    } else {
      var layer := Sort(Layer(tasks, done));
      var done' := done + Names(Layer(tasks, done));
      var rest := PlanFrom(tasks, done').value;
      LayerProgress(tasks, done);
      PlanIsTopological(tasks, done');
      SortedLayer(tasks, done);
      OrderedNamesDiffer(layer, tasks);
      JoinNamesDiffer(layer, rest);
      LayerThenRest(layer, rest, done);
      forall t ensures t in layer + rest <==> t in tasks && t.name !in done {
        if t in layer {
          NameOfMember(layer, t);
        }
        if t in tasks && t.name in Names(layer) {
          var i :| 0 <= i < |layer| && layer[i].name == t.name;
          SameTask(tasks, layer[i], t);
        }
      }
    }
  }

  lemma SameTask(tasks: seq<Task>, a: Task, b: Task)
    requires NamesDiffer(tasks) && a in tasks && b in tasks && a.name == b.name
    ensures a == b
  {
    var i :| 0 <= i < |tasks| && tasks[i] == a;
    var j :| 0 <= j < |tasks| && tasks[j] == b;
  }

  /** In a topological order the first task not done is free. */
  lemma FirstNotDoneIsFree(tasks: seq<Task>, order: seq<Task>, done: set<string>)
    requires AfterDependencies(order, {}) && (forall t :: t in order <==> t in tasks)
    requires !(Names(tasks) <= done)
    ensures Layer(tasks, done) != []
  {
    SameNames(order, tasks);
    var n :| n in Names(order) && n !in done;
    var k :| 0 <= k < |order| && order[k].name == n;
    var i := FirstNotDone(order, done, k);
    assert Names(order[..i]) <= done;
    assert DependenciesIn(order[i], {} + Names(order[..i]));
    assert order[i] in order;
    LayerMembers(tasks, done, order[i]);
  }

  lemma {:induction false} FirstNotDone(order: seq<Task>, done: set<string>, k: nat) returns (i: nat)
    requires k < |order| && order[k].name !in done
    ensures i < |order| && order[i].name !in done && forall j :: 0 <= j < i ==> order[j].name in done
  {
    if j :| 0 <= j < k && order[j].name !in done {
      i := FirstNotDone(order, done, j);
    } else {
      i := k;
    }
  }

  lemma {:induction false} TopologicalMeansPlan(tasks: seq<Task>, order: seq<Task>, done: set<string>)
    requires AfterDependencies(order, {}) && (forall t :: t in order <==> t in tasks)
    ensures PlanFrom(tasks, done).Some?
    decreases |Names(tasks) - done|
  {
    if !(Names(tasks) <= done) {
      FirstNotDoneIsFree(tasks, order, done);
      LayerProgress(tasks, done);
      TopologicalMeansPlan(tasks, order, done + Names(Layer(tasks, done)));
    }
  }

  ghost predicate IsTopologicalOrder(tasks: seq<Task>, order: seq<Task>) {
    NamesDiffer(order) && AfterDependencies(order, {}) && forall t :: t in order <==> t in tasks
  }

  /** plan raises exactly when no order lists every task once and after its dependencies. */
  lemma PlanExistsIff(tasks: seq<Task>)
    requires ValidGraph(tasks)
    ensures PlanFrom(tasks, {}).Some? <==> exists order :: IsTopologicalOrder(tasks, order)
    ensures PlanFrom(tasks, {}).Some? ==> IsTopologicalOrder(tasks, PlanFrom(tasks, {}).value)
  {
    if PlanFrom(tasks, {}).Some? {
      PlanIsTopological(tasks, {});
      var order := PlanFrom(tasks, {}).value;
      forall i | 0 <= i < |order| ensures DependenciesIn(order[i], {} + Names(order[..i])) {
      }
      assert IsTopologicalOrder(tasks, order);
    }
    if order :| IsTopologicalOrder(tasks, order) {
      TopologicalMeansPlan(tasks, order, {});
    }
  }

  // ------------------------------------------------------------------ Depth

  /** A chain of d dependencies ends in this task: it needs one that needs one ... d times. */
  ghost predicate HasChain(tasks: seq<Task>, name: string, d: nat)
    decreases d
  {
    d == 0 ||
    exists t, dep :: t in tasks && t.name == name && dep in t.dependsOn && HasChain(tasks, dep, d - 1)
  }

  /** The longest chain ending in the task has d dependencies. */
  ghost predicate IsDepth(tasks: seq<Task>, name: string, d: nat) {
    HasChain(tasks, name, d) && !HasChain(tasks, name, d + 1)
  }

  lemma LastLink(tasks: seq<Task>, name: string, d: nat) returns (t: Task, dep: string)
    requires HasChain(tasks, name, d + 1)
    ensures t in tasks && t.name == name && dep in t.dependsOn && HasChain(tasks, dep, d)
  {
    t, dep :| t in tasks && t.name == name && dep in t.dependsOn && HasChain(tasks, dep, d);
  }

  lemma {:induction false} ChainShortens(tasks: seq<Task>, name: string, d: nat)
    requires HasChain(tasks, name, d + 1)
    ensures HasChain(tasks, name, d)
    decreases d
  {
    if d > 0 {
      var t, dep := LastLink(tasks, name, d);
      ChainShortens(tasks, dep, d - 1);
    }
  }

  lemma {:induction false} ChainOfAnyLength(tasks: seq<Task>, name: string, d: nat, e: nat)
    requires d <= e && HasChain(tasks, name, e)
    ensures HasChain(tasks, name, d)
    decreases e - d
  {
    if d < e {
      ChainOfAnyLength(tasks, name, d + 1, e);
      ChainShortens(tasks, name, d);
    }
  }

  /** A task has at most one depth. */
  lemma DepthIsUnique(tasks: seq<Task>, name: string, d: nat, e: nat)
    requires IsDepth(tasks, name, d) && IsDepth(tasks, name, e)
    ensures d == e
  {
    if d < e {
      ChainOfAnyLength(tasks, name, d + 1, e);
    } else if e < d {
      ChainOfAnyLength(tasks, name, e + 1, d);
    }
  }

  /** After r layers, done are the tasks without a chain of r dependencies. */
  ghost predicate DoneAtRound(tasks: seq<Task>, done: set<string>, r: nat) {
    forall t :: t in tasks ==> (t.name in done <==> !HasChain(tasks, t.name, r))
  }

  lemma NextRound(tasks: seq<Task>, done: set<string>, r: nat)
    requires ValidGraph(tasks) && DoneAtRound(tasks, done, r)
    ensures DoneAtRound(tasks, done + Names(Layer(tasks, done)), r + 1)
    ensures forall t :: t in Layer(tasks, done) ==> IsDepth(tasks, t.name, r)
  {
    var layer := Layer(tasks, done);
    forall t | t in tasks
      ensures t.name in done + Names(layer) <==> !HasChain(tasks, t.name, r + 1)
      ensures t in layer ==> IsDepth(tasks, t.name, r)
    {
      LayerMembers(tasks, done, t);
      if t.name in done {
        if HasChain(tasks, t.name, r + 1) {
          ChainShortens(tasks, t.name, r);
        }
      } else if t in layer {
        NameOfMember(layer, t);
        FreeTaskHasNoChain(tasks, done, r, t);
      } else {
        var dep :| dep in t.dependsOn && dep !in done;
        assert dep in Names(tasks);
        var i :| 0 <= i < |tasks| && tasks[i].name == dep;
        assert HasChain(tasks, tasks[i].name, r);
        NotInLayer(tasks, done, t);
      }
    }
    forall t | t in layer ensures IsDepth(tasks, t.name, r) {
      LayerMembers(tasks, done, t);
    }
  }

  lemma NotInLayer(tasks: seq<Task>, done: set<string>, t: Task)
    requires NamesDiffer(tasks) && t in tasks && t !in Layer(tasks, done)
    ensures t.name !in Names(Layer(tasks, done))
  {
    var layer := Layer(tasks, done);
    forall j | 0 <= j < |layer| ensures layer[j].name != t.name {
      LayerMembers(tasks, done, layer[j]);
      assert layer[j] in tasks;
      if layer[j].name == t.name {
        SameTask(tasks, layer[j], t);
      }
    }
  }

  lemma FreeTaskHasNoChain(tasks: seq<Task>, done: set<string>, r: nat, t: Task)
    requires ValidGraph(tasks) && DoneAtRound(tasks, done, r) && t in tasks && DependenciesIn(t, done)
    ensures !HasChain(tasks, t.name, r + 1)
  {
    forall dep | dep in t.dependsOn ensures !HasChain(tasks, dep, r) {
      assert dep in Names(tasks);
      var i :| 0 <= i < |tasks| && tasks[i].name == dep;
      assert tasks[i] in tasks;
    }
    if HasChain(tasks, t.name, r + 1) {
      var t', dep := LastLink(tasks, t.name, r);
      SameTask(tasks, t', t);
    }
  }

  /** Sorted by depth, then higher priority, then name. */
  ghost predicate SortedByDepth(tasks: seq<Task>, order: seq<Task>, depths: seq<nat>) {
    && |depths| == |order|
    && (forall i :: 0 <= i < |order| ==> IsDepth(tasks, order[i].name, depths[i]))
    && (forall i, j :: 0 <= i < j < |order| ==>
          depths[i] < depths[j] || (depths[i] == depths[j] && Precedes(order[i], order[j])))
  }

  lemma SortedRound(tasks: seq<Task>, done: set<string>, r: nat)
    requires ValidGraph(tasks) && DoneAtRound(tasks, done, r)
    ensures DoneAtRound(tasks, done + Names(Layer(tasks, done)), r + 1)
    ensures Sorted(Sort(Layer(tasks, done)))
    ensures forall t :: t in Sort(Layer(tasks, done)) ==> IsDepth(tasks, t.name, r)
  {
    NextRound(tasks, done, r);
    SortedLayer(tasks, done);
    forall t | t in Sort(Layer(tasks, done)) ensures IsDepth(tasks, t.name, r) {
      LayerMembers(tasks, done, t);
    }
  }

  lemma {:induction false} PlanIsSorted(tasks: seq<Task>, done: set<string>, r: nat) returns (depths: seq<nat>)
    requires ValidGraph(tasks) && DoneAtRound(tasks, done, r) && PlanFrom(tasks, done).Some?
    ensures SortedByDepth(tasks, PlanFrom(tasks, done).value, depths)
    ensures forall i :: 0 <= i < |depths| ==> depths[i] >= r
    decreases |Names(tasks) - done|
  {
    if Names(tasks) <= done {
      depths := [];
    } else {
      var layer := Sort(Layer(tasks, done));
      SortedRound(tasks, done, r);
      LayerProgress(tasks, done);
      var later := PlanIsSorted(tasks, done + Names(Layer(tasks, done)), r + 1);
      depths := LayerBeforeRest(tasks, layer, PlanFrom(tasks, done + Names(Layer(tasks, done))).value, r, later);
    }
  }

  lemma LayerBeforeRest(tasks: seq<Task>, layer: seq<Task>, rest: seq<Task>, r: nat, later: seq<nat>)
    returns (depths: seq<nat>)
    requires Sorted(layer) && forall t :: t in layer ==> IsDepth(tasks, t.name, r)
    requires SortedByDepth(tasks, rest, later) && forall i :: 0 <= i < |later| ==> later[i] >= r + 1
    ensures SortedByDepth(tasks, layer + rest, depths)
    ensures forall i :: 0 <= i < |depths| ==> depths[i] >= r
  {
    var here: seq<nat> := seq(|layer|, i => r);
    depths := here + later;
    var order := layer + rest;
    forall i | 0 <= i < |order| ensures IsDepth(tasks, order[i].name, depths[i]) {
      assert i < |layer| ==> layer[i] in layer;
    }
    forall i, j | 0 <= i < j < |order|
      ensures depths[i] < depths[j] || (depths[i] == depths[j] && Precedes(order[i], order[j]))
    {
      if i >= |layer| {
        assert later[i - |layer|] < later[j - |layer|]
            || (later[i - |layer|] == later[j - |layer|] && Precedes(rest[i - |layer|], rest[j - |layer|]));
      } else if j < |layer| {
        assert Precedes(layer[i], layer[j]);
      }
    }
  }

  /**
   plan returns exactly the tasks, sorted by the length of their longest dependency chain, then
   descending priority, then name.
   */
  lemma PlanIsTheSortedTasks(tasks: seq<Task>) returns (depths: seq<nat>)
    requires ValidGraph(tasks) && PlanFrom(tasks, {}).Some?
    ensures var order := PlanFrom(tasks, {}).value;
            && SortedByDepth(tasks, order, depths)
            && (forall i, j :: 0 <= i < j < |order| && depths[i] == depths[j] ==>
                  && order[i].priority >= order[j].priority
                  && (order[i].priority == order[j].priority ==> Alphabetical(order[i].name, order[j].name)))
            && NamesDiffer(order) && forall t :: t in order <==> t in tasks
  {
    PlanIsTopological(tasks, {});
    depths := PlanIsSorted(tasks, {}, 0);
  }

  /** The plan depends on which tasks there are, not on the order they are declared in. */
  lemma {:induction false} DeclarationOrderIsIrrelevant(a: seq<Task>, b: seq<Task>, done: set<string>)
    requires NamesDiffer(a) && NamesDiffer(b) && forall t :: t in a <==> t in b
    ensures PlanFrom(a, done) == PlanFrom(b, done)
    decreases |Names(a) - done|
  {
    SameNames(a, b);
    if !(Names(a) <= done) {
      LayersAgree(a, b, done);
      if Layer(a, done) != [] {
        LayerProgress(a, done);
        DeclarationOrderIsIrrelevant(a, b, done + Names(Layer(a, done)));
      }
    }
  }

  lemma LayersAgree(a: seq<Task>, b: seq<Task>, done: set<string>)
    requires NamesDiffer(a) && NamesDiffer(b) && forall t :: t in a <==> t in b
    ensures Sort(Layer(a, done)) == Sort(Layer(b, done)) && Names(Layer(a, done)) == Names(Layer(b, done))
    ensures Layer(a, done) == [] <==> Layer(b, done) == []
  {
    SortedLayer(a, done);
    SortedLayer(b, done);
    OrderedListsAreEqual(Sort(Layer(a, done)), Sort(Layer(b, done)));
    SortLength(Layer(a, done));
    SortLength(Layer(b, done));
  }

  lemma {:induction false} SortLength(tasks: seq<Task>)
    ensures |Sort(tasks)| == |tasks|
  {
    if tasks != [] {
      SortLength(tasks[1..]);
      InsertMembers(tasks[0], Sort(tasks[1..]), tasks[0]);
    }
  }
}
