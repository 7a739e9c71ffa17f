/** The workflow scheduler: layered topological planning and execution up to a fixpoint. */
module Workflow {
  import opened Rows

  /** Inclusive start, exclusive end. */
  datatype Window = Window(start: int, end: int)

  datatype Task = Task(
    name: string, dependsOn: seq<string>, priority: int, signals: seq<string>, window: Option<Window>)

  /** Names are unique and every dependency is declared. */
  ghost predicate ValidGraph(tasks: seq<Task>) {
    && (forall i, j :: 0 <= i < j < |tasks| ==> tasks[i].name != tasks[j].name)
    && (forall t, dep :: t in tasks && dep in t.dependsOn ==> dep in Names(tasks))
  }

  function Names(tasks: seq<Task>): (names: set<string>)
    ensures forall n :: n in names <==> exists i :: 0 <= i < |tasks| && tasks[i].name == n
  {
    set i | 0 <= i < |tasks| :: tasks[i].name
  }

  // ------------------------------------------------------------------ Order

  /** Strings by code point. */
  predicate StringLess(a: string, b: string) {
    if b == [] then false
    else if a == [] then true
    else a[0] < b[0] || (a[0] == b[0] && StringLess(a[1..], b[1..]))
  }

  lemma {:induction false} StringLessTotal(a: string, b: string)
    ensures a != b ==> (StringLess(a, b) <==> !StringLess(b, a))
    ensures !StringLess(a, a)
  {
    if a != [] {
      StringLessTotal(a[1..], if b == [] then [] else b[1..]);
      if b != [] && a[0] == b[0] && a[1..] == b[1..] {
        assert a == [a[0]] + a[1..] && b == [b[0]] + b[1..];
      }
    }
  }

  lemma {:induction false} StringLessTransitive(a: string, b: string, c: string)
    requires StringLess(a, b) && StringLess(b, c)
    ensures StringLess(a, c)
  {
    if a != [] && a[0] == b[0] == c[0] {
      StringLessTransitive(a[1..], b[1..], c[1..]);
    }
  }

  /** Higher priority first, then by name. */
  predicate Before(a: Task, b: Task) {
    a.priority > b.priority || (a.priority == b.priority && StringLess(a.name, b.name))
  }

  /** Where two texts first differ the one with the smaller character comes first, or the one that ends there. */
  ghost predicate Alphabetical(a: string, b: string) {
    exists k :: 0 <= k <= |a| && k < |b| && a[..k] == b[..k] && (k == |a| || a[k] < b[k])
  }

  /** One character less on both sides, */
  lemma AlphabeticalTail(a: string, b: string)
    requires a != [] && b != [] && a[0] == b[0] && Alphabetical(a, b)
    ensures Alphabetical(a[1..], b[1..])
  {
    var k :| 0 <= k <= |a| && k < |b| && a[..k] == b[..k] && (k == |a| || a[k] < b[k]);
    assert a[1..][..k - 1] == a[..k][1..] && b[1..][..k - 1] == b[..k][1..];
  }

  /** and one character more. */
  lemma AlphabeticalCons(a: string, b: string)
    requires a != [] && b != [] && a[0] == b[0] && Alphabetical(a[1..], b[1..])
    ensures Alphabetical(a, b)
  {
    var x, y := a[1..], b[1..];
    var k :| 0 <= k <= |x| && k < |y| && x[..k] == y[..k] && (k == |x| || x[k] < y[k]);
    assert a[..k + 1] == [a[0]] + x[..k] && b[..k + 1] == [b[0]] + y[..k];
  }

  lemma {:induction false} StringLessIff(a: string, b: string)
    ensures StringLess(a, b) <==> Alphabetical(a, b)
  {
    if a != [] && b != [] && a[0] == b[0] {
      StringLessIff(a[1..], b[1..]);
      if Alphabetical(a, b) {
        AlphabeticalTail(a, b);
      } else if Alphabetical(a[1..], b[1..]) {
        AlphabeticalCons(a, b);
      }
    } else if b != [] && StringLess(a, b) {
      assert a[..0] == b[..0];
    }
  }

  /** The higher priority first, and of equal priorities the name that is first in the alphabet. */
  ghost predicate Precedes(a: Task, b: Task) {
    a.priority >= b.priority && (a.priority == b.priority ==> Alphabetical(a.name, b.name))
  }

  lemma BeforeIff(a: Task, b: Task)
    ensures Before(a, b) <==> Precedes(a, b)
  {
    StringLessIff(a.name, b.name);
  }

  /** Every task precedes all that come after it. */
  ghost predicate Sorted(tasks: seq<Task>) {
    forall i, j :: 0 <= i < j < |tasks| ==> Precedes(tasks[i], tasks[j])
  }

  lemma InOrderIff(tasks: seq<Task>)
    ensures InOrder(tasks) <==> Sorted(tasks)
  {
    forall i, j | 0 <= i < j < |tasks| ensures Before(tasks[i], tasks[j]) <==> Precedes(tasks[i], tasks[j]) {
      BeforeIff(tasks[i], tasks[j]);
    }
  }

  ghost predicate InOrder(tasks: seq<Task>) {
    forall i, j :: 0 <= i < j < |tasks| ==> Before(tasks[i], tasks[j])
  }

  function Insert(t: Task, tasks: seq<Task>): seq<Task> {
    if tasks == [] || Before(t, tasks[0]) then [t] + tasks
    else [tasks[0]] + Insert(t, tasks[1..])
  }

  /** sorted(..., key=(-priority, name)). */
  function Sort(tasks: seq<Task>): seq<Task> {
    if tasks == [] then [] else Insert(tasks[0], Sort(tasks[1..]))
  }

  ghost predicate NamesDiffer(tasks: seq<Task>) {
    forall i, j :: 0 <= i < j < |tasks| ==> tasks[i].name != tasks[j].name
  }

  lemma BeforeTotal(a: Task, b: Task)
    ensures a.name != b.name ==> (Before(a, b) <==> !Before(b, a))
    ensures !Before(a, a)
  {
    StringLessTotal(a.name, b.name);
  }

  lemma BeforeTransitive(a: Task, b: Task, c: Task)
    requires Before(a, b) && Before(b, c)
    ensures Before(a, c)
  {
    if a.priority == b.priority == c.priority {
      StringLessTransitive(a.name, b.name, c.name);
    }
  }

  lemma {:induction false} InsertMembers(t: Task, tasks: seq<Task>, x: Task)
    ensures x in Insert(t, tasks) <==> x == t || x in tasks
    ensures |Insert(t, tasks)| == |tasks| + 1
  {
    if tasks != [] && !Before(t, tasks[0]) {
      InsertMembers(t, tasks[1..], x);
    }
  }

  lemma ConsInOrder(t: Task, tasks: seq<Task>)
    requires InOrder(tasks) && forall x :: x in tasks ==> Before(t, x)
    ensures InOrder([t] + tasks)
  {
    var all := [t] + tasks;
    forall i, j | 0 <= i < j < |all| ensures Before(all[i], all[j]) {
      assert all[j] == tasks[j - 1] && tasks[j - 1] in tasks;
      assert i > 0 ==> all[i] == tasks[i - 1];
    }
  }

  lemma {:induction false} InsertInOrder(t: Task, tasks: seq<Task>)
    requires InOrder(tasks) && forall x :: x in tasks ==> x.name != t.name
    ensures InOrder(Insert(t, tasks))
  {
    if tasks == [] || Before(t, tasks[0]) {
      forall x | x in tasks ensures Before(t, x) {
        var i :| 0 <= i < |tasks| && tasks[i] == x;
        if i > 0 {
          BeforeTransitive(t, tasks[0], x);
        }
      }
      ConsInOrder(t, tasks);
    } else {
      assert forall i, j :: 0 <= i < j < |tasks[1..]| ==> Before(tasks[1..][i], tasks[1..][j]);
      InsertInOrder(t, tasks[1..]);
      BeforeTotal(t, tasks[0]);
      forall x | x in Insert(t, tasks[1..]) ensures Before(tasks[0], x) {
        InsertMembers(t, tasks[1..], x);
        if x != t {
          var i :| 0 <= i < |tasks[1..]| && tasks[1..][i] == x;
          assert Before(tasks[0], tasks[i + 1]);
        }
      }
      ConsInOrder(tasks[0], Insert(t, tasks[1..]));
    }
  }

  /** Sorting keeps the tasks and puts them in strict order. */
  lemma {:induction false} SortSorts(tasks: seq<Task>)
    requires NamesDiffer(tasks)
    ensures InOrder(Sort(tasks)) && Sorted(Sort(tasks)) && |Sort(tasks)| == |tasks|
    ensures forall x :: x in Sort(tasks) <==> x in tasks
  {
    if tasks != [] {
      var rest := tasks[1..];
      assert forall i :: 0 <= i < |rest| ==> rest[i] == tasks[i + 1];
      SortSorts(rest);
      forall x | x in Sort(rest) ensures x.name != tasks[0].name {
        var i :| 0 <= i < |rest| && rest[i] == x;
      }
      InsertInOrder(tasks[0], Sort(rest));
      forall x ensures x in Sort(tasks) <==> x in tasks {
        InsertMembers(tasks[0], Sort(rest), x);
      }
      InsertMembers(tasks[0], Sort(rest), tasks[0]);
    }
    InOrderIff(Sort(tasks));
  }

  /** Two strictly ordered lists with the same members are the same list. */
  lemma {:induction false} OrderedListsAreEqual(a: seq<Task>, b: seq<Task>)
    requires InOrder(a) && InOrder(b) && forall x :: x in a <==> x in b
    ensures a == b
  {
    if a == [] {
      FirstIsMember(b);
    } else {
      FirstIsMember(a);
      FirstIsMember(b);
      FirstIsLeast(a, b);
      FirstIsLeast(b, a);
      BeforeAsymmetric(a[0], b[0]);
      assert a[0] == b[0];
      forall x ensures x in a[1..] <==> x in b[1..] {
        RestMembers(a, x);
        RestMembers(b, x);
      }
      assert forall i, j :: 0 <= i < j < |a[1..]| ==> Before(a[1..][i], a[1..][j]);
      assert forall i, j :: 0 <= i < j < |b[1..]| ==> Before(b[1..][i], b[1..][j]);
      OrderedListsAreEqual(a[1..], b[1..]);
      assert a == [a[0]] + a[1..] && b == [b[0]] + b[1..];
    }
  }

  lemma FirstIsLeast(a: seq<Task>, b: seq<Task>)
    requires a != [] && b != [] && InOrder(a) && b[0] in a
    ensures a[0] == b[0] || Before(a[0], b[0])
  {
    var i :| 0 <= i < |a| && a[i] == b[0];
  }

  lemma BeforeAsymmetric(a: Task, b: Task)
    ensures !Before(a, b) || !Before(b, a)
  {
    StringLessTotal(a.name, b.name);
  }

  lemma RestMembers(a: seq<Task>, x: Task)
    requires a != [] && InOrder(a)
    ensures x in a[1..] <==> x in a && x != a[0]
  {
    if x in a[1..] {
      var i :| 0 <= i < |a[1..]| && a[1..][i] == x;
      assert Before(a[0], a[i + 1]);
      BeforeTotal(a[0], x);
    }
  }

  // ------------------------------------------------------------------ Planning

  predicate DependenciesIn(t: Task, done: set<string>) {
    forall dep :: dep in t.dependsOn ==> dep in done
  }

  /** The tasks not done whose dependencies all are. */
  function Layer(tasks: seq<Task>, done: set<string>): seq<Task> {
    if tasks == [] then []
    else
      (if tasks[0].name !in done && DependenciesIn(tasks[0], done) then [tasks[0]] else [])
      + Layer(tasks[1..], done)
  }

  lemma {:induction false} LayerMembers(tasks: seq<Task>, done: set<string>, t: Task)
    ensures t in Layer(tasks, done) <==> t in tasks && t.name !in done && DependenciesIn(t, done)
  {
    if tasks != [] {
      LayerMembers(tasks[1..], done, t);
    }
  }

  lemma {:induction false} LayerNamesDiffer(tasks: seq<Task>, done: set<string>)
    requires NamesDiffer(tasks)
    ensures NamesDiffer(Layer(tasks, done))
  {
    if tasks != [] {
      var rest := tasks[1..];
      assert forall i :: 0 <= i < |rest| ==> rest[i] == tasks[i + 1];
      LayerNamesDiffer(rest, done);
      forall i | 0 <= i < |Layer(rest, done)| ensures Layer(rest, done)[i].name != tasks[0].name {
        LayerMembers(rest, done, Layer(rest, done)[i]);
        assert Layer(rest, done)[i] in rest;
      }
    }
  }

  /** A nonempty layer brings at least one name that was not done. */
  lemma LayerProgress(tasks: seq<Task>, done: set<string>)
    requires Layer(tasks, done) != []
    ensures |Names(tasks) - (done + Names(Layer(tasks, done)))| < |Names(tasks) - done|
  {
    var t := Layer(tasks, done)[0];
    LayerMembers(tasks, done, t);
    var i :| 0 <= i < |tasks| && tasks[i] == t;
    assert t.name in Names(tasks) - done;
    assert t.name in Names(Layer(tasks, done));
    SmallerSet(Names(tasks) - (done + Names(Layer(tasks, done))), Names(tasks) - done, t.name);
  }

  lemma SmallerSet(a: set<string>, b: set<string>, x: string)
    requires a <= b && x in b && x !in a
    ensures |a| < |b|
  {
    var rest := b - {x};
    assert a <= rest && b == rest + {x};
    SubsetSize(a, rest);
  }

  lemma {:induction false} SubsetSize(a: set<string>, b: set<string>)
    requires a <= b
    ensures |a| <= |b|
  {
    assert b == a + (b - a);
  }

  /** Layer by layer; None when tasks remain and none of them is free. */
  function PlanFrom(tasks: seq<Task>, done: set<string>): Option<seq<Task>>
    decreases |Names(tasks) - done|
  {
    if Names(tasks) <= done then Some([])
    else
      var ready := Layer(tasks, done);
      if ready == [] then None
      else
        LayerProgress(tasks, done);
        var rest := PlanFrom(tasks, done + Names(ready));
        if rest.None? then None else Some(Sort(ready) + rest.value)
  }
}
