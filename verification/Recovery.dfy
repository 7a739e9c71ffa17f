/**
 Cursors and reruns: a stored cursor never goes stale, what would happen were done and cursor two
 commits, which unit keys get in each other's way, and what reruns and requeues do.
 */
module Recovery {
  import opened Rows
  import opened StateStore
  import opened Sinks
  import opened Protocol
  import opened Runs
  import opened CrashEquivalence

  // ------------------------------------------------------------- Cursor frontier

  /**
   In cursor and link mode the stored cursor always names a page that is not done, every page
   before it is done or quarantined, and a finished traversal yields no unit.
   */
  lemma CursorFrontier(p: Plan, labels: seq<Label>)
    requires ValidPlan(p) && p.resumes && NoRequeue(labels) && Exec(p, Init(p), labels).Some?
    ensures var w := Exec(p, Init(p), labels).value;
            && w.frontier <= p.last + 1
            && (w.frontier <= p.last ==> !PageDone(p, w, w.frontier))
            && (forall k: nat :: k < w.frontier ==> Settled(p, w, k))
            && (w.frontier == p.last + 1 && !Alive(w.proc) ==>
                  Next(p, w, Start) == Some(w.(recorded := false, proc := Completed)))
  {
    InitInv(p);
    InvExec(p, Init(p), labels);
  }

  /** The skip branch is never taken in cursor or link mode, not even after a requeue. */
  lemma ResumeNeverSkips(p: Plan, labels: seq<Label>)
    requires ValidPlan(p) && p.resumes && Exec(p, Init(p), labels).Some?
    ensures Next(p, Exec(p, Init(p), labels).value, Skip).None?
  {
    InitInv(p);
    LiveExec(p, Init(p), labels);
    var w := Exec(p, Init(p), labels).value;
    if w.proc.Registered? {
      assert InRange(p, w.proc.page) && !PageDone(p, w, w.proc.page);
    }
  }

  // ------------------------------------------- Contrast: done and cursor in two commits

  /** `half` holds between the two commits. */
  datatype SplitWorld = SplitWorld(w: World, half: bool)

  datatype SplitLabel = Whole(l: Label) | MarkDoneAlone | SetCursorAlone

  function SplitNext(p: Plan, s: SplitWorld, l: SplitLabel): Option<SplitWorld> {
    match l
    case Whole(Commit) => None
    case Whole(Crash) => if s.w.proc.Down? then None else Some(SplitWorld(s.w.(proc := Down), false))
    case Whole(l') =>
      if s.half then None
      else
        var next := Next(p, s.w, l');
        if next.None? then None else Some(SplitWorld(next.value, false))
    case MarkDoneAlone =>
      if s.half || !s.w.proc.Written? then None
      else
        var k := s.w.proc.page;
        Some(SplitWorld(s.w.(units := SetDone(s.w.units, p.unitAt(k), |p.rowsAt(k)|)), true))
    case SetCursorAlone =>
      if !s.half || !s.w.proc.Written? then None
      else
        var k := s.w.proc.page;
        Some(SplitWorld(s.w.(frontier := Advance(p, s.w.frontier, k), proc := After(p, k)), false))
  }

  function SplitExec(p: Plan, s: SplitWorld, labels: seq<SplitLabel>): Option<SplitWorld>
    decreases |labels|
  {
    if labels == [] then Some(s)
    else
      match SplitNext(p, s, labels[0])
      case None => None
      case Some(s') => SplitExec(p, s', labels[1..])
  }

  /** Page `k` is done but the cursor has not passed it: nothing ever fetches past it again. */
  ghost predicate Stuck(p: Plan, s: SplitWorld, k: nat) {
    && !s.half && s.w.frontier <= k <= p.last && PageDone(p, s.w, k)
    && (forall j: nat :: s.w.frontier <= j < k ==> VerdictAt(p, j) != Accept)
    && !s.w.proc.Completed?
    && (Alive(s.w.proc) ==> s.w.frontier <= s.w.proc.page <= k)
    && (Alive(s.w.proc) && s.w.proc.page == k ==> s.w.proc.At? || s.w.proc.Registered?)
    && !s.w.proc.Written?
  }

  lemma {:induction false} StuckForever(p: Plan, s: SplitWorld, k: nat, labels: seq<SplitLabel>)
    requires ValidPlan(p) && p.resumes && Stuck(p, s, k) && SplitExec(p, s, labels).Some?
    requires forall i :: 0 <= i < |labels| ==> labels[i].Whole? ==> !labels[i].l.Requeue?
    ensures Stuck(p, SplitExec(p, s, labels).value, k)
    decreases |labels|
  {
    if labels != [] {
      var l := labels[0];
      assert l.Whole? ==> !l.l.Requeue?;
      if l.Whole? && !l.l.Crash? && !l.l.Commit? {
        assert Alive(s.w.proc) && s.w.proc.page != k ==>
            p.unitAt(s.w.proc.page) != p.unitAt(k) && VerdictAt(p, s.w.proc.page) != Accept;
      }
      StuckForever(p, SplitNext(p, s, l).value, k, labels[1..]);
    }
  }

  /**
   Had the two commits stayed separate, a crash between them would leave a state from which no
   rerun ever returns: whatever steps, crashes and reruns follow, the traversal never completes.
   */
  lemma SplitCommitNeverEnds(p: Plan, labels: seq<Label>, rest: seq<SplitLabel>)
    requires ValidPlan(p) && p.resumes && NoRequeue(labels)
    requires Exec(p, Init(p), labels).Some? && Exec(p, Init(p), labels).value.proc.Written?
    requires forall i :: 0 <= i < |rest| ==> rest[i].Whole? ==> !rest[i].l.Requeue?
    ensures var w := Exec(p, Init(p), labels).value;
            var torn := SplitExec(p, SplitWorld(w, false), [MarkDoneAlone, Whole(Crash)]);
            && torn.Some?
            && (SplitExec(p, torn.value, rest).Some? ==> !SplitExec(p, torn.value, rest).value.w.proc.Completed?)
  {
    var w := Exec(p, Init(p), labels).value;
    var k := w.proc.page;
    InitInv(p);
    InvExec(p, Init(p), labels);
    PendingPageIsAhead(p, w);
    var s1 := SplitNext(p, SplitWorld(w, false), MarkDoneAlone).value;
    var s2 := SplitNext(p, s1, Whole(Crash)).value;
    var two := [MarkDoneAlone, Whole(Crash)];
    assert two[1..] == [Whole(Crash)] && two[1..][1..] == [];
    assert SplitExec(p, SplitWorld(w, false), two) == Some(s2);
    assert Stuck(p, s2, k);
    if SplitExec(p, s2, rest).Some? {
      StuckForever(p, s2, k, rest);
    }
  }

  // ---------------------------------------------------------- Unit keys must differ

  /** Page `j` shares its unit with an earlier page that is accepted. */
  ghost predicate Eclipsed(p: Plan, i: nat, j: nat) {
    i < j <= p.last && p.unitAt(i) == p.unitAt(j) && VerdictAt(p, i) == Accept
  }

  ghost predicate BeforeCollision(p: Plan, w: World, i: nat, j: nat) {
    && w.frontier <= j && !w.proc.Completed?
    && (w.frontier > i ==> IsDone(w.units, p.unitAt(i)))
    && (Alive(w.proc) ==> w.frontier <= w.proc.page <= j)
    && (Alive(w.proc) && w.proc.page > i ==> IsDone(w.units, p.unitAt(i)))
    && (Alive(w.proc) && !w.proc.At? ==> p.unitAt(w.proc.page) in w.units)
    && (w.proc.Running? || w.proc.Fetched? || w.proc.Written? ==>
          w.proc.page < j && !IsDone(w.units, p.unitAt(w.proc.page)))
  }

  lemma CollisionStep(p: Plan, w: World, l: Label, i: nat, j: nat)
    requires p.resumes && Eclipsed(p, i, j) && BeforeCollision(p, w, i, j) && !l.Requeue? && Next(p, w, l).Some?
    ensures BeforeCollision(p, Next(p, w, l).value, i, j)
  {
  }

  lemma {:induction false} CollisionNeverCompletes(p: Plan, w: World, labels: seq<Label>, i: nat, j: nat)
    requires p.resumes && Eclipsed(p, i, j)
    requires BeforeCollision(p, w, i, j) && NoRequeue(labels) && Exec(p, w, labels).Some?
    ensures BeforeCollision(p, Exec(p, w, labels).value, i, j)
    decreases |labels|
  {
    if labels != [] {
      CollisionStep(p, w, labels[0], i, j);
      CollisionNeverCompletes(p, Next(p, w, labels[0]).value, labels[1..], i, j);
    }
  }

  ghost predicate BeforeRefusal(p: Plan, w: World, k: nat) {
    && w.frontier <= k && !w.proc.Completed?
    && (Alive(w.proc) ==> w.proc.page <= k)
    && (w.proc.Written? ==> w.proc.page < k)
  }

  lemma RefusalStep(p: Plan, w: World, l: Label, k: nat)
    requires p.resumes && k <= p.last && Refused(p, k) && BeforeRefusal(p, w, k) && Next(p, w, l).Some?
    ensures BeforeRefusal(p, Next(p, w, l).value, k)
  {
  }

  /** No schedule gets past a page that a gate blocks or the database rejects. */
  lemma {:induction false} RefusalNeverPassed(p: Plan, w: World, labels: seq<Label>, k: nat)
    requires p.resumes && k <= p.last && Refused(p, k) && BeforeRefusal(p, w, k) && Exec(p, w, labels).Some?
    ensures BeforeRefusal(p, Exec(p, w, labels).value, k)
    decreases |labels|
  {
    if labels != [] {
      RefusalStep(p, w, labels[0], k);
      RefusalNeverPassed(p, Next(p, w, labels[0]).value, labels[1..], k);
    }
  }

  /** What a run that meets no fault keeps: the pages still to come are not done. */
  ghost predicate Untouched(p: Plan, w: World) {
    && Alive(w.proc) && w.proc.page <= p.last
    && (forall j: nat :: w.proc.page <= j <= p.last ==> !IsDone(w.units, p.unitAt(j)))
    && (!w.proc.At? ==> p.unitAt(w.proc.page) in w.units)
    && (w.proc.Written? ==> VerdictAt(p, w.proc.page) == Accept)
    && (w.recorded || w.snapshot.None?)
  }

  ghost predicate NoneEclipsed(p: Plan) {
    forall i: nat, j: nat :: !Eclipsed(p, i, j)
  }

  lemma UntouchedStep(p: Plan, w: World)
    requires p.resumes && ValidPages(p) && NothingRefused(p) && NoneEclipsed(p) && Untouched(p, w)
    ensures var w' := Next(p, w, FaultFreeLabel(p, w));
            && w'.Some? && (w'.value.proc.Completed? || Untouched(p, w'.value))
            && (w'.value.proc.Completed? ==> w.proc.page == p.last && (w.proc.Fetched? || w.proc.Written?))
            && (Alive(w'.value.proc) ==>
                  Undecided(w'.value.proc) == Undecided(w.proc) + (if FaultFreeLabel(p, w).Fetch? then 1 else 0))
  {
    var k := w.proc.page;
    CanWrite(p, k);
    forall j: nat | k < j <= p.last ensures VerdictAt(p, k) == Accept ==> p.unitAt(j) != p.unitAt(k) {
      assert !Eclipsed(p, k, j);
    }
  }

  function StepsLeft(p: Plan, proc: Proc): nat
    requires Alive(proc) && proc.page <= p.last
  {
    5 * (p.last + 1) - Position(proc)
  }

  /** A run that meets no fault fetches every page and returns, also when some units coincide. */
  lemma {:induction false} CleanRun(p: Plan, w: World) returns (labels: seq<Label>)
    requires p.resumes && ValidPages(p) && NothingRefused(p) && NoneEclipsed(p) && Untouched(p, w)
    ensures NoRequeue(labels) && Exec(p, w, labels).Some? && Exec(p, w, labels).value.proc.Completed?
    ensures forall j: nat :: Undecided(w.proc) <= j <= p.last ==> j in PagesAt(p, w, labels, Fetches)
    decreases StepsLeft(p, w.proc)
  {
    var l := FaultFreeLabel(p, w);
    UntouchedStep(p, w);
    var w' := Next(p, w, l).value;
    var rest: seq<Label> := [];
    if Alive(w'.proc) {
      rest := CleanRun(p, w');
    }
    labels := [l] + rest;
    assert labels[1..] == rest;
  }

  ghost predicate FetchesAll(p: Plan, labels: seq<Label>) {
    forall j: nat :: j <= p.last ==> j in PagesAt(p, Init(p), labels, Fetches)
  }

  /**
   In cursor and link mode some schedule returns exactly when no page is refused and none has the
   unit of an earlier accepted page. Pages set aside do no harm, whatever unit they have.
   */
  lemma ReturnsIffKeysDiffer(p: Plan)
    requires p.resumes && ValidPages(p)
    ensures CanReturn(p) <==> NothingRefused(p) && NoneEclipsed(p)
    ensures CanReturn(p) ==> exists labels :: Returns(p, labels) && FetchesAll(p, labels)
  {
    if !NothingRefused(p) {
      var k: nat :| k <= p.last && Refused(p, k);
      forall labels | Returns(p, labels) ensures false {
        RefusalNeverPassed(p, Init(p), labels, k);
      }
    } else if i: nat, j: nat :| Eclipsed(p, i, j) {
      forall labels | Returns(p, labels) ensures false {
        CollisionNeverCompletes(p, Init(p), labels, i, j);
      }
    } else {
      var w := Next(p, Init(p), Start).value;
      var rest := CleanRun(p, w);
      var labels := [Start] + rest;
      assert labels[1..] == rest;
      assert Returns(p, labels);
      assert PagesAt(p, Init(p), labels, Fetches) == {} + PagesAt(p, w, rest, Fetches);
    }
  }

  // ------------------------------------------------------------------ Reruns and requeues

  /**
   A requeued page is collected again by the next run that returns exactly when the position is not
   persisted or the page is at or past the cursor: behind the cursor a requeue has no effect.
   */
  lemma RequeuedPageIsFetchedIff(p: Plan, labels: seq<Label>, k: nat, run: seq<Label>)
    requires ValidPlan(p) && k <= p.last && Exec(p, Init(p), labels + [Requeue(p.unitAt(k)), Start]).Some?
    requires RunsToEnd(p, Exec(p, Init(p), labels + [Requeue(p.unitAt(k)), Start]).value, run)
    ensures var w := Exec(p, Init(p), labels + [Requeue(p.unitAt(k)), Start]).value;
            k in PagesAt(p, w, run, Fetches) <==> !p.resumes || w.frontier <= k
  {
    var w := Exec(p, Init(p), labels + [Requeue(p.unitAt(k)), Start]).value;
    RequeueAndStart(p, labels, k);
    if Alive(w.proc) {
      var stop := RunFetches(p, w, run);
    } else if run != [] {
      NothingAfterReturn(p, w, run);
    }
  }

  /** A new run after a requeue finds the page not done. */
  lemma RequeueAndStart(p: Plan, labels: seq<Label>, k: nat)
    requires ValidPlan(p) && Exec(p, Init(p), labels + [Requeue(p.unitAt(k)), Start]).Some?
    ensures var w := Exec(p, Init(p), labels + [Requeue(p.unitAt(k)), Start]).value;
            LiveInv(p, w) && !PageDone(p, w, k) && w.proc == FirstProc(p, w.frontier)
  {
    var tail := [Requeue(p.unitAt(k)), Start];
    InitInv(p);
    ExecPrefix(p, Init(p), labels, tail);
    var w0 := Exec(p, Init(p), labels).value;
    ExecAppend(p, Init(p), labels, tail);
    LiveExec(p, Init(p), labels);
    var w1 := Next(p, w0, tail[0]).value;
    assert tail[1..] == [Start] && tail[1..][1..] == [];
    assert Exec(p, w1, [Start]) == Next(p, w1, Start);
    assert Exec(p, w0, tail) == Next(p, w1, Start);
    LiveStep(p, w0, tail[0]);
    LiveStep(p, w1, Start);
  }

  /** The state in which a new run starts after an operator requeued a page of a finished collection. */
  function Requeued(p: Plan, w: World, k: nat): World {
    Started(p, w.(units := RequeueUnit(w.units, p.unitAt(k))))
  }

  lemma RequeuedIsReached(p: Plan, w: World, k: nat)
    requires ValidPlan(p) && LiveInv(p, w) && w.proc.Completed?
    ensures Next(p, w, Requeue(p.unitAt(k))).Some?
    ensures Next(p, Next(p, w, Requeue(p.unitAt(k))).value, Start) == Some(Requeued(p, w, k))
    ensures LiveInv(p, Requeued(p, w, k))
  {
    LiveStep(p, w, Requeue(p.unitAt(k)));
    LiveStep(p, Next(p, w, Requeue(p.unitAt(k))).value, Start);
  }

  lemma {:induction false} AllTheSame(log: seq<nat>, k: nat)
    requires forall j :: j in log ==> j == k
    ensures log == Repeat(k, |log|)
  {
    forall i | 0 <= i < |log| ensures log[i] == k {
      assert log[i] in log;
    }
  }

  /**
   Offset and page mode: after a requeue of a written page the next run that returns writes that page
   again, after all others, and writes nothing else.
   */
  lemma RequeueWritesAgain(p: Plan, labels: seq<Label>, k: nat, run: seq<Label>) returns (times: nat)
    requires ValidPlan(p) && !p.resumes && Returns(p, labels) && Writes(p, k)
    requires RunsToEnd(p, Requeued(p, Exec(p, Init(p), labels).value, k), run)
    ensures var w := Exec(p, Init(p), labels).value;
            && times >= 1
            && Exec(p, Requeued(p, w, k), run).value.sink == Land(p.backend, w.sink, p.unitAt(k), p.rowsAt(k), times)
  {
    var w := Exec(p, Init(p), labels).value;
    SinkIsIdealIff(p, labels);
    InitInv(p);
    InvExec(p, Init(p), labels);
    RequeuedIsReached(p, w, k);
    RequeuedPageIsWritten(p, w, k, run);
    var tail := LogAppends(p, Requeued(p, w, k), run);
    AllTheSame(tail, k);
    assert k in tail;
    times := |tail|;
    ReplayExec(p, Requeued(p, w, k), run);
    ReplayRepeat(p, w.log, k, times);
  }

  lemma RequeuedPageIsWritten(p: Plan, w: World, k: nat, run: seq<Label>)
    requires ValidPlan(p) && !p.resumes && Collected(p, w) && LiveInv(p, Requeued(p, w, k)) && Writes(p, k)
    requires RunsToEnd(p, Requeued(p, w, k), run)
    ensures forall j: nat :: j in PagesAt(p, Requeued(p, w, k), run, Writings) <==> j == k
  {
    var w2 := Requeued(p, w, k);
    var stop := RunFetches(p, w2, run);
    FetchedPagesAreWritten(p, w2, run);
    forall j: nat ensures j in PagesAt(p, w2, run, Writings) <==> j == k {
      if Writes(p, j) {
        OnlyRequeuedIsOpen(p, w, k, j);
      }
    }
  }

  lemma OnlyRequeuedIsOpen(p: Plan, w: World, k: nat, j: nat)
    requires ValidPlan(p) && !p.resumes && Collected(p, w) && Writes(p, k) && Writes(p, j)
    ensures j <= p.last && (PageDone(p, Requeued(p, w, k), j) <==> j != k)
  {
    assert InRange(p, j) && InRange(p, k) && k <= p.last;
    assert PageDone(p, w, j);
  }

  lemma {:induction false} ExecPrefix(p: Plan, w: World, a: seq<Label>, b: seq<Label>)
    requires Exec(p, w, a + b).Some?
    ensures Exec(p, w, a).Some?
    decreases |a|
  {
    if a != [] {
      assert (a + b)[1..] == a[1..] + b;
      ExecPrefix(p, Next(p, w, a[0]).value, a[1..], b);
    }
  }

  /** In offset and page mode a rerun after a full collection fetches one empty page and writes none. */
  lemma RerunFetchesOnePage(p: Plan, labels: seq<Label>, run: seq<Label>)
    requires ValidPlan(p) && !p.resumes && Returns(p, labels)
    requires forall k: nat :: VerdictAt(p, k) == Accept
    requires RunsToEnd(p, Started(p, Exec(p, Init(p), labels).value), run)
    ensures var w := Exec(p, Init(p), labels).value;
            && PagesAt(p, Started(p, w), run, Fetches) == {w.frontier}
            && p.rowsAt(w.frontier) == []
            && Tally(run).fetched == 1 && Tally(run).written == 0 && Tally(run).skipped == w.frontier
  {
    InitInv(p);
    InvExec(p, Init(p), labels);
    RerunAfter(p, Exec(p, Init(p), labels).value, run);
  }

  lemma RerunAfter(p: Plan, w: World, run: seq<Label>)
    requires ValidPlan(p) && !p.resumes && Inv(p, w) && w.proc.Completed? && RunsToEnd(p, Started(p, w), run)
    requires forall k: nat :: VerdictAt(p, k) == Accept
    ensures PagesAt(p, Started(p, w), run, Fetches) == {w.frontier} && p.rowsAt(w.frontier) == []
    ensures Tally(run).fetched == 1 && Tally(run).written == 0 && Tally(run).skipped == w.frontier
  {
    var w' := Started(p, w);
    CompletedIsCollected(p, w);
    LiveStep(p, w, Start);
    var stop := RunFetches(p, w', run);
    RerunStopsAtFrontier(p, w', stop);
    FetchedPagesAreWritten(p, w', run);
    CountsArePages(p, w', run, Fetches);
    CountsArePages(p, w', run, Skips);
    CountsArePages(p, w', run, Writings);
  }

  lemma RerunStopsAtFrontier(p: Plan, w: World, stop: nat)
    requires LiveInv(p, w) && StatusInv(p, w) && !p.resumes && (forall k: nat :: VerdictAt(p, k) == Accept)
    requires PageDone(p, w, p.last) && StopsAt(p, w, 0, stop)
    ensures stop == w.frontier > p.last
    ensures NotDoneIn(p, w, 0, stop) == {w.frontier} && DoneIn(p, w, 0, stop) == Below(w.frontier)
  {
    assert InRange(p, p.last) && InRange(p, stop);
    forall k: nat | k < w.frontier ensures PageDone(p, w, k) {
      assert InRange(p, k);
    }
    assert !PageDone(p, w, w.frontier) by { assert InRange(p, w.frontier); }
  }

  function Below(n: nat): (s: set<nat>)
    ensures |s| == n && forall k: nat :: k in s <==> k < n
  {
    if n == 0 then {} else Below(n - 1) + {n - 1}
  }
}
