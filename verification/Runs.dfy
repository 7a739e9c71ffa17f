/**
 What one run of the collection loop does: it ends, it fetches exactly the pages that were not done,
 its report counts them, and the attempts stored count its failures.
 */
module Runs {
  import opened Rows
  import opened StateStore
  import opened Protocol

  ghost predicate NothingRefused(p: Plan) {
    forall k: nat :: k <= p.last ==> !Refused(p, k)
  }

  ghost predicate Returns(p: Plan, labels: seq<Label>) {
    NoRequeue(labels) && Exec(p, Init(p), labels).Some? && Exec(p, Init(p), labels).value.proc.Completed?
  }

  ghost predicate CanReturn(p: Plan) {
    exists labels :: Returns(p, labels)
  }

  // ------------------------------------------------------------------ Termination

  /** A bound on the steps one run still has in it. */
  function Rank(p: Plan, w: World): nat
    requires Alive(w.proc) ==> w.proc.page <= Max(p.last, w.frontier)
  {
    if w.proc.Down? then 0
    else if w.proc.Completed? then 1
    else
      var pagesLeft := Max(p.last, w.frontier) + 1 - w.proc.page;
      6 * pagesLeft + match w.proc
                      case At(_) => 6
                      case Registered(_) => 5
                      case Running(_) => 4
                      case Fetched(_) => 3
                      case Written(_) => 2
  }

  ghost predicate OneRun(labels: seq<Label>) {
    forall i :: 0 <= i < |labels| ==> !labels[i].Start? && !labels[i].Requeue?
  }

  /** The steps are one run from here on, and it returns. */
  ghost predicate RunsToEnd(p: Plan, w: World, labels: seq<Label>) {
    OneRun(labels) && Exec(p, w, labels).Some? && Exec(p, w, labels).value.proc.Completed?
  }

  /** A step in which nothing fails, no write needs a second attempt and no gate stops the run. */
  predicate Smooth(l: Label) {
    match l
    case Start => false
    case FetchFail(_) => false
    case Drift(_) => false
    case Refuse(_) => false
    case WriteFail(_) => false
    case Write(times) => times == 1
    case Crash => false
    case Requeue(_) => false
    case _ => true
  }

  ghost predicate FaultFree(labels: seq<Label>) {
    forall i :: 0 <= i < |labels| ==> Smooth(labels[i])
  }

  lemma RankStep(p: Plan, w: World, l: Label)
    requires ValidPlan(p) && LiveInv(p, w) && !l.Start? && !l.Requeue? && Next(p, w, l).Some?
    ensures LiveInv(p, Next(p, w, l).value)
    ensures Rank(p, Next(p, w, l).value) < Rank(p, w)
  {
    LiveStep(p, w, l);
    if w.proc.Registered? {
      assert PageDone(p, w, w.proc.page) ==> InRange(p, w.proc.page) && w.proc.page < w.frontier;
    }
  }

  /** Every run is at most Rank steps long, from any state, whatever fails in it. */
  lemma {:induction false} RunIsBounded(p: Plan, w: World, labels: seq<Label>)
    requires ValidPlan(p) && LiveInv(p, w) && OneRun(labels) && Exec(p, w, labels).Some?
    ensures |labels| <= Rank(p, w)
    decreases |labels|
  {
    if labels != [] {
      RankStep(p, w, labels[0]);
      RunIsBounded(p, Next(p, w, labels[0]).value, labels[1..]);
    }
  }

  /** A rerun in cursor or link mode works only on the pages left, whatever was requeued before. */
  lemma ResumeIsBounded(p: Plan, labels: seq<Label>, run: seq<Label>)
    requires ValidPlan(p) && p.resumes && OneRun(run)
    requires Exec(p, Init(p), labels).Some?
    requires Exec(p, Exec(p, Init(p), labels).value, [Start] + run).Some?
    ensures |run| <= 6 * (p.last + 2 - Exec(p, Init(p), labels).value.frontier)
  {
    var w := Exec(p, Init(p), labels).value;
    assert ([Start] + run)[1..] == run;
    InitInv(p);
    LiveExec(p, Init(p), labels);
    LiveStep(p, w, Start);
    RunIsBounded(p, Next(p, w, Start).value, run);
  }

  /** Where nothing is refused, neither gates nor database stand in the way of a page. */
  lemma CanWrite(p: Plan, k: nat)
    requires ValidPages(p) && NothingRefused(p)
    ensures !Refused(p, k)
  {
  }

  function FaultFreeLabel(p: Plan, w: World): Label
    requires Alive(w.proc)
  {
    match w.proc
    case At(_) => Register
    case Registered(k) => if IsDone(w.units, p.unitAt(k)) then Skip else MarkRunning
    case Running(_) => Fetch
    case Fetched(k) =>
      if p.rowsAt(k) == [] then NoData
      else if VerdictAt(p, k) == Accept then Write(1)
      else SetAside("")
    case Written(_) => Commit
  }

  /** Page `q` is the first one with data that a run fetches from here on. */
  ghost predicate FirstOpen(p: Plan, w: World, q: nat)
    requires Alive(w.proc)
  {
    && Undecided(w.proc) <= q && Open(p, w, q)
    && forall j: nat :: Undecided(w.proc) <= j < q ==> !Open(p, w, j)
  }

  ghost predicate Open(p: Plan, w: World, k: nat) {
    p.rowsAt(k) != [] && !PageDone(p, w, k)
  }

  /** Schema drift does not stop the run: what it compares, if it still compares, has not changed. */
  ghost predicate GoesOn(p: Plan, w: World) {
    Alive(w.proc) ==> forall q: nat :: FirstOpen(p, w, q) ==> !Drifts(p, w, q)
  }

  ghost predicate MayResume(p: Plan, w: World) {
    GoesOn(p, Started(p, w))
  }

  lemma GoesOnStep(p: Plan, w: World, l: Label)
    requires ValidPlan(p) && LiveInv(p, w) && GoesOn(p, w) && !l.Start? && !l.Requeue?
    requires w.proc.Running? ==> !PageDone(p, w, w.proc.page)
    requires Next(p, w, l).Some?
    ensures GoesOn(p, Next(p, w, l).value)
  {
    var w' := Next(p, w, l).value;
    if Alive(w'.proc) && !w'.recorded {
      forall q: nat | FirstOpen(p, w', q) ensures FirstOpen(p, w, q) {
        FirstOpenStep(p, w, l, q);
      }
    }
  }

  /** Until a run has compared a schema, its steps leave the first page it is to compare the same. */
  lemma FirstOpenStep(p: Plan, w: World, l: Label, q: nat)
    requires ValidPlan(p) && LiveInv(p, w) && Alive(w.proc) && !l.Start? && !l.Requeue? && Next(p, w, l).Some?
    requires w.proc.Running? ==> !PageDone(p, w, w.proc.page)
    requires Alive(Next(p, w, l).value.proc) && !Next(p, w, l).value.recorded
    requires FirstOpen(p, Next(p, w, l).value, q)
    ensures FirstOpen(p, w, q)
  {
    var w' := Next(p, w, l).value;
    assert InRange(p, q);
    LaterPages(p, w, l, q);
    assert p.resumes ==> InRange(p, w.proc.page) && !PageDone(p, w, w.proc.page);
    if l.Fetch? {
      assert !Open(p, w, w.proc.page);
    } else if !l.Skip? {
      UndecidedStays(p, w, l, q);
    }
    forall j: nat | Undecided(w.proc) <= j < q ensures !Open(p, w, j) {
      assert j >= Undecided(w'.proc) ==> !Open(p, w', j);
    }
    assert Open(p, w', q);
  }

  lemma FaultFreeStep(p: Plan, w: World)
    requires ValidPlan(p) && NothingRefused(p) && GoesOn(p, w) && Alive(w.proc)
    requires w.proc.Running? ==> !PageDone(p, w, w.proc.page)
    ensures Smooth(FaultFreeLabel(p, w)) && Next(p, w, FaultFreeLabel(p, w)).Some?
  {
    CanWrite(p, w.proc.page);
    assert w.proc.Running? && p.rowsAt(w.proc.page) != [] ==> FirstOpen(p, w, w.proc.page);
  }

  /** From any reachable state a run that meets no fault and no drift reaches the end. */
  lemma {:induction false} FaultFreeRunCompletes(p: Plan, w: World) returns (labels: seq<Label>)
    requires ValidPlan(p) && LiveInv(p, w) && NothingRefused(p) && !w.proc.Down? && GoesOn(p, w)
    requires w.proc.Running? ==> !PageDone(p, w, w.proc.page)
    ensures FaultFree(labels)
    ensures Exec(p, w, labels).Some? && Exec(p, w, labels).value.proc.Completed?
    decreases Rank(p, w)
  {
    labels := [];
    if Alive(w.proc) {
      var l := FaultFreeLabel(p, w);
      FaultFreeStep(p, w);
      RankStep(p, w, l);
      GoesOnStep(p, w, l);
      OpenStep(p, w, l);
      var rest := FaultFreeRunCompletes(p, Next(p, w, l).value);
      labels := [l] + rest;
      assert labels[1..] == rest;
    }
  }

  // ------------------------------------------------------ What one run does to each page

  /** The steps a run report counts. */
  datatype Kind = Fetches | Skips | Writings | Quarantines

  predicate IsKind(l: Label, kind: Kind) {
    match kind
    case Fetches => l.Fetch?
    case Skips => l.Skip?
    case Writings => l.Write?
    case Quarantines => l.SetAside?
  }

  /** The pages at which a run takes a step of the given kind. */
  function PagesAt(p: Plan, w: World, labels: seq<Label>, kind: Kind): set<nat>
    decreases |labels|
  {
    if labels == [] then {}
    else
      match Next(p, w, labels[0])
      case None => {}
      case Some(w') =>
        (if Alive(w.proc) && IsKind(labels[0], kind) then {w.proc.page} else {})
        + PagesAt(p, w', labels[1..], kind)
  }

  /** The first page a run still has to decide whether to fetch. */
  function Undecided(proc: Proc): nat
    requires Alive(proc)
  {
    if proc.Fetched? || proc.Written? then proc.page + 1 else proc.page
  }

  /** `stop` is where a run ends: the first page from `last` on that was not done when it started. */
  ghost predicate StopsAt(p: Plan, w: World, lo: nat, stop: nat) {
    && p.last <= stop && InRange(p, stop)
    && (forall k: nat :: Max(lo, p.last) <= k < stop ==> PageDone(p, w, k))
    && (lo <= stop ==> !PageDone(p, w, stop))
  }

  /** The page a run stops at lies ahead; a page past the end that is being fetched is where it stops. */
  ghost predicate StopAhead(p: Plan, w: World, stop: nat)
    requires Alive(w.proc)
  {
    && w.proc.page <= stop
    && (w.proc.page >= p.last && !w.proc.At? && !w.proc.Registered? ==> stop == w.proc.page)
  }

  ghost function DoneIn(p: Plan, w: World, lo: nat, hi: nat): set<nat> {
    set k: nat | lo <= k <= hi && PageDone(p, w, k)
  }

  ghost function NotDoneIn(p: Plan, w: World, lo: nat, hi: nat): set<nat> {
    set k: nat | lo <= k <= hi && !PageDone(p, w, k)
  }

  lemma DoneInSplit(p: Plan, w: World, w': World, lo: nat, hi: nat)
    requires lo <= hi
    requires forall k: nat :: lo < k <= hi ==> PageDone(p, w, k) == PageDone(p, w', k)
    ensures DoneIn(p, w, lo, hi) == (if PageDone(p, w, lo) then {lo} else {}) + DoneIn(p, w', lo + 1, hi)
    ensures NotDoneIn(p, w, lo, hi) == (if PageDone(p, w, lo) then {} else {lo}) + NotDoneIn(p, w', lo + 1, hi)
  {
  }

  /** A step says nothing new about the pages past the one it is at. */
  lemma LaterPages(p: Plan, w: World, l: Label, stop: nat)
    requires ValidPlan(p) && LiveInv(p, w) && Alive(w.proc) && !l.Requeue? && Next(p, w, l).Some? && InRange(p, stop)
    ensures forall j: nat :: w.proc.page < j <= stop ==> PageDone(p, w, j) == PageDone(p, Next(p, w, l).value, j)
  {
    forall j: nat | w.proc.page < j <= stop ensures PageDone(p, w, j) == PageDone(p, Next(p, w, l).value, j) {
      OtherPages(p, w, l, j);
    }
  }

  lemma FetchStep(p: Plan, w: World, l: Label, stop: nat)
    requires ValidPlan(p) && LiveInv(p, w) && Alive(w.proc) && !l.Requeue?
    requires w.proc.Running? ==> !PageDone(p, w, w.proc.page)
    requires Next(p, w, l).Some? && Alive(Next(p, w, l).value.proc)
    requires var w' := Next(p, w, l).value;
             StopAhead(p, w', stop) && StopsAt(p, w', Undecided(w'.proc), stop)
    ensures var w' := Next(p, w, l).value;
            && StopAhead(p, w, stop) && StopsAt(p, w, Undecided(w.proc), stop)
            && NotDoneIn(p, w, Undecided(w.proc), stop)
               == (if l.Fetch? then {w.proc.page} else {}) + NotDoneIn(p, w', Undecided(w'.proc), stop)
            && DoneIn(p, w, Undecided(w.proc), stop)
               == (if l.Skip? then {w.proc.page} else {}) + DoneIn(p, w', Undecided(w'.proc), stop)
  {
    if l.Skip? || l.Fetch? {
      DecidesOne(p, w, l, stop);
    } else {
      UndecidedStays(p, w, l, stop);
    }
  }

  /** A fetch or a skip decides about one page. */
  lemma DecidesOne(p: Plan, w: World, l: Label, stop: nat)
    requires ValidPlan(p) && LiveInv(p, w) && Alive(w.proc) && (l.Skip? || l.Fetch?) && Next(p, w, l).Some?
    requires InRange(p, stop) && w.proc.page <= stop
    ensures var w' := Next(p, w, l).value;
            && Undecided(w.proc) == w.proc.page && Undecided(w'.proc) == w.proc.page + 1
            && (l.Skip? ==> PageDone(p, w, w.proc.page))
            && (forall j: nat :: w.proc.page < j <= stop ==> PageDone(p, w, j) == PageDone(p, w', j))
            && DoneIn(p, w, w.proc.page, stop)
               == (if PageDone(p, w, w.proc.page) then {w.proc.page} else {}) + DoneIn(p, w', w.proc.page + 1, stop)
            && NotDoneIn(p, w, w.proc.page, stop)
               == (if PageDone(p, w, w.proc.page) then {} else {w.proc.page})
                  + NotDoneIn(p, w', w.proc.page + 1, stop)
  {
    var w' := Next(p, w, l).value;
    LaterPages(p, w, l, stop);
    assert p.resumes ==> InRange(p, w.proc.page) && !PageDone(p, w, w.proc.page);
    DoneInSplit(p, w, w', w.proc.page, stop);
  }

  /** A step that is neither a fetch nor a skip leaves what is to be fetched as it was. */
  lemma UndecidedStays(p: Plan, w: World, l: Label, stop: nat)
    requires ValidPlan(p) && LiveInv(p, w) && Alive(w.proc) && !l.Requeue? && !l.Fetch? && !l.Skip?
    requires Next(p, w, l).Some? && Alive(Next(p, w, l).value.proc) && InRange(p, stop)
    ensures var w' := Next(p, w, l).value;
            && Undecided(w'.proc) == Undecided(w.proc)
            && (forall j: nat :: Undecided(w.proc) <= j <= stop ==> PageDone(p, w, j) == PageDone(p, w', j))
            && NotDoneIn(p, w, Undecided(w.proc), stop) == NotDoneIn(p, w', Undecided(w.proc), stop)
            && DoneIn(p, w, Undecided(w.proc), stop) == DoneIn(p, w', Undecided(w.proc), stop)
  {
    LaterPages(p, w, l, stop);
    assert l.Register? || l.MarkRunning? ==>
        PageDone(p, w, w.proc.page) == PageDone(p, Next(p, w, l).value, w.proc.page);
  }

  /**
   A run that returns fetches exactly the pages it did not find done, from where it starts to the
   first not-done page at or past the last one, and skips exactly the done ones among them.
   */
  lemma {:induction false} RunFetches(p: Plan, w: World, labels: seq<Label>) returns (stop: nat)
    requires ValidPlan(p) && LiveInv(p, w) && Alive(w.proc) && RunsToEnd(p, w, labels)
    requires w.proc.Running? ==> !PageDone(p, w, w.proc.page)
    ensures StopAhead(p, w, stop) && StopsAt(p, w, Undecided(w.proc), stop)
    ensures PagesAt(p, w, labels, Fetches) == NotDoneIn(p, w, Undecided(w.proc), stop)
    ensures PagesAt(p, w, labels, Skips) == DoneIn(p, w, Undecided(w.proc), stop)
    decreases |labels|
  {
    var w' := Next(p, w, labels[0]).value;
    OpenStep(p, w, labels[0]);
    if Alive(w'.proc) {
      stop := RunFetches(p, w', labels[1..]);
      FetchStep(p, w, labels[0], stop);
      PagesAtCons(p, w, labels, Fetches, w');
      PagesAtCons(p, w, labels, Skips, w');
    } else {
      stop := w.proc.page;
      ReturnsAt(p, w, labels);
    }
  }

  /** A page that is being fetched is not done. */
  lemma OpenStep(p: Plan, w: World, l: Label)
    requires ValidPlan(p) && LiveInv(p, w) && !l.Requeue? && Next(p, w, l).Some?
    requires w.proc.Running? ==> !PageDone(p, w, w.proc.page)
    ensures var w' := Next(p, w, l).value; LiveInv(p, w') && (w'.proc.Running? ==> !PageDone(p, w', w'.proc.page))
  {
    LiveStep(p, w, l);
  }

  /** The last step of a run that returns: the page is fetched and is the last one, or past it. */
  lemma ReturnsAt(p: Plan, w: World, labels: seq<Label>)
    requires ValidPlan(p) && LiveInv(p, w) && Alive(w.proc) && RunsToEnd(p, w, labels) && labels != []
    requires !Alive(Next(p, w, labels[0]).value.proc)
    ensures w.proc.page >= p.last && InRange(p, w.proc.page) && Undecided(w.proc) == w.proc.page + 1
    ensures forall kind :: PagesAt(p, w, labels, kind) == if IsKind(labels[0], kind) then {w.proc.page} else {}
    ensures !labels[0].Fetch? && !labels[0].Skip?
  {
    var w' := Next(p, w, labels[0]).value;
    assert !labels[0].Start? && !labels[0].Requeue?;
    if labels[1..] != [] {
      NothingAfterReturn(p, w', labels[1..]);
    } else {
      assert Exec(p, w', labels[1..]) == Some(w');
    }
    forall kind ensures PagesAt(p, w', labels[1..], kind) == {} {
    }
  }

  /** Without a new start, a run that has ended takes no step but dying. */
  lemma NothingAfterReturn(p: Plan, w: World, labels: seq<Label>)
    requires !Alive(w.proc) && OneRun(labels) && labels != [] && Exec(p, w, labels).Some?
    ensures Exec(p, w, labels).value.proc.Down? || w.proc.Down?
    ensures !Exec(p, w, labels).value.proc.Completed?
    decreases |labels|
  {
    assert |labels| > 1 ==> labels[1..][0] == labels[1];
  }

  /** The pages a run still has to judge: those it will fetch, and one it may hold already. */
  function Pending(p: Plan, w: World, labels: seq<Label>): set<nat> {
    if w.proc.Fetched? then PagesAt(p, w, labels, Fetches) + {w.proc.page} else PagesAt(p, w, labels, Fetches)
  }

  lemma PendingStep(p: Plan, w: World, labels: seq<Label>)
    requires labels != [] && Next(p, w, labels[0]).Some?
    ensures Pending(p, w, labels)
            == Pending(p, Next(p, w, labels[0]).value, labels[1..]) + (if w.proc.Fetched? then {w.proc.page} else {})
  {
    PagesAtCons(p, w, labels, Fetches, Next(p, w, labels[0]).value);
  }

  /** In a run that returns, a page in memory is written, set aside or passed over as it was judged. */
  lemma JudgedAsIs(p: Plan, w: World, labels: seq<Label>)
    requires RunsToEnd(p, w, labels) && labels != []
    ensures labels[0].Write? <==> w.proc.Fetched? && Writes(p, w.proc.page)
    ensures labels[0].SetAside? <==> w.proc.Fetched? && VerdictAt(p, w.proc.page) == Quarantine
  {
    var w' := Next(p, w, labels[0]).value;
    assert Exec(p, w, labels) == Exec(p, w', labels[1..]);
    if labels[1..] == [] {
      assert Exec(p, w', labels[1..]) == Some(w');
    } else if w'.proc.Down? {
      NothingAfterReturn(p, w', labels[1..]);
    }
  }

  /** A run that returns writes exactly the fetched pages that are accepted and not empty. */
  lemma {:induction false} FetchedPagesAreWritten(p: Plan, w: World, labels: seq<Label>)
    requires RunsToEnd(p, w, labels)
    ensures PagesAt(p, w, labels, Writings) == (set k | k in Pending(p, w, labels) && Writes(p, k))
    decreases |labels|
  {
    if labels != [] {
      var w' := Next(p, w, labels[0]).value;
      FetchedPagesAreWritten(p, w', labels[1..]);
      JudgedAsIs(p, w, labels);
      PendingStep(p, w, labels);
      PagesAtCons(p, w, labels, Writings, w');
    }
  }

  /** It sets aside exactly the fetched pages that are judged so. */
  lemma {:induction false} FetchedPagesAreSetAside(p: Plan, w: World, labels: seq<Label>)
    requires RunsToEnd(p, w, labels)
    ensures PagesAt(p, w, labels, Quarantines) == (set k | k in Pending(p, w, labels) && VerdictAt(p, k) == Quarantine)
    decreases |labels|
  {
    if labels != [] {
      var w' := Next(p, w, labels[0]).value;
      FetchedPagesAreSetAside(p, w', labels[1..]);
      JudgedAsIs(p, w, labels);
      PendingStep(p, w, labels);
      PagesAtCons(p, w, labels, Quarantines, w');
    }
  }

  /** The log of a schedule is that of the state it starts from and the pages it writes. */
  lemma {:induction false} LogAppends(p: Plan, w: World, labels: seq<Label>) returns (tail: seq<nat>)
    requires Exec(p, w, labels).Some?
    ensures Exec(p, w, labels).value.log == w.log + tail
    ensures forall k: nat :: k in tail <==> k in PagesAt(p, w, labels, Writings)
    decreases |labels|
  {
    tail := [];
    if labels != [] {
      var w' := Next(p, w, labels[0]).value;
      var rest := LogAppends(p, w', labels[1..]);
      tail := rest;
      if labels[0].Write? {
        var here := Repeat(w.proc.page, labels[0].times);
        tail := here + rest;
        assert here[0] == w.proc.page;
        AppendAssociates(w.log, here, rest);
      }
    }
  }

  // ------------------------------------------------------------------ Attempts

  function AttemptsOf(w: World, uid: UnitId): nat {
    if uid in w.units then w.units[uid].attempts else 0
  }

  /** The step records a failure of this unit. */
  predicate Fails(p: Plan, w: World, l: Label, uid: UnitId) {
    (l.FetchFail? || l.Drift? || l.Refuse? || l.WriteFail?) && Alive(w.proc) && p.unitAt(w.proc.page) == uid
  }

  function Failures(p: Plan, w: World, labels: seq<Label>, uid: UnitId): nat
    decreases |labels|
  {
    if labels == [] then 0
    else
      match Next(p, w, labels[0])
      case None => 0
      case Some(w') => (if Fails(p, w, labels[0], uid) then 1 else 0) + Failures(p, w', labels[1..], uid)
  }

  /** No unit is worked on before it is registered. */
  ghost predicate AtRegistered(p: Plan, w: World) {
    Alive(w.proc) && !w.proc.At? ==> p.unitAt(w.proc.page) in w.units
  }

  /**
   Over any schedule the attempts stored for a unit are the failures recorded for it: starting,
   quarantining, finishing, skipping or requeueing a unit counts none.
   */
  lemma {:induction false} AttemptsCountFailures(p: Plan, w: World, labels: seq<Label>, uid: UnitId)
    requires AtRegistered(p, w) && Exec(p, w, labels).Some?
    ensures AttemptsOf(Exec(p, w, labels).value, uid) == AttemptsOf(w, uid) + Failures(p, w, labels, uid)
    decreases |labels|
  {
    if labels != [] {
      AttemptsStep(p, w, labels[0], uid);
      AttemptsCountFailures(p, Next(p, w, labels[0]).value, labels[1..], uid);
    }
  }

  lemma AttemptsStep(p: Plan, w: World, l: Label, uid: UnitId)
    requires AtRegistered(p, w) && Next(p, w, l).Some?
    ensures var w' := Next(p, w, l).value;
            AtRegistered(p, w') && AttemptsOf(w', uid) == AttemptsOf(w, uid) + if Fails(p, w, l, uid) then 1 else 0
  {
  }

  // ------------------------------------------------------------------ Run reports

  function Count(labels: seq<Label>, kind: Kind): nat {
    if labels == [] then 0
    else (if IsKind(labels[0], kind) then 1 else 0) + Count(labels[1..], kind)
  }

  /** How far a run has come: the page and the place within it. */
  function Position(proc: Proc): nat
    requires Alive(proc)
  {
    5 * proc.page + match proc
                    case At(_) => 0
                    case Registered(_) => 1
                    case Running(_) => 2
                    case Fetched(_) => 3
                    case Written(_) => 4
  }

  function Place(kind: Kind): nat {
    match kind
    case Skips => 1
    case Fetches => 2
    case Writings => 3
    case Quarantines => 3
  }

  lemma PositionStep(p: Plan, w: World, l: Label, kind: Kind)
    requires ValidPlan(p) && LiveInv(p, w) && !l.Start? && !l.Requeue?
    requires Alive(w.proc) && Next(p, w, l).Some?
    ensures IsKind(l, kind) ==> Position(w.proc) == 5 * w.proc.page + Place(kind)
    ensures var w' := Next(p, w, l).value; Alive(w'.proc) ==> Position(w.proc) < Position(w'.proc)
  {
    assert w.proc.Registered? && p.resumes ==> InRange(p, w.proc.page) && !PageDone(p, w, w.proc.page);
  }

  /** A run never goes back: the pages it still takes a step of one kind at lie ahead. */
  lemma {:induction false} PagesLieAhead(p: Plan, w: World, labels: seq<Label>, kind: Kind, k: nat)
    requires ValidPlan(p) && LiveInv(p, w) && OneRun(labels) && Exec(p, w, labels).Some?
    requires k in PagesAt(p, w, labels, kind)
    ensures Alive(w.proc) && 5 * k + Place(kind) >= Position(w.proc)
    decreases |labels|
  {
    var l := labels[0];
    var w' := Next(p, w, l).value;
    LiveStep(p, w, l);
    if Alive(w.proc) {
      PositionStep(p, w, l, kind);
    }
    if k in PagesAt(p, w', labels[1..], kind) {
      PagesLieAhead(p, w', labels[1..], kind, k);
    }
  }

  lemma PagesAtCons(p: Plan, w: World, labels: seq<Label>, kind: Kind, w': World)
    requires labels != [] && Next(p, w, labels[0]) == Some(w')
    ensures IsKind(labels[0], kind) ==> Alive(w.proc)
    ensures PagesAt(p, w, labels, kind)
            == (if IsKind(labels[0], kind) then {w.proc.page} else {}) + PagesAt(p, w', labels[1..], kind)
  {
  }

  /** A page the run has gone past is not one it takes this step at again. */
  lemma NotAgain(p: Plan, w: World, labels: seq<Label>, kind: Kind, k: nat)
    requires ValidPlan(p) && LiveInv(p, w) && OneRun(labels) && Exec(p, w, labels).Some?
    requires Alive(w.proc) ==> 5 * k + Place(kind) < Position(w.proc)
    ensures k !in PagesAt(p, w, labels, kind)
  {
    if k in PagesAt(p, w, labels, kind) {
      PagesLieAhead(p, w, labels, kind, k);
    }
  }

  lemma AddOne<T>(x: T, s: set<T>)
    requires x !in s
    ensures |{x} + s| == 1 + |s|
  {
  }

  /** The first step of a run adds its page to those the rest of the run has a step at. */
  lemma PageIsNew(p: Plan, w: World, labels: seq<Label>, kind: Kind, w': World)
    requires ValidPlan(p) && LiveInv(p, w) && OneRun(labels) && labels != [] && Exec(p, w, labels).Some?
    requires Next(p, w, labels[0]) == Some(w') && LiveInv(p, w') && Exec(p, w', labels[1..]).Some?
    ensures |PagesAt(p, w, labels, kind)|
            == (if IsKind(labels[0], kind) then 1 else 0) + |PagesAt(p, w', labels[1..], kind)|
  {
    var rest := PagesAt(p, w', labels[1..], kind);
    PagesAtCons(p, w, labels, kind, w');
    if IsKind(labels[0], kind) {
      PositionStep(p, w, labels[0], kind);
      NotAgain(p, w', labels[1..], kind, w.proc.page);
      AddOne(w.proc.page, rest);
    } else {
      assert {} + rest == rest;
    }
  }

  /** A run takes a step of one kind at most once per page, so counting steps counts pages. */
  lemma {:induction false} CountsArePages(p: Plan, w: World, labels: seq<Label>, kind: Kind)
    requires ValidPlan(p) && LiveInv(p, w) && OneRun(labels) && Exec(p, w, labels).Some?
    ensures Count(labels, kind) == |PagesAt(p, w, labels, kind)|
    decreases |labels|
  {
    if labels != [] {
      LiveStep(p, w, labels[0]);
      CountsArePages(p, Next(p, w, labels[0]).value, labels[1..], kind);
      PageIsNew(p, w, labels, kind, Next(p, w, labels[0]).value);
    }
  }

  datatype RunReport = RunReport(fetched: nat, written: nat, skipped: nat, quarantined: nat)

  function Tally(labels: seq<Label>): RunReport {
    RunReport(Count(labels, Fetches), Count(labels, Writings), Count(labels, Skips), Count(labels, Quarantines))
  }

  /**
   The report of a run that returns: over the pages from where it started to where it stopped, the
   done ones were skipped, the others fetched, and of these the accepted ones with data written and
   the quarantined ones set aside.
   */
  lemma ReportIsExact(p: Plan, w: World, run: seq<Label>) returns (stop: nat)
    requires ValidPlan(p) && LiveInv(p, w) && w.proc.At? && RunsToEnd(p, w, run)
    ensures StopsAt(p, w, w.proc.page, stop) && w.proc.page <= stop
    ensures var fetched := NotDoneIn(p, w, w.proc.page, stop);
            Tally(run) == RunReport(
              |fetched|,
              |set k | k in fetched && Writes(p, k)|,
              |DoneIn(p, w, w.proc.page, stop)|,
              |set k | k in fetched && VerdictAt(p, k) == Quarantine|)
  {
    stop := RunFetches(p, w, run);
    FetchedPagesAreWritten(p, w, run);
    FetchedPagesAreSetAside(p, w, run);
    CountsArePages(p, w, run, Fetches);
    CountsArePages(p, w, run, Skips);
    CountsArePages(p, w, run, Writings);
    CountsArePages(p, w, run, Quarantines);
  }
}
