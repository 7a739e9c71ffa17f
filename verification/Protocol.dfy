/**
 The collection protocol as a state machine over durable and volatile state: every commit to the
 state store, every sink write and every fetch is one step, and a crash or a rerun may come
 between any two of them. Pages are numbered in traversal order.
 */
module Protocol {
  import opened Rows
  import opened StateStore
  import opened Sinks

  // ------------------------------------------------------------------ Pages

  /** What the contract and the validation rules decide about a page's rows. */
  datatype Verdict = Accept | Block | Quarantine

  /**
   A pipeline over a fixed source. Fetching a page numbered `last` or more reports exhaustion.
   `resumes` holds in cursor and link mode, where the position is persisted as a cursor; offset
   and page mode enumerate the pages from the start in every run. `blocksDrift` holds when a changed
   schema is to stop a run.
   */
  datatype Plan = Plan(
    resumes: bool,
    last: nat,
    unitAt: nat -> UnitId,
    rowsAt: nat -> seq<Row>,
    judge: seq<Row> -> Verdict,
    schemaOf: seq<Row> -> Schema,
    blocksDrift: bool,
    backend: Backend,
    sink0: Sink)

  ghost predicate InRange(p: Plan, k: nat) {
    p.resumes ==> k <= p.last
  }

  ghost predicate ValidPlan(p: Plan) {
    && (forall i: nat, j: nat :: InRange(p, i) && InRange(p, j) && i != j ==> p.unitAt(i) != p.unitAt(j))
    && ValidPages(p)
  }

  /** Nothing lies past the end, every page comes as a record batch, and the sink is what it says. */
  ghost predicate ValidPages(p: Plan) {
    && IsBackend(p.backend, p.sink0)
    && (forall k: nat :: k > p.last ==> p.rowsAt(k) == [])
    && (forall k: nat :: Rectangular(p.rowsAt(k)))
  }

  /** An empty page skips the gates. */
  function VerdictAt(p: Plan, k: nat): Verdict {
    if p.rowsAt(k) == [] then Accept else p.judge(p.rowsAt(k))
  }

  predicate Writes(p: Plan, k: nat) {
    p.rowsAt(k) != [] && VerdictAt(p, k) == Accept
  }

  /** A gate blocks the page, or the database rejects its rows. */
  predicate Refused(p: Plan, k: nat) {
    VerdictAt(p, k) == Block || (Writes(p, k) && !p.backend.takes(p.rowsAt(k)))
  }

  predicate Passable(p: Plan, k: nat) {
    VerdictAt(p, k) == Accept && !Refused(p, k)
  }

  /** The sink after the accepted pages below `h` were written once each, in page order. */
  function Ideal(p: Plan, h: nat): Sink {
    if h == 0 then p.sink0
    else if Writes(p, h - 1) then p.backend.put(Ideal(p, h - 1), p.unitAt(h - 1), p.rowsAt(h - 1))
    else Ideal(p, h - 1)
  }

  /** The sink after the listed pages were written in the order listed. */
  function Replay(p: Plan, log: seq<nat>): Sink {
    if log == [] then p.sink0
    else
      var k := log[|log| - 1];
      p.backend.put(Replay(p, log[..|log| - 1]), p.unitAt(k), p.rowsAt(k))
  }

  function Repeat(k: nat, times: nat): (log: seq<nat>)
    ensures |log| == times && forall i :: 0 <= i < times ==> log[i] == k
  {
    seq(times, i => k)
  }

  lemma {:induction false} ReplayRepeat(p: Plan, log: seq<nat>, k: nat, times: nat)
    ensures Replay(p, log + Repeat(k, times)) == Land(p.backend, Replay(p, log), p.unitAt(k), p.rowsAt(k), times)
  {
    if times == 0 {
      assert log + Repeat(k, 0) == log;
    } else {
      ReplayRepeat(p, log, k, times - 1);
      assert (log + Repeat(k, times))[..|log| + times - 1] == log + Repeat(k, times - 1);
    }
  }

  // ------------------------------------------------------------------ States

  /** The program counter of the runner's loop; `page` is the position of the unit generator. */
  datatype Proc =
    | Down
    | At(page: nat)
    | Registered(page: nat)
    | Running(page: nat)
    | Fetched(page: nat)
    | Written(page: nat)
    | Completed

  /**
   `frontier` is one past the furthest page committed. In cursor and link mode it is what the
   stored cursor names; in offset and page mode it is history only and no step reads it. `log` is
   history only: the pages written to the sink, one entry for each time a write landed. `snapshot`
   is the schema stored last, and `recorded` whether this run has stored one.
   */
  datatype World = World(
    units: Units,
    frontier: nat,
    sink: Sink,
    log: seq<nat>,
    snapshot: Option<Schema>,
    recorded: bool,
    proc: Proc)

  function Init(p: Plan): World {
    World(map[], 0, p.sink0, [], None, false, Down)
  }

  /**
   `Write(times)` is one sink write with its retries, landing `times` times; dying between two
   attempts is that step followed by a crash.
   */
  datatype Label =
    | Start
    | Register
    | Skip
    | MarkRunning
    | FetchFail(why: string)
    | Fetch
    | Drift(why: string)
    | Refuse(why: string)
    | SetAside(why: string)
    | WriteFail(why: string)
    | Write(times: nat)
    | NoData
    | Commit
    | Crash
    | Requeue(uid: UnitId)

  /** Where the loop goes after a page it fetched: it stops once the source reported exhaustion. */
  function After(p: Plan, k: nat): Proc {
    if k >= p.last then Completed else At(k + 1)
  }

  /** A skipped page is not fetched: an offset moves on, a cursor stays and yields the page again. */
  function AfterSkip(p: Plan, k: nat): Proc {
    if p.resumes then At(k) else At(k + 1)
  }

  function FirstProc(p: Plan, frontier: nat): Proc {
    if !p.resumes then At(0)
    else if frontier > p.last then Completed
    else At(frontier)
  }

  /** The first page with data that a run fetches is compared with the schema stored last. */
  predicate Drifts(p: Plan, w: World, k: nat) {
    && p.blocksDrift && !w.recorded && p.rowsAt(k) != []
    && w.snapshot.Some? && w.snapshot.value != p.schemaOf(p.rowsAt(k))
  }

  /** That page's schema is then stored. */
  function Snapshotted(p: Plan, w: World, k: nat): World {
    if w.recorded || p.rowsAt(k) == [] then w
    else w.(snapshot := Some(p.schemaOf(p.rowsAt(k))), recorded := true)
  }

  function Started(p: Plan, w: World): World {
    w.(recorded := false, proc := FirstProc(p, w.frontier))
  }

  function Advance(p: Plan, frontier: nat, k: nat): nat {
    if p.resumes || k + 1 > frontier then k + 1 else frontier
  }

  function Next(p: Plan, w: World, l: Label): Option<World> {
    match (l, w.proc)
    case (Start, Down) => Some(Started(p, w))
    case (Start, Completed) => Some(Started(p, w))
    case (Register, At(k)) => Some(w.(units := RegisterUnit(w.units, p.unitAt(k)), proc := Registered(k)))
    case (Skip, Registered(k)) =>
      if IsDone(w.units, p.unitAt(k)) then Some(w.(proc := AfterSkip(p, k))) else None
    case (MarkRunning, Registered(k)) =>
      if IsDone(w.units, p.unitAt(k)) then None
      else Some(w.(units := SetStatus(w.units, p.unitAt(k), Status.Running, None), proc := Proc.Running(k)))
    case (FetchFail(why), Running(k)) =>
      Some(w.(units := SetStatus(w.units, p.unitAt(k), Failed, Some(why)), proc := Down))
    case (Fetch, Running(k)) =>
      if Drifts(p, w, k) then None else Some(Snapshotted(p, w, k).(proc := Fetched(k)))
    case (Drift(why), Running(k)) =>
      if Drifts(p, w, k)
      then Some(w.(units := SetStatus(w.units, p.unitAt(k), Failed, Some(why)), proc := Down))
      else None
    case (Refuse(why), Fetched(k)) =>
      if VerdictAt(p, k) == Block
      then Some(w.(units := SetStatus(w.units, p.unitAt(k), Failed, Some(why)), proc := Down))
      else None
    case (SetAside(why), Fetched(k)) =>
      if VerdictAt(p, k) == Quarantine
      then Some(w.(units := SetQuarantined(w.units, p.unitAt(k), why), proc := After(p, k)))
      else None
    case (WriteFail(why), Fetched(k)) =>
      if Writes(p, k)
      then Some(w.(units := SetStatus(w.units, p.unitAt(k), Failed, Some(why)), proc := Down))
      else None
    case (WriteFail(why), Written(k)) =>  // the write landed but was reported as failed
      if Writes(p, k)
      then Some(w.(units := SetStatus(w.units, p.unitAt(k), Failed, Some(why)), proc := Down))
      else None
    case (Write(times), Fetched(k)) =>
      if times >= 1 && Writes(p, k) && p.backend.takes(p.rowsAt(k))
      then Some(w.(
        sink := Land(p.backend, w.sink, p.unitAt(k), p.rowsAt(k), times),
        log := w.log + Repeat(k, times),
        proc := Written(k)))
      else None
    case (NoData, Fetched(k)) => if p.rowsAt(k) == [] then Some(w.(proc := Written(k))) else None
    case (Commit, Written(k)) =>
      Some(w.(
        units := SetDone(w.units, p.unitAt(k), |p.rowsAt(k)|),
        frontier := Advance(p, w.frontier, k),
        proc := After(p, k)))
    case (Crash, _) => if w.proc.Down? then None else Some(w.(proc := Down))
    case (Requeue(uid), _) => Some(w.(units := RequeueUnit(w.units, uid)))
    case _ => None
  }

  /** The state a sequence of steps leads to, if every step can be taken where it stands. */
  function Exec(p: Plan, w: World, labels: seq<Label>): Option<World>
    decreases |labels|
  {
    if labels == [] then Some(w)
    else
      match Next(p, w, labels[0])
      case None => None
      case Some(w') => Exec(p, w', labels[1..])
  }

  lemma {:induction false} ExecAppend(p: Plan, w: World, a: seq<Label>, b: seq<Label>)
    requires Exec(p, w, a).Some?
    ensures Exec(p, w, a + b) == Exec(p, Exec(p, w, a).value, b)
    decreases |a|
  {
    if a == [] {
      assert a + b == b;
    } else {
      assert (a + b)[1..] == a[1..] + b;
      ExecAppend(p, Next(p, w, a[0]).value, a[1..], b);
    }
  }

  ghost predicate NoRequeue(labels: seq<Label>) {
    forall i :: 0 <= i < |labels| ==> !labels[i].Requeue?
  }

  // -------------------------------------------------------------- Invariants

  ghost predicate PageDone(p: Plan, w: World, k: nat) {
    IsDone(w.units, p.unitAt(k))
  }

  ghost predicate PageQuarantined(p: Plan, w: World, k: nat) {
    p.unitAt(k) in w.units && w.units[p.unitAt(k)].status == Quarantined
  }

  ghost predicate Settled(p: Plan, w: World, k: nat) {
    PageDone(p, w, k) || PageQuarantined(p, w, k)
  }

  predicate Alive(proc: Proc) {
    !proc.Down? && !proc.Completed?
  }

  function Max(a: nat, b: nat): nat {
    if a < b then b else a
  }

  /** What holds in every reachable state even when an operator requeues units at any time. */
  ghost predicate LiveInv(p: Plan, w: World) {
    && (forall k: nat :: InRange(p, k) && k >= w.frontier ==> !PageDone(p, w, k))
    && (p.resumes ==> w.frontier <= p.last + 1)
    && (Alive(w.proc) ==>
          && w.proc.page <= Max(p.last, w.frontier)
          && (p.resumes ==> w.frontier <= w.proc.page <= p.last))
    && (w.proc.Registered? || w.proc.Running? || w.proc.Fetched? || w.proc.Written? ==>
          p.unitAt(w.proc.page) in w.units)
  }

  /** The next page to be written, pages between it and the frontier being quarantined. */
  ghost predicate Due(p: Plan, f: nat, h: nat) {
    && f <= h && InRange(p, h) && Writes(p, h)
    && (forall j: nat :: f <= j < h ==> VerdictAt(p, j) == Quarantine)
  }

  /** A page is done only if it was accepted and quarantined only if it was judged so. */
  ghost predicate VerdictInv(p: Plan, w: World) {
    && (forall k: nat :: InRange(p, k) && PageDone(p, w, k) ==> Passable(p, k))
    && (forall k: nat :: InRange(p, k) && PageQuarantined(p, w, k) ==> VerdictAt(p, k) == Quarantine)
  }

  /** Everything behind the frontier was dealt with. */
  ghost predicate FrontierInv(p: Plan, w: World) {
    && (forall k: nat :: InRange(p, k) && k < w.frontier ==> PageDone(p, w, k) || VerdictAt(p, k) == Quarantine)
    && (p.resumes ==> forall k: nat :: k < w.frontier ==> Settled(p, w, k))
    && (w.frontier > 0 ==> PageDone(p, w, w.frontier - 1))
  }

  ghost predicate StatusInv(p: Plan, w: World) {
    VerdictInv(p, w) && FrontierInv(p, w)
  }

  /** Every page before the generator's position was dealt with. */
  ghost predicate PassedInv(p: Plan, w: World) {
    && (Alive(w.proc) ==> forall j: nat :: j < w.proc.page ==> Settled(p, w, j))
    && (w.proc.Completed? ==> forall j: nat :: j <= p.last ==> Settled(p, w, j))
  }

  /** The page being worked on is not done, and only an accepted one gets past the sink. */
  ghost predicate ProcInv(p: Plan, w: World) {
    && (w.proc.Running? || w.proc.Fetched? || w.proc.Written? ==> !PageDone(p, w, w.proc.page))
    && (w.proc.Written? ==> Passable(p, w.proc.page))
  }

  ghost predicate Ordered(log: seq<nat>) {
    forall i, j :: 0 <= i < j < |log| ==> log[i] <= log[j]
  }

  /** Pages are written in order, with repeats only of the last one; all behind the frontier are written. */
  ghost predicate LogInv(p: Plan, w: World) {
    && Ordered(w.log)
    && (forall k :: k in w.log ==>
          Writes(p, k) && !Refused(p, k) && InRange(p, k) && (k < w.frontier || Due(p, w.frontier, k)))
    && (forall k: nat :: k < w.frontier && Writes(p, k) ==> k in w.log)
    && (w.proc.Written? && Writes(p, w.proc.page) ==> w.proc.page in w.log)
  }

  /** The sink is what was written to it, and only accepted pages were. */
  ghost predicate ReplayInv(p: Plan, w: World) {
    w.sink == Replay(p, w.log) && forall k :: k in w.log ==> Writes(p, k)
  }

  /** What holds in every state the runner itself can reach. */
  ghost predicate Inv(p: Plan, w: World) {
    LiveInv(p, w) && StatusInv(p, w) && PassedInv(p, w) && ProcInv(p, w) && LogInv(p, w) && ReplayInv(p, w)
  }

  /** No page at or past the frontier becomes done, but by the commit that moves the frontier past it. */
  lemma AheadStep(p: Plan, w: World, l: Label, k: nat)
    requires ValidPlan(p) && LiveInv(p, w) && Next(p, w, l).Some?
    requires InRange(p, k) && k >= Next(p, w, l).value.frontier
    ensures !PageDone(p, Next(p, w, l).value, k)
  {
    assert !PageDone(p, w, k);
  }

  lemma LiveStep(p: Plan, w: World, l: Label)
    requires ValidPlan(p) && LiveInv(p, w) && Next(p, w, l).Some?
    ensures LiveInv(p, Next(p, w, l).value)
  {
    var w' := Next(p, w, l).value;
    forall k: nat | InRange(p, k) && k >= w'.frontier ensures !PageDone(p, w', k) {
      AheadStep(p, w, l, k);
    }
    if w.proc.Registered? {
      assert PageDone(p, w, w.proc.page) ==> InRange(p, w.proc.page) && w.proc.page < w.frontier;
    }
  }

  /** A step touches the status of the page it is at and of no other. */
  lemma OtherPages(p: Plan, w: World, l: Label, j: nat)
    requires ValidPlan(p) && !l.Requeue? && Next(p, w, l).Some? && InRange(p, j)
    requires Alive(w.proc) ==> InRange(p, w.proc.page) && j != w.proc.page
    ensures PageDone(p, Next(p, w, l).value, j) == PageDone(p, w, j)
    ensures PageQuarantined(p, Next(p, w, l).value, j) == PageQuarantined(p, w, j)
  {
  }

  lemma AllOtherPages(p: Plan, w: World, l: Label)
    requires ValidPlan(p) && LiveInv(p, w) && !l.Requeue? && Next(p, w, l).Some?
    ensures var w' := Next(p, w, l).value;
            forall j: nat :: InRange(p, j) && (Alive(w.proc) ==> j != w.proc.page) ==>
              PageDone(p, w', j) == PageDone(p, w, j) && PageQuarantined(p, w', j) == PageQuarantined(p, w, j)
  {
    forall j: nat | InRange(p, j) && (Alive(w.proc) ==> j != w.proc.page)
      ensures PageDone(p, Next(p, w, l).value, j) == PageDone(p, w, j)
      ensures PageQuarantined(p, Next(p, w, l).value, j) == PageQuarantined(p, w, j)
    {
      OtherPages(p, w, l, j);
    }
  }

  lemma VerdictStep(p: Plan, w: World, l: Label)
    requires ValidPlan(p) && Inv(p, w) && !l.Requeue? && Next(p, w, l).Some?
    ensures VerdictInv(p, Next(p, w, l).value)
  {
    AllOtherPages(p, w, l);
    var w' := Next(p, w, l).value;
    if Alive(w.proc) {
      var k := w.proc.page;
      assert PageDone(p, w', k) ==> PageDone(p, w, k) || l.Commit?;
      assert PageQuarantined(p, w', k) ==> PageQuarantined(p, w, k) || l.SetAside?;
    }
  }

  lemma BehindStep(p: Plan, w: World, l: Label, k: nat)
    requires ValidPlan(p) && Inv(p, w) && !l.Requeue? && Next(p, w, l).Some?
    requires p.resumes && k < Next(p, w, l).value.frontier
    ensures Settled(p, Next(p, w, l).value, k)
  {
    AllOtherPages(p, w, l);
    if w.proc.Written? {
      PendingPageIsAhead(p, w);
    }
    if Alive(w.proc) && k == w.proc.page {
      assert l.Commit?;
    } else {
      assert Settled(p, w, k);
    }
  }

  lemma FrontierStep(p: Plan, w: World, l: Label)
    requires ValidPlan(p) && Inv(p, w) && !l.Requeue? && Next(p, w, l).Some?
    ensures FrontierInv(p, Next(p, w, l).value)
  {
    var w' := Next(p, w, l).value;
    AllDealtWith(p, w, l);
    forall k: nat | p.resumes && k < w'.frontier ensures Settled(p, w', k) {
      BehindStep(p, w, l, k);
    }
  }

  lemma AllDealtWith(p: Plan, w: World, l: Label)
    requires ValidPlan(p) && Inv(p, w) && !l.Requeue? && Next(p, w, l).Some?
    ensures var w' := Next(p, w, l).value;
            && (forall k: nat :: InRange(p, k) && k < w'.frontier ==>
                  PageDone(p, w', k) || VerdictAt(p, k) == Quarantine)
            && (w'.frontier > 0 ==> PageDone(p, w', w'.frontier - 1))
  {
    AllOtherPages(p, w, l);
    if w.proc.Written? {
      CommitDealsWith(p, w, l);
    } else if Alive(w.proc) {
      assert Next(p, w, l).value.frontier == w.frontier;
      assert PageDone(p, w, w.proc.page) ==> PageDone(p, Next(p, w, l).value, w.proc.page);
    }
  }

  lemma CommitDealsWith(p: Plan, w: World, l: Label)
    requires ValidPlan(p) && Inv(p, w) && w.proc.Written? && !l.Requeue? && Next(p, w, l).Some?
    ensures var w' := Next(p, w, l).value;
            && (forall k: nat :: InRange(p, k) && k < w'.frontier ==>
                  PageDone(p, w', k) || VerdictAt(p, k) == Quarantine)
            && (w'.frontier > 0 ==> PageDone(p, w', w'.frontier - 1))
  {
    AllOtherPages(p, w, l);
    PendingPageIsAhead(p, w);
  }

  /** A page about to be written or committed lies at or past the frontier. */
  lemma PendingPageIsAhead(p: Plan, w: World)
    requires ValidPlan(p) && Inv(p, w) && Alive(w.proc) && InRange(p, w.proc.page)
    requires !PageDone(p, w, w.proc.page) && VerdictAt(p, w.proc.page) == Accept
    ensures w.frontier <= w.proc.page
    ensures forall j: nat :: w.frontier <= j < w.proc.page ==> VerdictAt(p, j) == Quarantine
  {
    forall j: nat | w.frontier <= j < w.proc.page ensures VerdictAt(p, j) == Quarantine {
      assert InRange(p, j) && Settled(p, w, j);
    }
  }

  /** Pages that write nothing leave the ideal sink where it is. */
  lemma {:induction false} IdealFlat(p: Plan, a: nat, b: nat)
    requires a <= b && forall j: nat :: a <= j < b ==> !Writes(p, j)
    ensures Ideal(p, b) == Ideal(p, a)
  {
    if a < b {
      IdealFlat(p, a, b - 1);
    }
  }

  lemma ProcStep(p: Plan, w: World, l: Label)
    requires ValidPlan(p) && Inv(p, w) && !l.Requeue? && Next(p, w, l).Some?
    ensures ProcInv(p, Next(p, w, l).value)
  {
  }

  lemma PassedStep(p: Plan, w: World, l: Label)
    requires ValidPlan(p) && Inv(p, w) && !l.Requeue? && Next(p, w, l).Some?
    ensures PassedInv(p, Next(p, w, l).value)
  {
    forall j: nat | InRange(p, j) && (Alive(w.proc) ==> j != w.proc.page)
      ensures Settled(p, Next(p, w, l).value, j) == Settled(p, w, j)
    {
      OtherPages(p, w, l, j);
    }
  }

  /** At most one page is due: what was written last is at most one page ahead of the commits. */
  lemma OneDue(p: Plan, f: nat, h: nat, k: nat)
    requires Due(p, f, h) && f <= k && VerdictAt(p, k) == Accept
    ensures h <= k
  {
  }

  lemma LogWrite(p: Plan, w: World, times: nat)
    requires ValidPlan(p) && Inv(p, w) && w.proc.Fetched? && Next(p, w, Write(times)).Some?
    ensures LogInv(p, Next(p, w, Write(times)).value)
  {
    var k := w.proc.page;
    PendingPageIsAhead(p, w);
    assert Due(p, w.frontier, k);
    forall j | j in w.log ensures j <= k {
      if j >= w.frontier {
        OneDue(p, w.frontier, j, k);
      }
    }
    LogGrows(w.log, k, times);
  }

  lemma LogCommit(p: Plan, w: World)
    requires ValidPlan(p) && Inv(p, w) && w.proc.Written? && Next(p, w, Commit).Some?
    ensures LogInv(p, Next(p, w, Commit).value)
  {
    var w' := Next(p, w, Commit).value;
    PendingPageIsAhead(p, w);
    forall j | j in w.log ensures j < w'.frontier {
      if j >= w.frontier {
        OneDue(p, w.frontier, j, w.proc.page);
      }
    }
  }

  lemma LogStep(p: Plan, w: World, l: Label)
    requires ValidPlan(p) && Inv(p, w) && !l.Requeue? && Next(p, w, l).Some?
    ensures LogInv(p, Next(p, w, l).value)
  {
    if l.Write? {
      LogWrite(p, w, l.times);
    } else if l.Commit? {
      LogCommit(p, w);
    } else {
      LogStays(p, w, l);
    }
  }

  lemma LogStays(p: Plan, w: World, l: Label)
    requires ValidPlan(p) && Inv(p, w) && !l.Write? && !l.Commit? && Next(p, w, l).Some?
    ensures LogInv(p, Next(p, w, l).value)
  {
    var w' := Next(p, w, l).value;
    assert w'.log == w.log && w'.frontier == w.frontier;
  }

  lemma LogGrows(log: seq<nat>, k: nat, times: nat)
    requires Ordered(log) && (forall j :: j in log ==> j <= k) && times >= 1
    ensures Ordered(log + Repeat(k, times))
    ensures forall j :: j in log + Repeat(k, times) <==> j in log || j == k
  {
    var all := log + Repeat(k, times);
    assert all[|log|] == k;
    forall i, j | 0 <= i < j < |all| ensures all[i] <= all[j] {
      assert i < |log| ==> all[i] in log;
    }
  }

  /** In every schedule, requeues included, the sink is what was written to it. */
  lemma ReplayStep(p: Plan, w: World, l: Label)
    requires ReplayInv(p, w) && Next(p, w, l).Some?
    ensures ReplayInv(p, Next(p, w, l).value)
  {
    if l.Write? && w.proc.Fetched? {
      ReplayRepeat(p, w.log, w.proc.page, l.times);
      assert forall k :: k in w.log + Repeat(w.proc.page, l.times) ==> k in w.log || k == w.proc.page;
    }
  }

  /** Every step of a runner, a crash or a rerun keeps the invariant. */
  lemma InvStep(p: Plan, w: World, l: Label)
    requires ValidPlan(p) && Inv(p, w) && !l.Requeue? && Next(p, w, l).Some?
    ensures Inv(p, Next(p, w, l).value)
  {
    LiveStep(p, w, l);
    VerdictStep(p, w, l);
    FrontierStep(p, w, l);
    PassedStep(p, w, l);
    ProcStep(p, w, l);
    LogStep(p, w, l);
    ReplayStep(p, w, l);
  }

  lemma {:induction false} InvExec(p: Plan, w: World, labels: seq<Label>)
    requires ValidPlan(p) && Inv(p, w) && NoRequeue(labels) && Exec(p, w, labels).Some?
    ensures Inv(p, Exec(p, w, labels).value)
    decreases |labels|
  {
    if labels != [] {
      InvStep(p, w, labels[0]);
      InvExec(p, Next(p, w, labels[0]).value, labels[1..]);
    }
  }

  lemma {:induction false} LiveExec(p: Plan, w: World, labels: seq<Label>)
    requires ValidPlan(p) && LiveInv(p, w) && Exec(p, w, labels).Some?
    ensures LiveInv(p, Exec(p, w, labels).value)
    decreases |labels|
  {
    if labels != [] {
      LiveStep(p, w, labels[0]);
      LiveExec(p, Next(p, w, labels[0]).value, labels[1..]);
    }
  }

  lemma {:induction false} ReplayExec(p: Plan, w: World, labels: seq<Label>)
    requires ReplayInv(p, w) && Exec(p, w, labels).Some?
    ensures ReplayInv(p, Exec(p, w, labels).value)
    decreases |labels|
  {
    if labels != [] {
      ReplayStep(p, w, labels[0]);
      ReplayExec(p, Next(p, w, labels[0]).value, labels[1..]);
    }
  }

  lemma InitInv(p: Plan)
    ensures Inv(p, Init(p))
  {
  }
}
