/**
 The collection loop: for each unit register, skip if done, fetch with retries, judge, write,
 mark done. The process may die between any two durable effects.
 */
module Runner {
  import opened Rows
  import opened StateStore
  import opened Sinks
  import opened Protocol
  import opened RestSource
  import opened Runs
  import opened CrashEquivalence

  // ------------------------------------------------------------------ Retries

  /** How one attempt of a call comes out. */
  datatype Attempt = Succeeds | Retryable | AuthExpired | Fatal

  /** with_retry from attempt number `t` on: only a retryable error is tried again. */
  function Retried(script: nat -> Attempt, t: nat, maxAttempts: nat): (Attempt, nat)
    decreases maxAttempts
  {
    if script(t).Retryable? && maxAttempts > 1 then Retried(script, t + 1, maxAttempts - 1)
    else (script(t), t + 1)
  }

  /** The login of a source: none, one whose refresh works, or one whose refresh raises. */
  datatype Auth = NoAuth | Refreshes | RefreshRaises

  /** One refresh and one more round of attempts when the first round met an expired login. */
  function RetriedWithRefresh(script: nat -> Attempt, t: nat, auth: Auth, maxAttempts: nat): (Attempt, nat) {
    var (last, t') := Retried(script, t, maxAttempts);
    if !last.AuthExpired? || auth.NoAuth? then (last, t')
    else if auth.RefreshRaises? then (Fatal, t')
    else Retried(script, t', maxAttempts)
  }

  /**
   A round makes at least one and at most max(1, maxAttempts) calls, stops at the first outcome that
   is not retryable, and gives up only when it has used all of them.
   */
  lemma {:induction false} RetryBudget(script: nat -> Attempt, t: nat, maxAttempts: nat)
    ensures var (last, t') := Retried(script, t, maxAttempts);
            && t < t' <= t + (if maxAttempts > 1 then maxAttempts else 1)
            && last == script(t' - 1)
            && (forall i: nat :: t <= i < t' - 1 ==> script(i).Retryable?)
            && (last.Retryable? ==> t' == t + if maxAttempts > 1 then maxAttempts else 1)
    decreases maxAttempts
  {
    if script(t).Retryable? && maxAttempts > 1 {
      RetryBudget(script, t + 1, maxAttempts - 1);
    }
  }

  /**
   One round makes calls t to n: each but the last failed in a way that is worth retrying, and if the
   last did as well, all attempts are used up.
   */
  ghost predicate Round(script: nat -> Attempt, t: nat, n: nat, maxAttempts: nat) {
    var budget := if maxAttempts > 1 then maxAttempts else 1;
    && t <= n < t + budget
    && (forall i: nat :: t <= i < n ==> script(i).Retryable?)
    && (script(n).Retryable? ==> n + 1 == t + budget)
  }

  lemma RoundIsUnique(script: nat -> Attempt, t: nat, a: nat, b: nat, maxAttempts: nat)
    requires Round(script, t, a, maxAttempts) && Round(script, t, b, maxAttempts)
    ensures a == b
  {
  }

  lemma RetriedIsRound(script: nat -> Attempt, t: nat, maxAttempts: nat) returns (n: nat)
    ensures Round(script, t, n, maxAttempts) && Retried(script, t, maxAttempts) == (script(n), n + 1)
  {
    RetryBudget(script, t, maxAttempts);
    n := Retried(script, t, maxAttempts).1 - 1;
  }

  /**
   How a fetch goes, in terms of its calls: the first round ends with call n and the fetch with call m.
   Only if call n met an expired login and the refresh works is there another round, right after it, which
   decides; a refresh that raises ends the fetch, and so does everything else.
   */
  ghost predicate FetchGoes(
    script: nat -> Attempt, t: nat, auth: Auth, maxAttempts: nat, n: nat, m: nat, last: Attempt)
  {
    && Round(script, t, n, maxAttempts)
    && if script(n).AuthExpired? && auth.Refreshes?
       then Round(script, n + 1, m, maxAttempts) && last == script(m)
       else m == n && last == if script(n).AuthExpired? && auth.RefreshRaises? then Fatal else script(n)
  }

  lemma RefreshGoes(script: nat -> Attempt, t: nat, auth: Auth, maxAttempts: nat) returns (n: nat, m: nat)
    ensures var (last, t') := RetriedWithRefresh(script, t, auth, maxAttempts);
            t' == m + 1 && FetchGoes(script, t, auth, maxAttempts, n, m, last)
  {
    n := RetriedIsRound(script, t, maxAttempts);
    m := n;
    if script(n).AuthExpired? && auth.Refreshes? {
      m := RetriedIsRound(script, n + 1, maxAttempts);
    }
  }

  /**
   A fetch comes through if and only if the first round ends with a success, or with an expired login
   that can be refreshed and then a second round that ends with a success.
   */
  lemma ComesThroughIff(script: nat -> Attempt, t: nat, auth: Auth, maxAttempts: nat)
    ensures RetriedWithRefresh(script, t, auth, maxAttempts).0.Succeeds? <==>
            || (exists n: nat :: Round(script, t, n, maxAttempts) && script(n).Succeeds?)
            || (exists n: nat, m: nat ::
                  && Round(script, t, n, maxAttempts) && script(n).AuthExpired? && auth.Refreshes?
                  && Round(script, n + 1, m, maxAttempts) && script(m).Succeeds?)
  {
    var n, m := RefreshGoes(script, t, auth, maxAttempts);
    forall k: nat | Round(script, t, k, maxAttempts) ensures k == n {
      RoundIsUnique(script, t, k, n, maxAttempts);
    }
    if script(n).AuthExpired? && auth.Refreshes? {
      var next := n + 1;
      forall k: nat | Round(script, next, k, maxAttempts) ensures k == m {
        RoundIsUnique(script, next, k, m, maxAttempts);
      }
    }
  }

  method WithRetry(script: nat -> Attempt, t: nat, maxAttempts: nat) returns (last: Attempt, t': nat)
    ensures (last, t') == Retried(script, t, maxAttempts)
  {
    var left := maxAttempts;
    last, t' := script(t), t + 1;
    while last.Retryable? && left > 1
      invariant t' > 0 && last == script(t' - 1)
      invariant Retried(script, t, maxAttempts) == Retried(script, t' - 1, left)
      decreases left
    {
      last, t', left := script(t'), t' + 1, left - 1;
    }
  }

  method FetchWithAuthRefresh(script: nat -> Attempt, t: nat, auth: Auth, maxAttempts: nat)
    returns (last: Attempt, t': nat, refreshes: nat)
    ensures (last, t') == RetriedWithRefresh(script, t, auth, maxAttempts)
    ensures exists n: nat, m: nat :: t' == m + 1 && FetchGoes(script, t, auth, maxAttempts, n, m, last)
    ensures t < t' <= t + 2 * (if maxAttempts > 1 then maxAttempts else 1)
    ensures refreshes == if Retried(script, t, maxAttempts).0.AuthExpired? && !auth.NoAuth? then 1 else 0
  {
    ghost var n, m := RefreshGoes(script, t, auth, maxAttempts);
    RetryBudget(script, t, maxAttempts);
    last, t' := WithRetry(script, t, maxAttempts);
    refreshes := 0;
    if last.AuthExpired? && !auth.NoAuth? {
      refreshes := 1;
      if auth.RefreshRaises? {
        last := Fatal;
        return;
      }
      RetryBudget(script, t', maxAttempts);
      last, t' := WithRetry(script, t', maxAttempts);
    }
  }

  /** Every fetch comes through within its attempts and its one refresh. */
  ghost predicate FetchesSucceed(script: nat -> Attempt, auth: Auth, maxAttempts: nat) {
    forall t: nat :: RetriedWithRefresh(script, t, auth, maxAttempts).0.Succeeds?
  }

  // ------------------------------------------------------------------ The sink

  class SinkStore {
    const backend: Backend
    var contents: Sink

    constructor (backend: Backend, contents: Sink)
      ensures this.backend == backend && this.contents == contents
    {
      this.backend, this.contents := backend, contents;
    }

    /**
     An atomic write. A batch the database rejects fails; another one succeeds in a calm run, and
     else may be reported as failed although it landed.
     */
    method Write(uid: UnitId, batch: seq<Row>, calm: bool) returns (ok: bool, ghost landed: bool)
      modifies this
      ensures contents == if landed then backend.put(old(contents), uid, batch) else old(contents)
      ensures (ok ==> landed) && (landed ==> backend.takes(batch))
      ensures calm && backend.takes(batch) ==> ok
    {
      if !backend.takes(batch) {
        return false, false;
      }
      var early := Strikes(!calm);
      if early {
        return false, false;
      }
      contents := backend.put(contents, uid, batch);
      var late := Strikes(!calm);
      ok, landed := !late, true;
    }

    /** Retried writes: the batch lands any number of times up to the attempts made, one after the other. */
    method WriteWithRetry(uid: UnitId, batch: seq<Row>, maxAttempts: nat, calm: bool)
      returns (ok: bool, ghost times: nat)
      modifies this
      ensures contents == Land(backend, old(contents), uid, batch, times)
      ensures times <= if maxAttempts > 1 then maxAttempts else 1
      ensures (ok ==> times >= 1) && (times >= 1 ==> backend.takes(batch))
      ensures calm && backend.takes(batch) ==> ok
    {
      ghost var landed;
      ok, landed := Write(uid, batch, calm);
      times := if landed then 1 else 0;
      var attempts := 1;
      while !ok && attempts < maxAttempts
        invariant contents == Land(backend, old(contents), uid, batch, times)
        invariant times <= attempts && (attempts == 1 || attempts <= maxAttempts)
        invariant (ok ==> times >= 1) && (times >= 1 ==> backend.takes(batch))
        invariant calm && backend.takes(batch) ==> ok
        decreases maxAttempts - attempts
      {
        var fatal: bool := *;
        if fatal {
          return;
        }
        ok, landed := Write(uid, batch, calm);
        times := if landed then times + 1 else times;
        attempts := attempts + 1;
      }
    }
  }

  // ------------------------------------------------------------------ The loop

  datatype Outcome = Returned(report: RunReport) | Raised | Died

  /** The cursor the store holds when the frontier is `f`. */
  function StoredCursor(chain: seq<Option<string>>, f: nat): Option<string> {
    if f == 0 then None
    else if f < |chain| then chain[f]
    else Some(SOURCE_EXHAUSTED)
  }

  /** The durable state is the one the protocol state describes. */
  ghost predicate Represents(cfg: Config, chain: seq<Option<string>>, w: World, saved: Saved, contents: Sink) {
    && w.units == saved.units && w.snapshot == saved.schema && w.sink == contents
    && (Resumes(cfg.pagination.mode) ==> saved.cursor == StoredCursor(chain, w.frontier))
  }

  /** The step neither stores a schema nor forgets that one was stored. */
  ghost predicate KeepsSnapshot(w: World, w': World) {
    w'.snapshot == w.snapshot && w'.recorded == w.recorded
  }

  /** The unit was recorded as failed. */
  predicate MarkedFailed(units: Units, uid: UnitId) {
    uid in units && units[uid].status == Failed
  }

  /** The report after one more step. */
  function Bump(r: RunReport, l: Label): RunReport {
    if l.Fetch? then r.(fetched := r.fetched + 1)
    else if l.Write? then r.(written := r.written + 1)
    else if l.Skip? then r.(skipped := r.skipped + 1)
    else if l.SetAside? then r.(quarantined := r.quarantined + 1)
    else r
  }

  // ------------------------------------------------------------------ Trips

  /** The steps a run has taken so far, the last one first. */
  datatype Trip = Stay | Go(before: Trip, at: World, l: Label)

  /** The trip leads from `w0` to `w` within one run. */
  ghost predicate Travels(p: Plan, w0: World, trip: Trip, w: World)
    decreases trip
  {
    match trip
    case Stay => w == w0
    case Go(before, at, l) =>
      Travels(p, w0, before, at) && !l.Start? && !l.Requeue? && Next(p, at, l) == Some(w)
  }

  function Report(trip: Trip): RunReport {
    match trip
    case Stay => RunReport(0, 0, 0, 0)
    case Go(before, _, l) => Bump(Report(before), l)
  }

  function Labels(trip: Trip): seq<Label> {
    match trip
    case Stay => []
    case Go(before, _, l) => Labels(before) + [l]
  }

  lemma {:induction false} CountSnoc(a: seq<Label>, l: Label, kind: Kind)
    ensures Count(a + [l], kind) == Count(a, kind) + if IsKind(l, kind) then 1 else 0
  {
    if a == [] {
      assert [] + [l] == [l] && [l][1..] == [];
    } else {
      assert (a + [l])[0] == a[0] && (a + [l])[1..] == a[1..] + [l];
      CountSnoc(a[1..], l, kind);
    }
  }

  lemma TallySnoc(a: seq<Label>, l: Label)
    ensures Tally(a + [l]) == Bump(Tally(a), l)
  {
    CountSnoc(a, l, Fetches);
    CountSnoc(a, l, Writings);
    CountSnoc(a, l, Skips);
    CountSnoc(a, l, Quarantines);
  }

  lemma OneRunSnoc(run: seq<Label>, l: Label)
    requires OneRun(run) && !l.Start? && !l.Requeue?
    ensures OneRun(run + [l])
  {
  }

  lemma ExecOne(p: Plan, w: World, l: Label)
    requires Next(p, w, l).Some?
    ensures Exec(p, w, [l]) == Next(p, w, l)
  {
    assert [l][1..] == [];
  }

  /** A trip is a run of the protocol, and its report counts that run. */
  lemma {:induction false} TripIsRun(p: Plan, w0: World, trip: Trip, w: World)
    requires Travels(p, w0, trip, w)
    ensures OneRun(Labels(trip)) && Exec(p, w0, Labels(trip)) == Some(w) && Tally(Labels(trip)) == Report(trip)
  {
    if trip.Go? {
      TripIsRun(p, w0, trip.before, trip.at);
      OneRunSnoc(Labels(trip.before), trip.l);
      ExecAppend(p, w0, Labels(trip.before), [trip.l]);
      ExecOne(p, trip.at, trip.l);
      TallySnoc(Labels(trip.before), trip.l);
    }
  }

  /** Schema drift that does not stop a run at its start does not stop it later. */
  lemma {:induction false} TripGoesOn(p: Plan, w0: World, trip: Trip, w: World)
    requires ValidPlan(p) && LiveInv(p, w0) && !w0.proc.Running? && GoesOn(p, w0) && Travels(p, w0, trip, w)
    ensures LiveInv(p, w) && GoesOn(p, w) && (w.proc.Running? ==> !PageDone(p, w, w.proc.page))
  {
    if trip.Go? {
      TripGoesOn(p, w0, trip.before, trip.at);
      GoesOnStep(p, trip.at, trip.l);
      OpenStep(p, trip.at, trip.l);
    }
  }

  /** One more step of a run: where it leads, what it keeps and that it goes forward. */
  lemma Take(p: Plan, w0: World, trip: Trip, w: World, l: Label) returns (trip': Trip, w': World)
    requires ValidPlan(p) && Travels(p, w0, trip, w) && LiveInv(p, w)
    requires !l.Start? && !l.Requeue? && Next(p, w, l).Some?
    ensures Travels(p, w0, trip', w') && LiveInv(p, w')
    ensures Next(p, w, l) == Some(w') && Rank(p, w') < Rank(p, w)
    ensures Report(trip') == Bump(Report(trip), l)
  {
    trip', w' := Go(trip, w, l), Next(p, w, l).value;
    RankStep(p, w, l);
  }

  /** The process dies: nothing stored changes, and nothing more is counted. */
  lemma Die(p: Plan, w0: World, trip: Trip, w: World) returns (trip': Trip, w': World)
    requires ValidPlan(p) && Travels(p, w0, trip, w) && LiveInv(p, w) && !w.proc.Down?
    ensures Travels(p, w0, trip', w') && LiveInv(p, w')
    ensures w' == w.(proc := Down) && Rank(p, w') < Rank(p, w) && Report(trip') == Report(trip)
  {
    trip', w' := Take(p, w0, trip, w, Crash);
  }

  /** The state after the commit of a page. */
  function Finished(p: Plan, w: World): World
    requires w.proc.Written?
  {
    var k := w.proc.page;
    w.(units := SetDone(w.units, p.unitAt(k), |p.rowsAt(k)|),
       frontier := Advance(p, w.frontier, k),
       proc := After(p, k))
  }

  /** A page is done, and the protocol goes on to the next one or has got to its end. */
  lemma Finish(p: Plan, w0: World, trip: Trip, w: World) returns (trip': Trip, w': World)
    requires ValidPlan(p) && Travels(p, w0, trip, w) && LiveInv(p, w) && w.proc.Written?
    ensures Travels(p, w0, trip', w') && LiveInv(p, w')
    ensures Rank(p, w') < Rank(p, w) && Report(trip') == Report(trip)
    ensures w' == Finished(p, w)
  {
    trip', w' := Take(p, w0, trip, w, Commit);
  }

  /** The generator, resumed now, yields page k, and the source has not seen the end yet. */
  ghost predicate Positioned(source: Source, chain: seq<Option<string>>, k: nat)
    reads source
  {
    match source.cfg.pagination.mode
    case Offset => source.counter == OffsetAt(k, source.cfg.pagination.size)
    case Page => source.counter == source.cfg.pagination.startPage + k
    case _ => k < |chain| && source.pendingCursor == chain[k] && !source.cursorExhausted
  }

  /** The generator, resumed now, yields the page the protocol is at, or has ended where it has. */
  ghost predicate Fresh(source: Source, chain: seq<Option<string>>, proc: Proc)
    reads source
  {
    if proc.At? then Positioned(source, chain, proc.page)
    else proc.Completed? && source.Upcoming().None?
  }

  /** How one turn of the loop ends. */
  datatype Turn =
    | Skipped
    | Settled(wrote: bool, setAside: bool, exhausted: bool)
    | Abandoned
    | Killed

  /** What became of a page that was fetched. */
  function Fate(turn: Turn): Label
    requires turn.Settled?
  {
    if turn.wrote then Write(1) else if turn.setAside then SetAside("") else NoData
  }

  /** The counters of the report after a turn. */
  function AfterTurn(report: RunReport, turn: Turn): RunReport {
    match turn
    case Skipped => Bump(report, Skip)
    case Settled(_, _, _) => Bump(Bump(report, Fetch), Fate(turn))
    case _ => report
  }

  /** The plan is the one the configuration gives rise to over this traversal. */
  ghost predicate Serving(cfg: Config, chain: seq<Option<string>>, p: Plan) {
    && ValidPlan(p) && Served(cfg, chain, p.last)
    && p.resumes == Resumes(cfg.pagination.mode) && p.backend == cfg.backend
    && p.schemaOf == cfg.schemaOf && p.blocksDrift == cfg.blocksDrift
    && (forall k: nat :: p.unitAt(k) == UnitFor(cfg, PayloadAt(cfg, chain, k)))
    && (forall k: nat :: p.rowsAt(k) == if k > p.last then [] else FetchOf(cfg, PayloadAt(cfg, chain, k)).rows)
    && (forall rows :: p.judge(rows) == JudgeOf(cfg, rows))
  }

  lemma PlanServes(cfg: Config, chain: seq<Option<string>>, last: nat)
    requires Served(cfg, chain, last) && ValidPlan(PlanOf(cfg, chain, last))
    ensures Serving(cfg, chain, PlanOf(cfg, chain, last))
  {
  }

  lemma TakeWrite(p: Plan, w0: World, trip: Trip, w: World, times: nat) returns (trip': Trip, w': World)
    requires ValidPlan(p) && Travels(p, w0, trip, w) && LiveInv(p, w) && w.proc.Fetched?
    requires Writes(p, w.proc.page) && p.backend.takes(p.rowsAt(w.proc.page)) && times >= 1
    ensures Travels(p, w0, trip', w') && LiveInv(p, w') && Rank(p, w') < Rank(p, w)
    ensures var k := w.proc.page;
            w' == w.(
              sink := Land(p.backend, w.sink, p.unitAt(k), p.rowsAt(k), times),
              log := w.log + Repeat(k, times),
              proc := Written(k))
    ensures Report(trip') == Bump(Report(trip), Write(1))
  {
    trip', w' := Take(p, w0, trip, w, Write(times));
  }

  lemma TakeWriteFail(p: Plan, w0: World, trip: Trip, w: World, why: string) returns (trip': Trip, w': World)
    requires ValidPlan(p) && Travels(p, w0, trip, w) && LiveInv(p, w)
    requires (w.proc.Fetched? || w.proc.Written?) && Writes(p, w.proc.page)
    ensures Travels(p, w0, trip', w') && LiveInv(p, w') && Rank(p, w') < Rank(p, w)
    ensures w' == w.(units := SetStatus(w.units, p.unitAt(w.proc.page), Failed, Some(why)), proc := Down)
    ensures MarkedFailed(w'.units, p.unitAt(w.proc.page))
  {
    trip', w' := Take(p, w0, trip, w, WriteFail(why));
  }

  /** Sink first: the write with its retries, or the failure it ends in. */
  method WritePage(
    cfg: Config, store: StateStore, sink: SinkStore, unit: UnitSpec, rows: seq<Row>, maxAttempts: nat, calm: bool,
    ghost p: Plan, ghost w0: World, ghost trip0: Trip, ghost fetched: World)
    returns (ok: bool, ghost trip: Trip, ghost w: World)
    requires ValidPlan(p) && Travels(p, w0, trip0, fetched) && LiveInv(p, fetched) && fetched.proc.Fetched?
    requires fetched.units == store.units && fetched.sink == sink.contents && sink.backend == p.backend
    requires unit.uid == p.unitAt(fetched.proc.page) && rows == p.rowsAt(fetched.proc.page)
    requires Writes(p, fetched.proc.page)
    modifies store`units, sink
    ensures Travels(p, w0, trip, w) && LiveInv(p, w) && Rank(p, w) < Rank(p, fetched)
    ensures w.units == store.units && w.sink == sink.contents && w.frontier == fetched.frontier
    ensures KeepsSnapshot(fetched, w)
    ensures w.proc == if ok then Written(fetched.proc.page) else Down
    ensures !ok ==> MarkedFailed(store.units, unit.uid)
    ensures ok ==> Report(trip) == Bump(Report(trip0), Write(1))
    ensures calm && p.backend.takes(rows) ==> ok
  {
    trip, w := trip0, fetched;
    ghost var times;
    ok, times := sink.WriteWithRetry(unit.uid, rows, maxAttempts, calm);
    if times >= 1 {
      trip, w := TakeWrite(p, w0, trip, w, times);
    }
    if !ok {
      store.MarkFailed(unit.uid, "write");
      trip, w := TakeWriteFail(p, w0, trip, w, "write");
    }
  }

  /** The cursor committed with a page: that of the next page, or the end. */
  function CursorAfter(result: FetchResult): string {
    if result.nextCursor.Some? then result.nextCursor.value else SOURCE_EXHAUSTED
  }

  /** What was fetched is page k of the plan, and its cursor is the one that names the page after it. */
  ghost predicate InHand(
    cfg: Config, chain: seq<Option<string>>, p: Plan, k: nat, unit: UnitSpec, result: FetchResult)
  {
    && p.resumes == Resumes(cfg.pagination.mode)
    && unit.uid == p.unitAt(k) && result.rows == p.rowsAt(k)
    && (result.rows != [] ==> VerdictAt(p, k) == JudgeOf(cfg, result.rows))
    && (p.resumes ==> StoredCursor(chain, k + 1) == Some(CursorAfter(result)))
  }

  lemma ServedIsInHand(
    cfg: Config, chain: seq<Option<string>>, p: Plan, k: nat, unit: UnitSpec, result: FetchResult)
    requires Serving(cfg, chain, p) && InRange(p, k)
    requires unit.payload == PayloadAt(cfg, chain, k) && unit.uid == UnitFor(cfg, unit.payload)
    requires result == FetchOf(cfg, unit.payload)
    ensures InHand(cfg, chain, p, k, unit, result)
  {
    PlanMatchesServer(cfg, chain, p, k);
    assert p.resumes ==> result.nextCursor == Following(chain, k);
  }

  lemma ServedRows(cfg: Config, chain: seq<Option<string>>, p: Plan, k: nat)
    requires Serving(cfg, chain, p) && InRange(p, k)
    ensures p.rowsAt(k) == FetchOf(cfg, PayloadAt(cfg, chain, k)).rows
  {
  }

  /** One commit: done, and in cursor and link mode the cursor that names the next page, or the end. */
  method StoreDone(
    cfg: Config, store: StateStore, unit: UnitSpec, result: FetchResult,
    ghost chain: seq<Option<string>>, ghost p: Plan, ghost w: World)
    requires w.proc.Written? && InHand(cfg, chain, p, w.proc.page, unit, result)
    requires w.units == store.units && w.snapshot == store.LastSchema(cfg.pipeline)
    modifies store`units, store`cursors
    ensures Represents(cfg, chain, Finished(p, w), store.State(cfg.pipeline, cfg.url), w.sink)
    ensures store.units == SetDone(old(store.units), unit.uid, |result.rows|)
    ensures Resumes(cfg.pagination.mode) ==> store.GetCursor(cfg.pipeline, cfg.url) == Some(CursorAfter(result))
  {
    if Resumes(cfg.pagination.mode) {
      store.MarkDoneAndAdvanceCursor(unit.uid, cfg.pipeline, cfg.url, CursorAfter(result), |result.rows|);
    } else {
      store.MarkDone(unit.uid, |result.rows|);
    }
  }

  /** Then done, together with the cursor when there is one, unless the process dies before. */
  method CommitPage(
    cfg: Config, store: StateStore, unit: UnitSpec, result: FetchResult, calm: bool,
    ghost chain: seq<Option<string>>, ghost p: Plan, ghost w0: World, ghost trip0: Trip, ghost written: World)
    returns (committed: bool, ghost trip: Trip, ghost w: World)
    requires ValidPlan(p) && Travels(p, w0, trip0, written) && LiveInv(p, written) && written.proc.Written?
    requires Represents(cfg, chain, written, store.State(cfg.pipeline, cfg.url), written.sink)
    requires InHand(cfg, chain, p, written.proc.page, unit, result)
    modifies store`units, store`cursors
    ensures Travels(p, w0, trip, w) && LiveInv(p, w) && Report(trip) == Report(trip0)
    ensures Rank(p, w) < Rank(p, written) && KeepsSnapshot(written, w)
    ensures Represents(cfg, chain, w, store.State(cfg.pipeline, cfg.url), written.sink)
    ensures w.proc == if committed then After(p, written.proc.page) else Down
    ensures committed ==> unit.uid in store.units && store.units[unit.uid].status == Done
    ensures committed ==> store.units[unit.uid].rowCount == Some(|result.rows|)
    ensures committed && Resumes(cfg.pagination.mode) ==>
              store.GetCursor(cfg.pipeline, cfg.url) ==
              if result.nextCursor.Some? then result.nextCursor else Some(SOURCE_EXHAUSTED)
    ensures calm ==> committed
  {
    var dies := Strikes(!calm);
    if dies {
      trip, w := Die(p, w0, trip0, written);
      return false, trip, w;
    }
    StoreDone(cfg, store, unit, result, chain, p, written);
    trip, w := Finish(p, w0, trip0, written);
    committed := true;
  }

  /** The first gate that does not accept decides. */
  method Gate(cfg: Config, rows: seq<Row>) returns (verdict: Verdict)
    ensures verdict == Accept <==> cfg.contract(rows) == Accept && cfg.validation(rows) == Accept
    ensures verdict == Block <==>
            cfg.contract(rows) == Block || (cfg.contract(rows) == Accept && cfg.validation(rows) == Block)
  {
    verdict := cfg.contract(rows);
    if verdict == Accept {
      verdict := cfg.validation(rows);
    }
  }

  /** A page with violations fails its unit, or is set aside. */
  method TurnAway(
    store: StateStore, unit: UnitSpec, verdict: Verdict,
    ghost p: Plan, ghost w0: World, ghost trip0: Trip, ghost fetched: World)
    returns (ghost trip: Trip, ghost w: World)
    requires ValidPlan(p) && Travels(p, w0, trip0, fetched) && LiveInv(p, fetched) && fetched.proc.Fetched?
    requires fetched.units == store.units && unit.uid == p.unitAt(fetched.proc.page)
    requires verdict == VerdictAt(p, fetched.proc.page) != Accept
    modifies store`units
    ensures Travels(p, w0, trip, w) && LiveInv(p, w) && Rank(p, w) < Rank(p, fetched)
    ensures w.units == store.units && w.sink == fetched.sink && w.frontier == fetched.frontier
    ensures KeepsSnapshot(fetched, w)
    ensures unit.uid in store.units
    ensures store.units[unit.uid].status == if verdict == Block then Failed else Quarantined
    ensures w.proc == if verdict == Block then Down else After(p, fetched.proc.page)
    ensures Report(trip) == if verdict == Block then Report(trip0) else Bump(Report(trip0), SetAside(""))
  {
    if verdict == Block {
      store.MarkFailed(unit.uid, "blocked");
      trip, w := Take(p, w0, trip0, fetched, Refuse("blocked"));
    } else {
      store.MarkQuarantined(unit.uid, "violations");
      trip, w := Take(p, w0, trip0, fetched, SetAside("violations"));
    }
  }

  /** What follows a fetch up to the commit: gates, quarantine or the write, unless the process dies before. */
  method JudgePage(
    cfg: Config, store: StateStore, sink: SinkStore, unit: UnitSpec, result: FetchResult, maxAttempts: nat, calm: bool,
    ghost p: Plan, ghost w0: World, ghost trip0: Trip, ghost fetched: World)
    returns (early: Option<Turn>, ghost trip: Trip, ghost w: World)
    requires ValidPlan(p) && Travels(p, w0, trip0, fetched) && LiveInv(p, fetched) && fetched.proc.Fetched?
    requires fetched.units == store.units && fetched.sink == sink.contents && sink.backend == p.backend
    requires unit.uid == p.unitAt(fetched.proc.page) && result.rows == p.rowsAt(fetched.proc.page)
    requires result.rows != [] ==> VerdictAt(p, fetched.proc.page) == JudgeOf(cfg, result.rows)
    modifies store`units, sink
    ensures Travels(p, w0, trip, w) && LiveInv(p, w) && Rank(p, w) < Rank(p, fetched)
    ensures w.units == store.units && w.sink == sink.contents && w.frontier == fetched.frontier
    ensures KeepsSnapshot(fetched, w)
    ensures early.None? ==> w.proc == Written(fetched.proc.page)
    ensures early == Some(Abandoned) ==> MarkedFailed(store.units, unit.uid)
    ensures early.None? ==> Report(trip) == Bump(Report(trip0), Fate(Settled(result.rows != [], false, false)))
    ensures early.Some? ==>
              early.value.Abandoned? || early.value.Killed? || early.value == Settled(false, true, result.exhausted)
    ensures early.Some? && !early.value.Settled? ==> w.proc.Down?
    ensures early.Some? && early.value.Settled? ==>
              w.proc == After(p, fetched.proc.page) && Report(trip) == Bump(Report(trip0), Fate(early.value))
    ensures calm && !Refused(p, fetched.proc.page) ==> early.None? || early.value.Settled?
  {
    early, trip, w := None, trip0, fetched;
    var dies := Strikes(!calm);
    if dies {
      trip, w := Die(p, w0, trip, w);
      return Some(Killed), trip, w;
    }
    if result.rows == [] {
      trip, w := Take(p, w0, trip, w, NoData);
      return;
    }
    var verdict := Gate(cfg, result.rows);
    if verdict != Accept {
      trip, w := TurnAway(store, unit, verdict, p, w0, trip, w);
      early := Some(if verdict == Block then Abandoned else Settled(false, true, result.exhausted));
      return;
    }
    var ok;
    ok, trip, w := WritePage(cfg, store, sink, unit, result.rows, maxAttempts, calm, p, w0, trip, w);
    early := if ok then None else Some(Abandoned);
  }

  lemma PlanMatchesServer(cfg: Config, chain: seq<Option<string>>, p: Plan, k: nat)
    requires Serving(cfg, chain, p) && InRange(p, k)
    ensures FetchOf(cfg, PayloadAt(cfg, chain, k)).rows == p.rowsAt(k)
    ensures FetchOf(cfg, PayloadAt(cfg, chain, k)).exhausted ==> k >= p.last
    ensures k >= p.last && !FetchOf(cfg, PayloadAt(cfg, chain, k)).exhausted ==>
              && Resumes(cfg.pagination.mode)
              && FetchOf(cfg, PayloadAt(cfg, chain, k)).nextCursor == Some(SOURCE_EXHAUSTED)
    ensures p.rowsAt(k) != [] ==>
              VerdictAt(p, k) == JudgeOf(cfg, p.rowsAt(k))
  {
  }

  lemma TakeRegister(p: Plan, w0: World, trip: Trip, w: World) returns (trip': Trip, w': World)
    requires ValidPlan(p) && Travels(p, w0, trip, w) && LiveInv(p, w) && w.proc.At?
    ensures Travels(p, w0, trip', w') && LiveInv(p, w') && Rank(p, w') < Rank(p, w) && Report(trip') == Report(trip)
    ensures var k := w.proc.page;
            && w' == w.(units := RegisterUnit(w.units, p.unitAt(k)), proc := Registered(k))
            && PageDone(p, w', k) == PageDone(p, w, k)
  {
    trip', w' := Take(p, w0, trip, w, Register);
  }

  lemma TakeMarkRunning(p: Plan, w0: World, trip: Trip, w: World) returns (trip': Trip, w': World)
    requires ValidPlan(p) && Travels(p, w0, trip, w) && LiveInv(p, w)
    requires w.proc.Registered? && !PageDone(p, w, w.proc.page)
    ensures Travels(p, w0, trip', w') && LiveInv(p, w') && Rank(p, w') < Rank(p, w) && Report(trip') == Report(trip)
    ensures var k := w.proc.page;
            w' == w.(units := SetStatus(w.units, p.unitAt(k), Status.Running, None), proc := Proc.Running(k))
  {
    trip', w' := Take(p, w0, trip, w, MarkRunning);
  }

  /** Register, skip a unit that is done, mark the others running. */
  method BeginUnit(
    store: StateStore, unit: UnitSpec, calm: bool, ghost p: Plan, ghost w0: World, ghost trip0: Trip, ghost at: World)
    returns (early: Option<Turn>, ghost trip: Trip, ghost w: World)
    requires ValidPlan(p) && Travels(p, w0, trip0, at) && LiveInv(p, at) && at.proc.At? && at.units == store.units
    requires unit.uid == p.unitAt(at.proc.page)
    modifies store`units
    ensures Travels(p, w0, trip, w) && LiveInv(p, w) && Rank(p, w) < Rank(p, at)
    ensures w.units == store.units && w.sink == at.sink && w.frontier == at.frontier
    ensures KeepsSnapshot(at, w)
    ensures early.None? ==> w.proc == Proc.Running(at.proc.page) && Report(trip) == Report(trip0)
    ensures early.None? ==> !PageDone(p, at, at.proc.page)
    ensures early.None? ==> unit.uid in store.units && store.units[unit.uid].status == Status.Running
    ensures early.Some? ==> early.value.Skipped? || early.value.Killed?
    ensures early.Some? && early.value.Skipped? ==>
              && w.proc == AfterSkip(p, at.proc.page) && PageDone(p, at, at.proc.page)
              && Report(trip) == Bump(Report(trip0), Skip)
    ensures early.Some? && early.value.Killed? ==> w.proc.Down? && !calm
  {
    early, trip, w := None, trip0, at;
    store.Register(unit.uid);
    trip, w := TakeRegister(p, w0, trip, w);
    var dies := Strikes(!calm);
    if dies {
      trip, w := Die(p, w0, trip, w);
      return Some(Killed), trip, w;
    }
    if unit.uid in store.units && store.units[unit.uid].status == Done {
      trip, w := Take(p, w0, trip, w, Skip);
      return Some(Skipped), trip, w;
    }
    store.MarkRunning(unit.uid);
    trip, w := TakeMarkRunning(p, w0, trip, w);
  }

  /** The schema of the first page with data that a run fetches is compared with the last one and stored. */
  method Admit(
    cfg: Config, store: StateStore, unit: UnitSpec, rows: seq<Row>, recorded: bool,
    ghost p: Plan, ghost w0: World, ghost trip0: Trip, ghost running: World)
    returns (drifts: bool, recorded': bool, ghost trip: Trip, ghost w: World)
    requires ValidPlan(p) && Travels(p, w0, trip0, running) && LiveInv(p, running)
    requires running.proc.Running? && running.units == store.units
    requires running.snapshot == store.LastSchema(cfg.pipeline) && running.recorded == recorded
    requires unit.uid == p.unitAt(running.proc.page) && rows == p.rowsAt(running.proc.page)
    requires p.schemaOf == cfg.schemaOf && p.blocksDrift == cfg.blocksDrift
    modifies store`units, store`snapshots
    ensures Travels(p, w0, trip, w) && LiveInv(p, w) && Rank(p, w) < Rank(p, running)
    ensures w.units == store.units && w.sink == running.sink && w.frontier == running.frontier
    ensures w.snapshot == store.LastSchema(cfg.pipeline) && w.recorded == recorded'
    ensures drifts == Drifts(p, running, running.proc.page)
    ensures drifts ==> w.proc.Down? && MarkedFailed(store.units, unit.uid)
    ensures !drifts ==> w.proc == Fetched(running.proc.page) && Report(trip) == Bump(Report(trip0), Fetch)
  {
    drifts, recorded' := false, recorded;
    if !recorded && rows != [] {
      var schema, previous := cfg.schemaOf(rows), store.LastSchema(cfg.pipeline);
      if previous.Some? && previous.value != schema && cfg.blocksDrift {
        store.MarkFailed(unit.uid, "schema drift");
        trip, w := Take(p, w0, trip0, running, Drift("schema drift"));
        return true, recorded', trip, w;
      }
      store.SnapshotSchema(cfg.pipeline, schema);
      recorded' := true;
    }
    trip, w := Take(p, w0, trip0, running, Fetch);
  }

  /** The fetch with its retries and its one login refresh, unless the process dies before. */
  method TryFetch(
    cfg: Config, store: StateStore, source: Source, unit: UnitSpec,
    script: nat -> Attempt, t: nat, auth: Auth, maxAttempts: nat, calm: bool,
    ghost p: Plan, ghost w0: World, ghost trip0: Trip, ghost running: World)
    returns (early: Option<Turn>, result: FetchResult, t': nat, ghost trip: Trip, ghost w: World)
    requires ValidPlan(p) && Travels(p, w0, trip0, running) && LiveInv(p, running)
    requires running.proc.Running? && running.units == store.units
    requires unit.uid == p.unitAt(running.proc.page) && source.cfg == cfg
    modifies store`units, source`pendingCursor, source`cursorExhausted
    ensures Travels(p, w0, trip, w) && LiveInv(p, w) && KeepsSnapshot(running, w)
    ensures w.units == store.units && w.sink == running.sink && w.frontier == running.frontier
    ensures early.None? <== calm && RetriedWithRefresh(script, t, auth, maxAttempts).0.Succeeds?
    ensures early.None? ==> RetriedWithRefresh(script, t, auth, maxAttempts).0.Succeeds?
    ensures early.None? ==> w == running && trip == trip0 && result == FetchOf(cfg, unit.payload)
    ensures early.None? && Resumes(cfg.pagination.mode) ==>
              source.pendingCursor == result.nextCursor && source.cursorExhausted == result.nextCursor.None?
    ensures early.Some? ==> (early.value.Abandoned? || early.value.Killed?) && w.proc.Down?
    ensures early.Some? ==> Rank(p, w) < Rank(p, running)
    ensures early == Some(Abandoned) ==> MarkedFailed(store.units, unit.uid)
  {
    early, result, t', trip, w := None, FetchResult([], false, None), t, trip0, running;
    var dies := Strikes(!calm);
    if dies {
      trip, w := Die(p, w0, trip, w);
      early := Some(Killed);
      return;
    }
    var lastAttempt, refreshes;
    lastAttempt, t', refreshes := FetchWithAuthRefresh(script, t, auth, maxAttempts);
    if !lastAttempt.Succeeds? {
      store.MarkFailed(unit.uid, "fetch");
      trip, w := Take(p, w0, trip, w, FetchFail("fetch"));
      early := Some(Abandoned);
      return;
    }
    result := source.Fetch(unit);
  }

  /** A page that was fetched is in memory, unless its schema has changed and that is to block. */
  method FetchPage(
    cfg: Config, store: StateStore, source: Source, unit: UnitSpec, recorded: bool,
    script: nat -> Attempt, t: nat, auth: Auth, maxAttempts: nat, calm: bool,
    ghost p: Plan, ghost w0: World, ghost trip0: Trip, ghost running: World)
    returns (
      early: Option<Turn>, result: FetchResult, recorded': bool, t': nat, ghost trip: Trip, ghost w: World)
    requires ValidPlan(p) && Travels(p, w0, trip0, running) && LiveInv(p, running)
    requires running.proc.Running? && running.units == store.units
    requires running.snapshot == store.LastSchema(cfg.pipeline) && running.recorded == recorded
    requires unit.uid == p.unitAt(running.proc.page) && source.cfg == cfg
    requires p.rowsAt(running.proc.page) == FetchOf(cfg, unit.payload).rows
    requires p.schemaOf == cfg.schemaOf && p.blocksDrift == cfg.blocksDrift
    modifies store`units, store`snapshots, source`pendingCursor, source`cursorExhausted
    ensures Travels(p, w0, trip, w) && LiveInv(p, w) && Rank(p, w) < Rank(p, running)
    ensures w.units == store.units && w.sink == running.sink && w.frontier == running.frontier
    ensures w.snapshot == store.LastSchema(cfg.pipeline) && w.recorded == recorded'
    ensures early.None? ==> !Drifts(p, running, running.proc.page)
    ensures early == Some(Abandoned) ==> MarkedFailed(store.units, unit.uid)
    ensures calm && FetchesSucceed(script, auth, maxAttempts) ==>
              early.None? || Drifts(p, running, running.proc.page)
    ensures early.None? ==> w.proc == Fetched(running.proc.page) && Report(trip) == Bump(Report(trip0), Fetch)
    ensures early.None? ==> result == FetchOf(cfg, unit.payload)
    ensures early.None? && Resumes(cfg.pagination.mode) ==>
              source.pendingCursor == result.nextCursor && source.cursorExhausted == result.nextCursor.None?
    ensures early.Some? ==> (early.value.Abandoned? || early.value.Killed?) && w.proc.Down?
  {
    recorded' := recorded;
    early, result, t', trip, w :=
      TryFetch(cfg, store, source, unit, script, t, auth, maxAttempts, calm, p, w0, trip0, running);
    if early.Some? {
      return;
    }
    var drifts;
    drifts, recorded', trip, w := Admit(cfg, store, unit, result.rows, recorded, p, w0, trip, w);
    early := if drifts then Some(Abandoned) else None;
  }

  /** From a page in memory to its commit, dying on either side of the write. */
  method SettlePage(
    cfg: Config, store: StateStore, sink: SinkStore, unit: UnitSpec, result: FetchResult, maxAttempts: nat, calm: bool,
    ghost chain: seq<Option<string>>, ghost p: Plan, ghost w0: World, ghost trip0: Trip, ghost fetched: World)
    returns (turn: Turn, ghost trip: Trip, ghost w: World)
    requires ValidPlan(p) && Travels(p, w0, trip0, fetched) && LiveInv(p, fetched) && fetched.proc.Fetched?
    requires sink.backend == p.backend && InHand(cfg, chain, p, fetched.proc.page, unit, result)
    requires Represents(cfg, chain, fetched, store.State(cfg.pipeline, cfg.url), sink.contents)
    modifies store`units, store`cursors, sink
    ensures Travels(p, w0, trip, w) && LiveInv(p, w)
    ensures Rank(p, w) < Rank(p, fetched) && KeepsSnapshot(fetched, w)
    ensures turn.Abandoned? ==> MarkedFailed(store.units, unit.uid)
    ensures Represents(cfg, chain, w, store.State(cfg.pipeline, cfg.url), sink.contents)
    ensures turn.Settled? ==> w.proc == After(p, fetched.proc.page)
    ensures turn.Settled? ==> turn.exhausted == result.exhausted
    ensures turn.Settled? ==> Report(trip) == Bump(Report(trip0), Fate(turn))
    ensures turn.Settled? || ((turn.Abandoned? || turn.Killed?) && w.proc.Down?)
    ensures calm && !Refused(p, fetched.proc.page) ==> turn.Settled?
  {
    var early, committed;
    early, trip, w := JudgePage(cfg, store, sink, unit, result, maxAttempts, calm, p, w0, trip0, fetched);
    if early.Some? {
      return early.value, trip, w;
    }
    committed, trip, w := CommitPage(cfg, store, unit, result, calm, chain, p, w0, trip, w);
    turn := if committed then Settled(result.rows != [], false, result.exhausted) else Killed;
  }

  /** After a page that was fetched the generator stands where the protocol does, or both are at the end. */
  lemma FreshAfter(source: Source, chain: seq<Option<string>>, p: Plan, k: nat, result: FetchResult)
    requires Serving(source.cfg, chain, p) && InRange(p, k)
    requires result == FetchOf(source.cfg, PayloadAt(source.cfg, chain, k))
    requires if p.resumes
             then source.pendingCursor == result.nextCursor && source.cursorExhausted == result.nextCursor.None?
             else Positioned(source, chain, k + 1)
    ensures if result.exhausted then After(p, k).Completed? else Fresh(source, chain, After(p, k))
  {
    PlanMatchesServer(source.cfg, chain, p, k);
  }

  /** Only offset and page mode skip, and their generator has moved on already. */
  lemma FreshAfterSkip(source: Source, chain: seq<Option<string>>, p: Plan, at: World)
    requires Serving(source.cfg, chain, p) && LiveInv(p, at) && at.proc.At? && PageDone(p, at, at.proc.page)
    requires !p.resumes ==> Positioned(source, chain, at.proc.page + 1)
    ensures Fresh(source, chain, AfterSkip(p, at.proc.page))
  {
    assert p.resumes ==> InRange(p, at.proc.page);
  }

  /** Fetch, judge, write and commit a unit that is marked running. */
  method WorkOn(
    cfg: Config, store: StateStore, sink: SinkStore, source: Source, unit: UnitSpec, recorded: bool,
    script: nat -> Attempt, t: nat, auth: Auth, maxAttempts: nat, calm: bool,
    ghost chain: seq<Option<string>>, ghost p: Plan, ghost w0: World, ghost trip0: Trip, ghost running: World)
    returns (turn: Turn, recorded': bool, t': nat, ghost trip: Trip, ghost w: World)
    requires Serving(cfg, chain, p) && sink.backend == cfg.backend && source.cfg == cfg
    requires Travels(p, w0, trip0, running) && LiveInv(p, running) && running.proc.Running?
    requires running.recorded == recorded
    requires Represents(cfg, chain, running, store.State(cfg.pipeline, cfg.url), sink.contents)
    requires unit.payload == PayloadAt(cfg, chain, running.proc.page) && unit.uid == UnitFor(cfg, unit.payload)
    requires !p.resumes ==> Positioned(source, chain, running.proc.page + 1)
    modifies store, sink, source`pendingCursor, source`cursorExhausted
    ensures Travels(p, w0, trip, w) && LiveInv(p, w) && Rank(p, w) < Rank(p, running)
    ensures Represents(cfg, chain, w, store.State(cfg.pipeline, cfg.url), sink.contents) && w.recorded == recorded'
    ensures turn.Abandoned? ==> MarkedFailed(store.units, unit.uid)
    ensures turn.Settled? ==> Report(trip) == AfterTurn(Report(trip0), turn)
    ensures turn.Settled? ==> if turn.exhausted then w.proc.Completed? else Fresh(source, chain, w.proc)
    ensures turn.Settled? || ((turn.Abandoned? || turn.Killed?) && w.proc.Down?)
    ensures calm && FetchesSucceed(script, auth, maxAttempts) && !Refused(p, running.proc.page) ==>
              turn.Settled? || Drifts(p, running, running.proc.page)
  {
    ghost var k := running.proc.page;
    ServedRows(cfg, chain, p, k);
    var early, result;
    early, result, recorded', t', trip, w :=
      FetchPage(cfg, store, source, unit, recorded, script, t, auth, maxAttempts, calm, p, w0, trip0, running);
    if early.Some? {
      turn := early.value;
      return;
    }
    ServedIsInHand(cfg, chain, p, k, unit, result);
    FreshAfter(source, chain, p, k, result);
    turn, trip, w := SettlePage(cfg, store, sink, unit, result, maxAttempts, calm, chain, p, w0, trip, w);
  }

  /** The body of the loop for one unit: a path through the protocol, cut short anywhere. */
  method ProcessUnit(
    cfg: Config, store: StateStore, sink: SinkStore, source: Source, unit: UnitSpec, recorded: bool,
    script: nat -> Attempt, t: nat, auth: Auth, maxAttempts: nat, calm: bool,
    ghost chain: seq<Option<string>>, ghost p: Plan, ghost w0: World, ghost trip0: Trip, ghost at: World)
    returns (turn: Turn, recorded': bool, t': nat, ghost trip: Trip, ghost w: World)
    requires Serving(cfg, chain, p) && sink.backend == cfg.backend && source.cfg == cfg
    requires Travels(p, w0, trip0, at) && LiveInv(p, at) && at.proc.At? && at.recorded == recorded
    requires Represents(cfg, chain, at, store.State(cfg.pipeline, cfg.url), sink.contents)
    requires unit.payload == PayloadAt(cfg, chain, at.proc.page) && unit.uid == UnitFor(cfg, unit.payload)
    requires !p.resumes ==> Positioned(source, chain, at.proc.page + 1)
    modifies store, sink, source`pendingCursor, source`cursorExhausted
    ensures Travels(p, w0, trip, w) && LiveInv(p, w) && Rank(p, w) < Rank(p, at)
    ensures Represents(cfg, chain, w, store.State(cfg.pipeline, cfg.url), sink.contents) && w.recorded == recorded'
    ensures turn.Abandoned? ==> MarkedFailed(store.units, unit.uid)
    ensures turn.Skipped? || turn.Settled? ==> Report(trip) == AfterTurn(Report(trip0), turn)
    ensures turn.Skipped? || (turn.Settled? && !turn.exhausted) ==> Fresh(source, chain, w.proc)
    ensures turn.Settled? && turn.exhausted ==> w.proc.Completed?
    ensures turn.Abandoned? || turn.Killed? ==> w.proc.Down?
    ensures calm && FetchesSucceed(script, auth, maxAttempts) && !Refused(p, at.proc.page) && GoesOn(p, at) ==>
              turn.Skipped? || turn.Settled?
  {
    var early;
    recorded' := recorded;
    early, trip, w := BeginUnit(store, unit, calm, p, w0, trip0, at);
    if early.Some? {
      if early.value.Skipped? {
        FreshAfterSkip(source, chain, p, at);
      }
      return early.value, recorded', t, trip, w;
    }
    assert p.rowsAt(at.proc.page) != [] ==> FirstOpen(p, at, at.proc.page);
    turn, recorded', t', trip, w := WorkOn(
      cfg, store, sink, source, unit, recorded, script, t, auth, maxAttempts, calm, chain, p, w0, trip, w);
  }

  /**
   One run of the pipeline, dying or failing anywhere. It takes a path of the collection protocol
   and leaves durable state that the protocol describes; when it returns, its report counts the
   steps of that path, and without requeues the sink is that of a clean run exactly when no page with
   a NULL merge key landed in a DuckDB table twice.
   */
  method RunPipeline(
    cfg: Config, store: StateStore, sink: SinkStore,
    script: nat -> Attempt, auth: Auth, maxAttempts: nat, calm: bool,
    ghost chain: seq<Option<string>>, ghost p: Plan, ghost w0: World)
    returns (outcome: Outcome, ghost run: seq<Label>, ghost w: World)
    requires Serving(cfg, chain, p) && sink.backend == cfg.backend
    requires LiveInv(p, w0) && !Alive(w0.proc)
    requires Represents(cfg, chain, w0, store.State(cfg.pipeline, cfg.url), sink.contents)
    modifies store, sink
    ensures OneRun(run) && Exec(p, w0, [Start] + run) == Some(w)
    ensures LiveInv(p, w)
    ensures Represents(cfg, chain, w, store.State(cfg.pipeline, cfg.url), sink.contents)
    ensures outcome.Returned? ==> w.proc.Completed? && outcome.report == Tally(run)
    ensures !outcome.Returned? ==> w.proc.Down?
    ensures calm && FetchesSucceed(script, auth, maxAttempts) && NothingRefused(p) && MayResume(p, w0) ==>
              outcome.Returned?
    ensures Inv(p, w0) ==> Inv(p, w)
    ensures Inv(p, w0) && outcome.Returned? ==>
              (sink.contents == Ideal(p, p.last + 1) <==>
               forall k: nat :: Rewritten(w.log, k) ==> Repeatable(p, k))
  {
    ghost var w1 := Started(p, w0);
    LiveStep(p, w0, Start);
    var initial := None;
    if Resumes(cfg.pagination.mode) {
      initial := store.GetCursor(cfg.pipeline, cfg.url);
    }
    var source := new Source(cfg, initial);
    ghost var trip;
    outcome, trip, w := RunLoop(cfg, store, sink, source, script, auth, maxAttempts, calm, chain, p, w1);
    run := Labels(trip);
    TripFromStart(p, w0, trip, w);
  }

  /** The trip of a run, from its start, and what it leaves in the sink. */
  lemma TripFromStart(p: Plan, w0: World, trip: Trip, w: World)
    requires ValidPlan(p) && !Alive(w0.proc) && Travels(p, Started(p, w0), trip, w)
    ensures OneRun(Labels(trip)) && Exec(p, w0, [Start] + Labels(trip)) == Some(w)
    ensures Tally(Labels(trip)) == Report(trip)
    ensures Inv(p, w0) ==> Inv(p, w)
    ensures Inv(p, w0) && w.proc.Completed? ==>
              (w.sink == Ideal(p, p.last + 1) <==> forall k: nat :: Rewritten(w.log, k) ==> Repeatable(p, k))
  {
    var run := Labels(trip);
    TripIsRun(p, Started(p, w0), trip, w);
    assert ([Start] + run)[1..] == run;
    if Inv(p, w0) {
      InvStep(p, w0, Start);
      InvExec(p, Started(p, w0), run);
      if w.proc.Completed? {
        CompletedSinkIff(p, w);
      }
    }
  }

  /** A traversal whose cursors have different texts, as far as the program sees it, can be run on. */
  lemma TraversalServing(cfg: Config, chain: seq<Option<string>>)
    requires Traverses(cfg, chain) && cfg.backend == BackendOf(cfg.sink0)
    requires forall i, j :: 0 <= i < j <= EndOf(chain) ==> CursorText(chain[i]) != CursorText(chain[j])
    ensures Serving(cfg, chain, PlanOf(cfg, chain, EndOf(chain)))
  {
    TraversalIsServed(cfg, chain);
    ChainPlanIsValid(cfg, chain, EndOf(chain));
    PlanServes(cfg, chain, EndOf(chain));
  }

  /** So can a fixed table in offset or page mode. */
  lemma TableServing(cfg: Config, table: seq<Row>)
    requires ServesTable(cfg, table) && cfg.backend == BackendOf(cfg.sink0)
    ensures Serving(cfg, [], PlanOf(cfg, [], |table| / cfg.pagination.size))
  {
    TablePlanIsServed(cfg, table);
    PlanServes(cfg, [], |table| / cfg.pagination.size);
  }

  /**
   The first run of a pipeline, on an empty store. If it returns, it has collected every page, whatever
   was retried on the way; if nothing dies and no page is refused, it returns.
   */
  method FirstRun(
    cfg: Config, script: nat -> Attempt, auth: Auth, maxAttempts: nat, calm: bool,
    ghost chain: seq<Option<string>>, ghost p: Plan)
    returns (outcome: Outcome, store: StateStore, sink: SinkStore)
    requires Serving(cfg, chain, p) && p.sink0 == cfg.sink0
    ensures calm && FetchesSucceed(script, auth, maxAttempts) && NothingRefused(p) ==> outcome.Returned?
    ensures outcome.Returned? ==>
              && NothingRefused(p) && AllJudged(p, store.units)
              && (AllRepeatable(p) ==> sink.contents == Ideal(p, p.last + 1))
  {
    store := new StateStore();
    sink := new SinkStore(cfg.backend, cfg.sink0);
    NothingToCompare(p);
    ghost var run, w;
    outcome, run, w := RunPipeline(cfg, store, sink, script, auth, maxAttempts, calm, chain, p, Init(p));
    if outcome.Returned? {
      CompletedIsJudged(p, w);
    }
  }

  /** Every page is done if it was accepted, and quarantined if it was judged so. */
  ghost predicate AllJudged(p: Plan, units: Units) {
    forall k: nat :: k <= p.last ==>
      && p.unitAt(k) in units
      && units[p.unitAt(k)].status == if VerdictAt(p, k) == Accept then Done else Quarantined
  }

  lemma CompletedIsJudged(p: Plan, w: World)
    requires ValidPlan(p) && Inv(p, w) && w.proc.Completed?
    ensures NothingRefused(p) && AllJudged(p, w.units)
    ensures AllRepeatable(p) ==> forall k: nat :: Rewritten(w.log, k) ==> Repeatable(p, k)
  {
    CompletedIsCollected(p, w);
    forall k: nat | k <= p.last
      ensures p.unitAt(k) in w.units
      ensures w.units[p.unitAt(k)].status == if VerdictAt(p, k) == Accept then Done else Quarantined
    {
      assert Protocol.Settled(p, w, k) && !Refused(p, k);
    }
    forall k: nat | Rewritten(w.log, k) ensures k in w.log {
      assert k in multiset(w.log);
    }
  }

  lemma NothingToCompare(p: Plan)
    requires ValidPlan(p)
    ensures Inv(p, Init(p)) && MayResume(p, Init(p))
  {
    InitInv(p);
  }

  /** Resume the generator and work on the unit it yields; no turn when it has ended. */
  method NextTurn(
    cfg: Config, store: StateStore, sink: SinkStore, source: Source, recorded: bool,
    script: nat -> Attempt, t: nat, auth: Auth, maxAttempts: nat, calm: bool,
    ghost chain: seq<Option<string>>, ghost p: Plan, ghost w0: World, ghost trip0: Trip, ghost at: World)
    returns (turn: Option<Turn>, recorded': bool, t': nat, ghost trip: Trip, ghost w: World)
    requires Serving(cfg, chain, p) && sink.backend == cfg.backend
    requires Travels(p, w0, trip0, at) && LiveInv(p, at)
    requires source.cfg == cfg && Fresh(source, chain, at.proc) && at.recorded == recorded
    requires Represents(cfg, chain, at, store.State(cfg.pipeline, cfg.url), sink.contents)
    modifies store, sink, source
    ensures Travels(p, w0, trip, w) && LiveInv(p, w)
    ensures Represents(cfg, chain, w, store.State(cfg.pipeline, cfg.url), sink.contents) && w.recorded == recorded'
    ensures turn.None? ==> w.proc.Completed? && Report(trip) == Report(trip0)
    ensures turn.Some? ==> Rank(p, w) < Rank(p, at)
    ensures turn.Some? && (turn.value.Abandoned? || turn.value.Killed?) ==> w.proc.Down?
    ensures turn.Some? && (turn.value.Skipped? || turn.value.Settled?) ==>
              && Report(trip) == AfterTurn(Report(trip0), turn.value)
              && if turn.value.Settled? && turn.value.exhausted then w.proc.Completed?
                 else Fresh(source, chain, w.proc)
    ensures calm && FetchesSucceed(script, auth, maxAttempts) && NothingRefused(p) && GoesOn(p, at) ==>
              turn.None? || turn.value.Skipped? || turn.value.Settled?
  {
    UpcomingIsNextPage(source, chain, p, at);
    recorded', t' := recorded, t;
    var next := source.NextUnit();
    if next.None? {
      trip, w := trip0, at;
      return None, recorded', t', trip, w;
    }
    var processed;
    processed, recorded', t', trip, w := ProcessUnit(
      cfg, store, sink, source, next.value, recorded, script, t, auth, maxAttempts, calm, chain, p, w0, trip0, at);
    turn := Some(processed);
    if NothingRefused(p) {
      CanWrite(p, at.proc.page);
    }
    var dies := false;
    if processed.Skipped? || processed.Settled? {
      dies, trip, w := CompletionHook(calm, p, w0, trip, w);
    }
    if dies {
      turn := Some(Killed);
    }
  }

  /** The completion hook may raise, or the process die, after a unit. */
  method CompletionHook(calm: bool, ghost p: Plan, ghost w0: World, ghost trip0: Trip, ghost at: World)
    returns (dies: bool, ghost trip: Trip, ghost w: World)
    requires ValidPlan(p) && Travels(p, w0, trip0, at) && LiveInv(p, at) && !at.proc.Down?
    ensures Travels(p, w0, trip, w) && LiveInv(p, w) && Rank(p, w) <= Rank(p, at)
    ensures calm ==> !dies
    ensures if dies then w == at.(proc := Down) else w == at && trip == trip0
  {
    dies := Strikes(!calm);
    trip, w := trip0, at;
    if dies {
      trip, w := Die(p, w0, trip, w);
    }
  }

  /** The for loop over source.units(). */
  method RunLoop(
    cfg: Config, store: StateStore, sink: SinkStore, source: Source,
    script: nat -> Attempt, auth: Auth, maxAttempts: nat, calm: bool,
    ghost chain: seq<Option<string>>, ghost p: Plan, ghost w1: World)
    returns (outcome: Outcome, ghost trip: Trip, ghost w: World)
    requires Serving(cfg, chain, p) && sink.backend == cfg.backend
    requires LiveInv(p, w1) && source.cfg == cfg && Fresh(source, chain, w1.proc) && !w1.recorded
    requires Represents(cfg, chain, w1, store.State(cfg.pipeline, cfg.url), sink.contents)
    modifies store, sink, source
    ensures Travels(p, w1, trip, w) && LiveInv(p, w)
    ensures Represents(cfg, chain, w, store.State(cfg.pipeline, cfg.url), sink.contents)
    ensures outcome.Returned? ==> w.proc.Completed? && outcome.report == Report(trip)
    ensures !outcome.Returned? ==> w.proc.Down?
    ensures calm && FetchesSucceed(script, auth, maxAttempts) && NothingRefused(p) && GoesOn(p, w1) ==>
              outcome.Returned?
  {
    var t, recorded, report := 0, false, RunReport(0, 0, 0, 0);
    trip, w := Stay, w1;
    while true
      invariant Travels(p, w1, trip, w) && LiveInv(p, w) && report == Report(trip)
      invariant Fresh(source, chain, w.proc) && w.recorded == recorded
      invariant Represents(cfg, chain, w, store.State(cfg.pipeline, cfg.url), sink.contents)
      decreases Rank(p, w)
    {
      if GoesOn(p, w1) {
        TripGoesOn(p, w1, trip, w);
      }
      var turn;
      turn, recorded, t, trip, w := NextTurn(
        cfg, store, sink, source, recorded, script, t, auth, maxAttempts, calm, chain, p, w1, trip, w);
      if turn.None? {
        return Returned(report), trip, w;
      }
      if turn.value.Abandoned? {
        return Raised, trip, w;
      }
      if turn.value.Killed? {
        return Died, trip, w;
      }
      report := AfterTurn(report, turn.value);
      if turn.value.Settled? && turn.value.exhausted {
        return Returned(report), trip, w;
      }
    }
  }

  lemma UpcomingIsNextPage(source: Source, chain: seq<Option<string>>, p: Plan, w: World)
    requires Serving(source.cfg, chain, p)
    requires LiveInv(p, w) && Fresh(source, chain, w.proc)
    ensures w.proc.At? ==> source.Upcoming() == Some(PayloadAt(source.cfg, chain, w.proc.page))
    ensures w.proc.Completed? ==> source.Upcoming().None?
    ensures source.cfg.pagination.mode.Offset? && w.proc.At? ==>
              source.counter + source.cfg.pagination.size == OffsetAt(w.proc.page + 1, source.cfg.pagination.size)
  {
  }
}
