/**
 Interrupted runs against clean ones: when a schedule can return, and when its sink is that of a
 crash-free run.
 */
module CrashEquivalence {
  import opened Rows
  import opened StateStore
  import opened Upsert
  import opened Sinks
  import opened Protocol
  import opened Runs

  /** Every page was judged once, and the accepted ones with data were written, in page order. */
  ghost predicate Collected(p: Plan, w: World) {
    && (forall k: nat :: k <= p.last ==> (PageDone(p, w, k) <==> VerdictAt(p, k) == Accept))
    && (forall k: nat :: k <= p.last ==> (PageQuarantined(p, w, k) <==> VerdictAt(p, k) == Quarantine))
    && Ordered(w.log) && (forall k: nat :: k in w.log <==> k <= p.last && Writes(p, k))
    && w.sink == Replay(p, w.log)
  }

  lemma CompletedIsCollected(p: Plan, w: World)
    requires ValidPlan(p) && Inv(p, w) && w.proc.Completed?
    ensures NothingRefused(p) && Collected(p, w)
  {
    forall k: nat | k <= p.last
      ensures !Refused(p, k)
      ensures PageDone(p, w, k) <==> VerdictAt(p, k) == Accept
      ensures PageQuarantined(p, w, k) <==> VerdictAt(p, k) == Quarantine
      ensures Writes(p, k) ==> k in w.log
    {
      assert Settled(p, w, k) && InRange(p, k);
    }
  }

  // --------------------------------------------- Interrupted runs equal clean runs

  /** A page that may be written again at once without changing the sink. */
  predicate Repeatable(p: Plan, k: nat) {
    !p.sink0.Duck? || NonNullKeys(p.rowsAt(k), p.sink0.keys)
  }

  ghost predicate AllRepeatable(p: Plan) {
    forall k: nat :: Writes(p, k) ==> Repeatable(p, k)
  }

  /** The page landed in the sink more than once. */
  ghost predicate Rewritten(log: seq<nat>, k: nat) {
    multiset(log)[k] > 1
  }

  /** One more page in the ideal sink is one more write to a sink of its kind. */
  lemma IdealSnoc(p: Plan, h: nat)
    requires IsBackend(p.backend, p.sink0) && h > 0 && Writes(p, h - 1)
    ensures Ideal(p, h) == Put(Ideal(p, h - 1), p.unitAt(h - 1), p.rowsAt(h - 1))
  {
    assert Put(Ideal(p, h - 1), p.unitAt(h - 1), p.rowsAt(h - 1))
        == p.backend.put(Ideal(p, h - 1), p.unitAt(h - 1), p.rowsAt(h - 1));
  }

  lemma ReplaySnoc(p: Plan, log: seq<nat>)
    requires IsBackend(p.backend, p.sink0) && log != []
    ensures var front, k := log[..|log| - 1], log[|log| - 1];
            Replay(p, log) == Put(Replay(p, front), p.unitAt(k), p.rowsAt(k))
  {
    var front, k := log[..|log| - 1], log[|log| - 1];
    assert Put(Replay(p, front), p.unitAt(k), p.rowsAt(k))
        == p.backend.put(Replay(p, front), p.unitAt(k), p.rowsAt(k));
  }

  /** Every sink the pages pass through takes what the backend says it takes. */
  lemma TakesPage(p: Plan, sink: Sink, k: nat)
    requires IsBackend(p.backend, p.sink0) && SameShape(sink, p.sink0)
    ensures Takes(sink, p.rowsAt(k)) <==> p.backend.takes(p.rowsAt(k))
  {
    SameShapeTakes(sink, p.sink0, p.rowsAt(k));
    assert Takes(p.sink0, p.rowsAt(k)) == p.backend.takes(p.rowsAt(k));
  }

  lemma {:induction false} IdealShape(p: Plan, h: nat)
    requires IsBackend(p.backend, p.sink0)
    ensures SameShape(Ideal(p, h), p.sink0)
  {
    if h > 0 {
      IdealShape(p, h - 1);
      if Writes(p, h - 1) {
        IdealSnoc(p, h);
        PutKeepsShape(Ideal(p, h - 1), p.unitAt(h - 1), p.rowsAt(h - 1));
      }
    }
  }

  /** The pages below h, in order, some repeated. */
  ghost predicate Stutters(p: Plan, log: seq<nat>, h: nat) {
    && Ordered(log) && (forall k: nat :: k in log <==> k < h && Writes(p, k))
    && (forall k: nat :: k < h ==> !Refused(p, k))
  }

  lemma LastIsLargest(log: seq<nat>, k: nat)
    requires Ordered(log) && k in log && forall j :: j in log ==> j <= k
    ensures log[|log| - 1] == k
  {
    var i :| 0 <= i < |log| && log[i] == k;
    assert log[|log| - 1] in log && log[i] <= log[|log| - 1];
  }

  /** Without its last entry a log covers the same pages, if that entry is a repeat, or one page less. */
  lemma StuttersLess(p: Plan, log: seq<nat>, h: nat)
    requires Stutters(p, log, h) && h > 0 && Writes(p, h - 1)
    ensures log != [] && log[|log| - 1] == h - 1
    ensures var front := log[..|log| - 1];
            && Stutters(p, front, if h - 1 in front then h else h - 1)
            && multiset(log) == multiset(front) + multiset{h - 1}
  {
    assert h - 1 in log;
    LastIsLargest(log, h - 1);
    var front := log[..|log| - 1];
    assert log == front + [h - 1];
    forall k: nat ensures k in front <==> (k < h - 1 && Writes(p, k)) || (k == h - 1 && h - 1 in front) {
      assert k in log <==> k in front || k == h - 1;
    }
  }

  lemma PageTwice(p: Plan, k: nat)
    requires ValidPages(p) && Repeatable(p, k) && Writes(p, k) && !Refused(p, k)
    ensures p.backend.put(Ideal(p, k + 1), p.unitAt(k), p.rowsAt(k)) == Ideal(p, k + 1)
  {
    IdealShape(p, k);
    IdealSnoc(p, k + 1);
    var once := Put(Ideal(p, k), p.unitAt(k), p.rowsAt(k));
    assert Put(once, p.unitAt(k), p.rowsAt(k)) == p.backend.put(once, p.unitAt(k), p.rowsAt(k));
    TakesPage(p, Ideal(p, k), k);
    PutTwiceIff(Ideal(p, k), p.unitAt(k), p.rowsAt(k));
  }

  lemma FrontRepeats(p: Plan, log: seq<nat>, h: nat)
    requires Stutters(p, log, h) && h > 0 && Writes(p, h - 1) && log != []
    requires forall k: nat :: Rewritten(log, k) ==> Repeatable(p, k)
    ensures forall k: nat :: Rewritten(log[..|log| - 1], k) ==> Repeatable(p, k)
    ensures !Refused(p, h - 1) && (h - 1 in log[..|log| - 1] ==> Repeatable(p, h - 1))
  {
    StuttersLess(p, log, h);
    var front := log[..|log| - 1];
    forall k: nat | Rewritten(front, k) ensures Repeatable(p, k) {
      assert Rewritten(log, k);
    }
    if h - 1 in front {
      assert Rewritten(log, h - 1);
    }
  }

  /** Writing a page right after itself changes nothing, if it is repeatable. */
  lemma {:induction false} ReplayIsIdeal(p: Plan, log: seq<nat>, h: nat)
    requires ValidPages(p) && Stutters(p, log, h)
    requires forall k: nat :: Rewritten(log, k) ==> Repeatable(p, k)
    ensures Replay(p, log) == Ideal(p, h)
    decreases |log| + h
  {
    if h == 0 {
      FirstIsMember(log);
    } else if !Writes(p, h - 1) {
      ReplayIsIdeal(p, log, h - 1);
    } else {
      var front, k := log[..|log| - 1], h - 1;
      StuttersLess(p, log, h);
      FrontRepeats(p, log, h);
      ReplayIsIdeal(p, front, if k in front then h else k);
      if k in front {
        PageTwice(p, k);
      }
    }
  }

  /** The rows of a DuckDB table that no write will ever delete. */
  function Nulls(sink: Sink): nat {
    if sink.Duck? then NullCount(sink.rows, sink.keys) else 0
  }

  lemma PutNulls(sink: Sink, uid: UnitId, batch: seq<Row>)
    requires sink.Duck? && Takes(sink, batch)
    ensures Nulls(Put(sink, uid, batch)) == Nulls(sink) + NullCount(LastPerKey(batch, sink.keys), sink.keys)
    ensures NullCount(LastPerKey(batch, sink.keys), sink.keys) == 0 <==> NonNullKeys(batch, sink.keys)
  {
    DuckWriteNulls(sink.rows, batch, sink.keys);
  }

  lemma {:induction false} ReplayShape(p: Plan, log: seq<nat>)
    requires IsBackend(p.backend, p.sink0)
    ensures SameShape(Replay(p, log), p.sink0)
  {
    if log != [] {
      var front, k := log[..|log| - 1], log[|log| - 1];
      ReplayShape(p, front);
      ReplaySnoc(p, log);
      PutKeepsShape(Replay(p, front), p.unitAt(k), p.rowsAt(k));
    }
  }

  lemma PutPageNulls(p: Plan, sink: Sink, k: nat)
    requires IsBackend(p.backend, p.sink0) && p.sink0.Duck? && SameShape(sink, p.sink0)
    requires p.backend.takes(p.rowsAt(k))
    ensures Nulls(p.backend.put(sink, p.unitAt(k), p.rowsAt(k))) == Nulls(sink) + More(p, k)
    ensures More(p, k) == 0 <==> Repeatable(p, k)
  {
    TakesPage(p, sink, k);
    assert Put(sink, p.unitAt(k), p.rowsAt(k)) == p.backend.put(sink, p.unitAt(k), p.rowsAt(k));
    PutNulls(sink, p.unitAt(k), p.rowsAt(k));
  }

  /** The rows with a NULL key that writing a page adds. */
  function More(p: Plan, k: nat): nat {
    if p.sink0.Duck? then NullCount(LastPerKey(p.rowsAt(k), p.sink0.keys), p.sink0.keys) else 0
  }

  lemma ReplaySnocNulls(p: Plan, log: seq<nat>, h: nat)
    requires IsBackend(p.backend, p.sink0) && p.sink0.Duck? && Stutters(p, log, h) && h > 0 && Writes(p, h - 1)
    ensures log != [] && Nulls(Replay(p, log)) == Nulls(Replay(p, log[..|log| - 1])) + More(p, h - 1)
    ensures More(p, h - 1) == 0 <==> Repeatable(p, h - 1)
  {
    StuttersLess(p, log, h);
    assert !Refused(p, h - 1);
    ReplayShape(p, log[..|log| - 1]);
    PutPageNulls(p, Replay(p, log[..|log| - 1]), h - 1);
  }

  lemma IdealSnocNulls(p: Plan, h: nat)
    requires IsBackend(p.backend, p.sink0) && p.sink0.Duck? && h > 0 && Writes(p, h - 1) && !Refused(p, h - 1)
    ensures Nulls(Ideal(p, h)) == Nulls(Ideal(p, h - 1)) + More(p, h - 1)
  {
    IdealShape(p, h - 1);
    PutPageNulls(p, Ideal(p, h - 1), h - 1);
  }

  /** A page with a NULL key written again leaves more such rows than a clean run does, for good. */
  lemma {:induction false} ReplaySurplus(p: Plan, log: seq<nat>, h: nat, k: nat)
    requires IsBackend(p.backend, p.sink0) && p.sink0.Duck? && Stutters(p, log, h)
    ensures Nulls(Replay(p, log)) >= Nulls(Ideal(p, h))
    ensures Rewritten(log, k) && !Repeatable(p, k) ==> Nulls(Replay(p, log)) > Nulls(Ideal(p, h))
    decreases |log| + h
  {
    if h == 0 {
      FirstIsMember(log);
    } else if !Writes(p, h - 1) {
      ReplaySurplus(p, log, h - 1, k);
    } else {
      StuttersLess(p, log, h);
      ReplaySnocNulls(p, log, h);
      var front := log[..|log| - 1];
      ReplaySurplus(p, front, if h - 1 in front then h else h - 1, k);
      if h - 1 !in front {
        assert !Refused(p, h - 1);
        IdealSnocNulls(p, h);
      }
    }
  }

  lemma CompletedSinkIff(p: Plan, w: World)
    requires ValidPlan(p) && Inv(p, w) && w.proc.Completed?
    ensures w.sink == Ideal(p, p.last + 1) <==> forall k: nat :: Rewritten(w.log, k) ==> Repeatable(p, k)
  {
    CompletedIsCollected(p, w);
    assert Stutters(p, w.log, p.last + 1);
    if forall k: nat :: Rewritten(w.log, k) ==> Repeatable(p, k) {
      ReplayIsIdeal(p, w.log, p.last + 1);
    } else {
      var k: nat :| Rewritten(w.log, k) && !Repeatable(p, k);
      ReplaySurplus(p, w.log, p.last + 1, k);
    }
  }

  /**
   Every finite schedule that returned collected all pages, and its sink is the ideal one exactly
   when no page with a NULL merge key landed in a DuckDB table more than once.
   */
  lemma SinkIsIdealIff(p: Plan, labels: seq<Label>)
    requires ValidPlan(p) && Returns(p, labels)
    ensures var w := Exec(p, Init(p), labels).value;
            && Collected(p, w)
            && (w.sink == Ideal(p, p.last + 1) <==> forall k: nat :: Rewritten(w.log, k) ==> Repeatable(p, k))
  {
    InitInv(p);
    InvExec(p, Init(p), labels);
    CompletedIsCollected(p, Exec(p, Init(p), labels).value);
    CompletedSinkIff(p, Exec(p, Init(p), labels).value);
  }

  // ------------------------------------------------------------------ Clean runs

  /** One run that meets no fault, from the start. */
  ghost predicate IsClean(p: Plan, labels: seq<Label>) {
    Returns(p, labels) && labels[0].Start? && FaultFree(labels[1..])
  }

  /** The accepted pages below `h` were written once each, in page order. */
  ghost predicate WrittenOnce(p: Plan, w: World, h: nat) {
    && w.sink == Ideal(p, h)
    && (forall k :: k in w.log ==> k < h) && (forall k: nat :: !Rewritten(w.log, k))
  }

  ghost predicate CleanSoFar(p: Plan, w: World) {
    && (Alive(w.proc) ==>
          && w.frontier <= w.proc.page <= p.last
          && WrittenOnce(p, w, if w.proc.Written? then w.proc.page + 1 else w.proc.page))
    && (w.proc.Completed? ==> WrittenOnce(p, w, p.last + 1))
    && !w.proc.Down?
  }

  lemma CleanWrite(p: Plan, w: World)
    requires CleanSoFar(p, w) && w.proc.Fetched? && Next(p, w, Write(1)).Some?
    ensures CleanSoFar(p, Next(p, w, Write(1)).value)
  {
    var k := w.proc.page;
    var w' := Next(p, w, Write(1)).value;
    assert Land(p.backend, w.sink, p.unitAt(k), p.rowsAt(k), 0) == w.sink;
    assert Repeat(k, 1) == [k];
    forall j: nat ensures !Rewritten(w'.log, j) {
      assert !Rewritten(w.log, j);
      assert j == k ==> j !in w.log;
    }
  }

  lemma CleanStep(p: Plan, w: World, l: Label)
    requires ValidPlan(p) && LiveInv(p, w) && CleanSoFar(p, w) && Smooth(l) && Next(p, w, l).Some?
    ensures CleanSoFar(p, Next(p, w, l).value)
  {
    if l.Write? {
      CleanWrite(p, w);
    } else if Alive(w.proc) {
      assert InRange(p, w.proc.page) && !PageDone(p, w, w.proc.page);
    }
  }

  lemma {:induction false} CleanExec(p: Plan, w: World, run: seq<Label>)
    requires ValidPlan(p) && LiveInv(p, w) && CleanSoFar(p, w) && FaultFree(run) && Exec(p, w, run).Some?
    ensures CleanSoFar(p, Exec(p, w, run).value)
    decreases |run|
  {
    if run != [] {
      assert Smooth(run[0]);
      LiveStep(p, w, run[0]);
      CleanStep(p, w, run[0]);
      CleanExec(p, Next(p, w, run[0]).value, run[1..]);
    }
  }

  /** A clean run writes every accepted page with data once, in page order: NULL keys do it no harm. */
  lemma CleanRunIsIdeal(p: Plan, clean: seq<Label>)
    requires ValidPlan(p) && IsClean(p, clean)
    ensures WrittenOnce(p, Exec(p, Init(p), clean).value, p.last + 1)
  {
    InitInv(p);
    LiveStep(p, Init(p), Start);
    CleanExec(p, Started(p, Init(p)), clean[1..]);
  }

  /**
   For every finite schedule of crashes, failed fetches, failed writes and reruns that returned: its
   sink is that of a clean run exactly when no page with a NULL merge key landed in a DuckDB table
   more than once.
   */
  lemma InterruptedEqualsCleanIff(p: Plan, labels: seq<Label>, clean: seq<Label>)
    requires ValidPlan(p) && Returns(p, labels) && IsClean(p, clean)
    ensures var w := Exec(p, Init(p), labels).value;
            && Collected(p, w) && Collected(p, Exec(p, Init(p), clean).value)
            && (w.sink == Exec(p, Init(p), clean).value.sink <==>
                forall k: nat :: Rewritten(w.log, k) ==> Repeatable(p, k))
  {
    SinkIsIdealIff(p, labels);
    SinkIsIdealIff(p, clean);
    CleanRunIsIdeal(p, clean);
  }

  /**
   With files, with Postgres, and with DuckDB when no accepted row has a NULL merge key: once a run
   returns, the sink and the verdicts recorded are those of any other schedule that returned, a
   crash-free run among them.
   */
  lemma CrashScheduleEquivalence(p: Plan, labels: seq<Label>, clean: seq<Label>)
    requires ValidPlan(p) && AllRepeatable(p) && Returns(p, labels) && Returns(p, clean)
    ensures Exec(p, Init(p), labels).value.sink == Exec(p, Init(p), clean).value.sink == Ideal(p, p.last + 1)
    ensures Collected(p, Exec(p, Init(p), labels).value) && Collected(p, Exec(p, Init(p), clean).value)
  {
    forall some | some == labels || some == clean
      ensures Exec(p, Init(p), some).value.sink == Ideal(p, p.last + 1)
      ensures Collected(p, Exec(p, Init(p), some).value)
    {
      SinkIsIdealIff(p, some);
      var w := Exec(p, Init(p), some).value;
      forall k: nat | Rewritten(w.log, k) ensures Repeatable(p, k) {
        assert k in multiset(w.log);
        assert k in w.log;
      }
    }
  }

  /** No other condition will do: all schedules that return agree exactly when every page is repeatable. */
  lemma AllSchedulesAgreeIff(p: Plan)
    requires ValidPlan(p) && NothingRefused(p)
    ensures (forall labels, other :: Returns(p, labels) && Returns(p, other) ==>
               Exec(p, Init(p), labels).value.sink == Exec(p, Init(p), other).value.sink)
            <==> AllRepeatable(p)
  {
    if AllRepeatable(p) {
      forall labels, other | Returns(p, labels) && Returns(p, other)
        ensures Exec(p, Init(p), labels).value.sink == Exec(p, Init(p), other).value.sink
      {
        CrashScheduleEquivalence(p, labels, other);
      }
    } else {
      var k: nat :| Writes(p, k) && !Repeatable(p, k);
      var labels := WriteTwice(p, k);
      ReturnsIffNothingRefused(p);
      var clean :| IsClean(p, clean);
      InterruptedEqualsCleanIff(p, labels, clean);
    }
  }

  // ------------------------------------------------------------------ Schedules that return

  /**
   Some schedule returns if and only if no gate blocks a page and the database rejects none, and then
   a clean run does. Schema drift is no hindrance to a first run: there is nothing to compare with.
   */
  lemma ReturnsIffNothingRefused(p: Plan)
    requires ValidPlan(p)
    ensures CanReturn(p) <==> NothingRefused(p)
    ensures CanReturn(p) ==> exists clean :: IsClean(p, clean)
  {
    InitInv(p);
    if NothingRefused(p) {
      LiveStep(p, Init(p), Start);
      var rest := FaultFreeRunCompletes(p, Started(p, Init(p)));
      var labels := [Start] + rest;
      assert labels[1..] == rest;
      assert IsClean(p, labels);
    }
    if labels :| Returns(p, labels) {
      InvExec(p, Init(p), labels);
      CompletedIsCollected(p, Exec(p, Init(p), labels).value);
    }
  }

  lemma RepeatedIsRewritten(log: seq<nat>, k: nat, tail: seq<nat>)
    ensures Rewritten(log + Repeat(k, 2) + tail, k)
  {
    assert Repeat(k, 2) == [k, k];
    assert multiset(log + Repeat(k, 2) + tail) == multiset(log) + multiset{k, k} + multiset(tail);
  }

  /** A run on its way to a page not done yet meets it, if nothing goes wrong. */
  lemma OnTheWay(p: Plan, w: World, k: nat)
    requires ValidPlan(p) && NothingRefused(p) && Writes(p, k) && LiveInv(p, w) && GoesOn(p, w)
    requires Alive(w.proc) && w.proc.page <= k && !PageDone(p, w, k) && w.proc != Fetched(k) && w.proc != Written(k)
    requires w.proc.Running? ==> !PageDone(p, w, w.proc.page)
    ensures Next(p, w, FaultFreeLabel(p, w)).Some?
    ensures var w' := Next(p, w, FaultFreeLabel(p, w)).value;
            Alive(w'.proc) && w'.proc.page <= k && !PageDone(p, w', k) && w'.proc != Written(k)
  {
    FaultFreeStep(p, w);
    assert w.proc.Registered? && p.resumes ==> InRange(p, w.proc.page) && !PageDone(p, w, w.proc.page);
  }

  /** A run in which the write of a page not done yet lands twice, and nothing else goes wrong. */
  lemma {:induction false} RunWritingTwice(p: Plan, w: World, k: nat) returns (labels: seq<Label>)
    requires ValidPlan(p) && NothingRefused(p) && Writes(p, k) && LiveInv(p, w) && GoesOn(p, w)
    requires Alive(w.proc) && w.proc.page <= k && !PageDone(p, w, k) && w.proc != Written(k)
    requires w.proc.Running? ==> !PageDone(p, w, w.proc.page)
    ensures OneRun(labels) && Exec(p, w, labels).Some? && Exec(p, w, labels).value.proc.Completed?
    ensures Rewritten(Exec(p, w, labels).value.log, k)
    decreases Rank(p, w)
  {
    var l := if w.proc == Fetched(k) then Write(2) else FaultFreeLabel(p, w);
    if w.proc == Fetched(k) {
      CanWrite(p, k);
    } else {
      OnTheWay(p, w, k);
    }
    var w' := Next(p, w, l).value;
    RankStep(p, w, l);
    GoesOnStep(p, w, l);
    OpenStep(p, w, l);
    var rest: seq<Label>;
    if w.proc == Fetched(k) {
      rest := FaultFreeRunCompletes(p, w');
      var tail := LogAppends(p, w', rest);
      RepeatedIsRewritten(w.log, k, tail);
    } else {
      FaultFreeStep(p, w);
      rest := RunWritingTwice(p, w', k);
    }
    labels := [l] + rest;
    assert labels[1..] == rest;
  }

  /** A write reported as failed after it landed is tried again: that page lands twice. */
  lemma WriteTwice(p: Plan, k: nat) returns (labels: seq<Label>)
    requires ValidPlan(p) && NothingRefused(p) && Writes(p, k)
    ensures Returns(p, labels) && Rewritten(Exec(p, Init(p), labels).value.log, k)
  {
    InitInv(p);
    LiveStep(p, Init(p), Start);
    var run := RunWritingTwice(p, Started(p, Init(p)), k);
    labels := [Start] + run;
    assert labels[1..] == run;
  }
}
