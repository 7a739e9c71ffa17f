/**
 Blocking on schema drift: the first page with data that a run fetches is compared with the schema
 stored last, so that whether a run gets through depends on where the runs before it ended.
 */
module SchemaDrift {
  import opened Rows
  import opened StateStore
  import opened Protocol
  import opened Runs
  import opened CrashEquivalence

  /** The page a run starts from. */
  function From(p: Plan, w: World): nat {
    if p.resumes then w.frontier else 0
  }

  /** The first page with data that the next run fetches has another schema than the one stored last. */
  ghost predicate Barred(p: Plan, w: World, q: nat) {
    && p.blocksDrift && w.snapshot.Some? && w.snapshot.value != p.schemaOf(p.rowsAt(q))
    && From(p, w) <= q && Open(p, w, q) && (forall j: nat :: From(p, w) <= j < q ==> !Open(p, w, j))
  }

  /** The run under way has not got past that page, nor has it stored a schema. */
  ghost predicate NotPast(p: Plan, w: World, q: nat) {
    && !w.proc.Completed?
    && (Alive(w.proc) ==>
          && !w.recorded && From(p, w) <= w.proc.page <= q
          && (w.proc.page == q ==> w.proc.At? || w.proc.Registered? || w.proc.Running?)
          && (w.proc.page < q && !w.proc.At? && !w.proc.Registered? ==> p.rowsAt(w.proc.page) == []))
  }

  lemma BarredStays(p: Plan, w: World, l: Label, q: nat)
    requires ValidPlan(p) && Barred(p, w, q) && NotPast(p, w, q) && !l.Requeue? && Next(p, w, l).Some?
    requires NotPast(p, Next(p, w, l).value, q)
    ensures Barred(p, Next(p, w, l).value, q)
  {
    var w' := Next(p, w, l).value;
    assert q <= p.last && !l.Commit? ==> From(p, w') == From(p, w);
    forall j: nat | From(p, w') <= j <= q ensures Open(p, w', j) <==> Open(p, w, j) {
      if Alive(w.proc) && j == w.proc.page {
        assert j < q ==> !Open(p, w, j);
      } else {
        OtherPages(p, w, l, j);
      }
    }
  }

  lemma BarredStep(p: Plan, w: World, l: Label, q: nat)
    requires ValidPlan(p) && Barred(p, w, q) && NotPast(p, w, q) && !l.Requeue? && Next(p, w, l).Some?
    ensures NotPast(p, Next(p, w, l).value, q) && Barred(p, Next(p, w, l).value, q)
  {
    assert q <= p.last;
    if Alive(w.proc) {
      assert w.proc.page < q ==> !Open(p, w, w.proc.page);
    }
    BarredStays(p, w, l, q);
  }

  /** Whatever follows but a requeue, no run gets past a page whose schema bars it. */
  lemma {:induction false} BarredForever(p: Plan, w: World, labels: seq<Label>, q: nat)
    requires ValidPlan(p) && Barred(p, w, q) && NotPast(p, w, q) && NoRequeue(labels) && Exec(p, w, labels).Some?
    ensures NotPast(p, Exec(p, w, labels).value, q)
    decreases |labels|
  {
    if labels != [] {
      BarredStep(p, w, labels[0], q);
      BarredForever(p, Next(p, w, labels[0]).value, labels[1..], q);
    }
  }

  lemma MayResumeIff(p: Plan, w: World)
    requires ValidPlan(p) && LiveInv(p, w)
    ensures MayResume(p, w) <==> forall q: nat :: !Barred(p, w, q)
  {
    var w' := Started(p, w);
    forall q: nat ensures Alive(w'.proc) && FirstOpen(p, w', q) && Drifts(p, w', q) <==> Barred(p, w, q) {
      assert Open(p, w, q) ==> q <= p.last;
      if Alive(w'.proc) {
        assert Undecided(w'.proc) == From(p, w);
        assert forall j: nat :: Open(p, w', j) == Open(p, w, j);
      }
    }
  }

  /** A run was cut off or failed, and nothing was requeued. */
  ghost predicate Interrupted(p: Plan, labels: seq<Label>) {
    NoRequeue(labels) && Exec(p, Init(p), labels).Some? && Exec(p, Init(p), labels).value.proc.Down?
  }

  ghost predicate CanStillReturn(p: Plan, labels: seq<Label>) {
    exists more :: Returns(p, labels + more)
  }

  /**
   After an interruption some schedule can still return if and only if no page is refused and the first
   page with data that the next run fetches has the schema stored last.
   */
  lemma CanStillReturnIff(p: Plan, labels: seq<Label>)
    requires ValidPlan(p) && Interrupted(p, labels)
    ensures CanStillReturn(p, labels) <==> NothingRefused(p) && MayResume(p, Exec(p, Init(p), labels).value)
  {
    var w := Exec(p, Init(p), labels).value;
    InitInv(p);
    InvExec(p, Init(p), labels);
    MayResumeIff(p, w);
    if NothingRefused(p) && MayResume(p, w) {
      Continues(p, labels);
    }
    if more :| Returns(p, labels + more) {
      ExecAppend(p, Init(p), labels, more);
      ReturnsIffNothingRefused(p);
      assert NoRequeue(more) by {
        assert forall i :: 0 <= i < |more| ==> more[i] == (labels + more)[|labels| + i];
      }
      if q: nat :| Barred(p, w, q) {
        BarredForever(p, w, more, q);
      }
    }
  }

  lemma Continues(p: Plan, labels: seq<Label>)
    requires ValidPlan(p) && Interrupted(p, labels) && Inv(p, Exec(p, Init(p), labels).value)
    requires NothingRefused(p) && MayResume(p, Exec(p, Init(p), labels).value)
    ensures CanStillReturn(p, labels)
  {
    var w := Exec(p, Init(p), labels).value;
    LiveStep(p, w, Start);
    var run := FaultFreeRunCompletes(p, Started(p, w));
    var more := [Start] + run;
    assert more[1..] == run;
    ExecAppend(p, Init(p), labels, more);
    assert Returns(p, labels + more);
  }

  /**
   Requeueing a done page before the barred one lets runs through again exactly when the position is not
   persisted and that page has the schema stored last.
   */
  lemma RequeueLiftsIff(p: Plan, w: World, q: nat, k: nat)
    requires ValidPlan(p) && LiveInv(p, w) && Barred(p, w, q) && k < q && p.rowsAt(k) != [] && PageDone(p, w, k)
    ensures var requeued := Next(p, w, Requeue(p.unitAt(k))).value;
            MayResume(p, requeued) <==> !p.resumes && w.snapshot == Some(p.schemaOf(p.rowsAt(k)))
  {
    var w' := Next(p, w, Requeue(p.unitAt(k))).value;
    LiveStep(p, w, Requeue(p.unitAt(k)));
    MayResumeIff(p, w');
    assert q <= p.last && InRange(p, q) && InRange(p, k);
    forall j: nat | j <= q ensures Open(p, w', j) <==> Open(p, w, j) || j == k {
      assert InRange(p, j);
    }
    if p.resumes {
      assert Barred(p, w', q);
    } else if w.snapshot.value != p.schemaOf(p.rowsAt(k)) {
      assert Barred(p, w', k);
    } else {
      forall j: nat ensures !Barred(p, w', j) {
        assert Open(p, w', k);
      }
    }
  }

  // ---------------------------------------------------- Traversals no interruption can block

  /** Every page a run may have to get past before it comes to page `k` as its first one is accepted. */
  ghost predicate Preceded(p: Plan, k: nat) {
    if p.resumes then k == 0 || VerdictAt(p, k - 1) == Accept
    else forall j: nat :: j < k ==> VerdictAt(p, j) == Accept
  }

  /** Some run may come to compare the schema of page `k`. */
  ghost predicate Compared(p: Plan, k: nat) {
    p.rowsAt(k) != [] && Preceded(p, k)
  }

  ghost predicate OneSchema(p: Plan) {
    forall i: nat, j: nat :: Compared(p, i) && Compared(p, j) ==> p.schemaOf(p.rowsAt(i)) == p.schemaOf(p.rowsAt(j))
  }

  /** The schema stored is that of a compared page, and a run that has stored none is before such a page. */
  ghost predicate SnapshotInv(p: Plan, w: World) {
    && (w.snapshot.Some? ==> exists i: nat :: Compared(p, i) && w.snapshot.value == p.schemaOf(p.rowsAt(i)))
    && StillToCompare(p, w)
  }

  ghost predicate StillToCompare(p: Plan, w: World) {
    Alive(w.proc) && !w.recorded ==>
      Preceded(p, w.proc.page) && (w.proc.Fetched? || w.proc.Written? ==> p.rowsAt(w.proc.page) == [])
  }

  lemma SnapshotStep(p: Plan, w: World, l: Label)
    requires ValidPlan(p) && Inv(p, w) && SnapshotInv(p, w) && !l.Requeue? && Next(p, w, l).Some?
    ensures SnapshotInv(p, Next(p, w, l).value)
  {
    StillToCompareStep(p, w, l);
    if l.Fetch? && !w.recorded {
      assert p.rowsAt(w.proc.page) != [] ==> Compared(p, w.proc.page);
    }
  }

  lemma StillToCompareStep(p: Plan, w: World, l: Label)
    requires ValidPlan(p) && Inv(p, w) && StillToCompare(p, w) && !l.Requeue? && Next(p, w, l).Some?
    ensures StillToCompare(p, Next(p, w, l).value)
  {
    if l.Start? {
      StartsPreceded(p, w);
    } else if Alive(w.proc) && !w.recorded {
      GoesOnPreceded(p, w, l);
    }
  }

  /** While a run has stored no schema, the pages it passes are done or empty, and so accepted. */
  lemma GoesOnPreceded(p: Plan, w: World, l: Label)
    requires ValidPlan(p) && Inv(p, w) && StillToCompare(p, w) && Alive(w.proc) && !w.recorded
    requires !l.Start? && !l.Requeue? && Next(p, w, l).Some?
    ensures StillToCompare(p, Next(p, w, l).value)
  {
    if l.Skip? {
      assert InRange(p, w.proc.page) && !p.resumes;
    }
  }

  lemma StartsPreceded(p: Plan, w: World)
    requires ValidPlan(p) && Inv(p, w)
    ensures Preceded(p, From(p, w))
  {
    assert p.resumes && w.frontier > 0 ==> InRange(p, w.frontier - 1) && PageDone(p, w, w.frontier - 1);
  }

  lemma {:induction false} SnapshotExec(p: Plan, w: World, labels: seq<Label>)
    requires ValidPlan(p) && Inv(p, w) && SnapshotInv(p, w) && NoRequeue(labels) && Exec(p, w, labels).Some?
    ensures SnapshotInv(p, Exec(p, w, labels).value)
    decreases |labels|
  {
    if labels != [] {
      InvStep(p, w, labels[0]);
      SnapshotStep(p, w, labels[0]);
      SnapshotExec(p, Next(p, w, labels[0]).value, labels[1..]);
    }
  }

  /** The page that bars a run is one that runs compare. */
  lemma BarredIsCompared(p: Plan, w: World, q: nat)
    requires ValidPlan(p) && Inv(p, w) && Barred(p, w, q)
    ensures Compared(p, q)
  {
    forall j: nat | From(p, w) <= j < q ensures VerdictAt(p, j) == Accept {
      assert InRange(p, j) && !Open(p, w, j);
    }
    assert p.resumes && w.frontier > 0 ==> InRange(p, w.frontier - 1) && PageDone(p, w, w.frontier - 1);
  }

  /** What a run without faults has stored: the schema of the first page with data, once past it. */
  ghost predicate Watches(p: Plan, w: World, first: nat)
    requires Alive(w.proc)
  {
    if Undecided(w.proc) <= first then !w.recorded && w.snapshot.None?
    else w.recorded && w.snapshot == Some(p.schemaOf(p.rowsAt(first)))
  }

  ghost predicate FirstWithData(p: Plan, first: nat) {
    p.rowsAt(first) != [] && forall j: nat :: j < first ==> p.rowsAt(j) == []
  }

  lemma {:induction false} FindFirst(p: Plan, k: nat, from: nat) returns (first: nat)
    requires from <= k && p.rowsAt(k) != [] && forall j: nat :: j < from ==> p.rowsAt(j) == []
    ensures FirstWithData(p, first) && first <= k
    decreases k - from
  {
    first := from;
    if p.rowsAt(from) == [] {
      first := FindFirst(p, k, from + 1);
    }
  }

  lemma WatchesStep(p: Plan, w: World, first: nat, g: nat)
    requires ValidPlan(p) && NothingRefused(p) && FirstWithData(p, first) && g <= p.last
    requires LiveInv(p, w) && CleanSoFar(p, w) && Alive(w.proc) && Watches(p, w, first) && w.proc.page < g
    requires w.proc.Running? ==> !PageDone(p, w, w.proc.page)
    ensures Smooth(FaultFreeLabel(p, w)) && Next(p, w, FaultFreeLabel(p, w)).Some?
    ensures var w' := Next(p, w, FaultFreeLabel(p, w)).value;
            Alive(w'.proc) && Watches(p, w', first) && (w'.proc.page < g || w'.proc == At(g))
  {
    FaultFreeStep(p, w);
    assert InRange(p, w.proc.page) && !PageDone(p, w, w.proc.page);
  }

  /** A run without faults gets to any page. */
  lemma {:induction false} ReachAt(p: Plan, w: World, first: nat, g: nat) returns (labels: seq<Label>)
    requires ValidPlan(p) && NothingRefused(p) && FirstWithData(p, first) && g <= p.last
    requires LiveInv(p, w) && CleanSoFar(p, w) && Alive(w.proc) && Watches(p, w, first)
    requires w.proc.page < g || w.proc == At(g)
    requires w.proc.Running? ==> !PageDone(p, w, w.proc.page)
    ensures FaultFree(labels) && Exec(p, w, labels).Some?
    ensures var w' := Exec(p, w, labels).value; w'.proc == At(g) && CleanSoFar(p, w') && Watches(p, w', first)
    decreases Rank(p, w)
  {
    labels := [];
    if w.proc != At(g) {
      var l := FaultFreeLabel(p, w);
      WatchesStep(p, w, first, g);
      RankStep(p, w, l);
      CleanStep(p, w, l);
      OpenStep(p, w, l);
      var rest := ReachAt(p, Next(p, w, l).value, first, g);
      labels := [l] + rest;
      assert labels[1..] == rest;
    }
  }

  /** The first run dies. */
  lemma CutOff(p: Plan, run: seq<Label>) returns (labels: seq<Label>)
    requires FaultFree(run) && Exec(p, Started(p, Init(p)), run).Some?
    requires Alive(Exec(p, Started(p, Init(p)), run).value.proc)
    ensures Interrupted(p, labels)
    ensures Exec(p, Init(p), labels) == Some(Exec(p, Started(p, Init(p)), run).value.(proc := Down))
  {
    var w1 := Started(p, Init(p));
    assert [Crash][1..] == [];
    ExecAppend(p, w1, run, [Crash]);
    labels := [Start] + (run + [Crash]);
    assert labels[1..] == run + [Crash];
  }

  lemma BarredCannotReturn(p: Plan, labels: seq<Label>, q: nat)
    requires ValidPlan(p) && Interrupted(p, labels) && Barred(p, Exec(p, Init(p), labels).value, q)
    ensures !CanStillReturn(p, labels)
  {
    InitInv(p);
    InvExec(p, Init(p), labels);
    MayResumeIff(p, Exec(p, Init(p), labels).value);
    CanStillReturnIff(p, labels);
  }

  /** A compared page whose schema differs from that of the first page with data: dying before it bars it. */
  lemma DiesBefore(p: Plan, first: nat, g: nat) returns (labels: seq<Label>)
    requires ValidPlan(p) && NothingRefused(p) && p.blocksDrift && FirstWithData(p, first) && Compared(p, g)
    requires p.schemaOf(p.rowsAt(g)) != p.schemaOf(p.rowsAt(first))
    ensures Interrupted(p, labels) && !CanStillReturn(p, labels)
  {
    InitInv(p);
    InvStep(p, Init(p), Start);
    assert first < g <= p.last;
    var run := ReachAt(p, Started(p, Init(p)), first, g);
    labels := CutOff(p, run);
    var w, down := Exec(p, Started(p, Init(p)), run).value, Exec(p, Init(p), labels).value;
    InvExec(p, Started(p, Init(p)), run);
    AcceptedAreDone(p, w);
    BarsBefore(p, w, down, first, g);
    BarredCannotReturn(p, labels, g);
  }

  lemma AcceptedAreDone(p: Plan, w: World)
    requires Inv(p, w) && w.proc.At? && w.proc.page <= p.last
    ensures forall j: nat :: j < w.proc.page && VerdictAt(p, j) == Accept ==> PageDone(p, w, j)
  {
    forall j: nat | j < w.proc.page && VerdictAt(p, j) == Accept ensures PageDone(p, w, j) {
      assert InRange(p, j) && Settled(p, w, j);
    }
  }

  lemma BarsBefore(p: Plan, w: World, down: World, first: nat, g: nat)
    requires ValidPlan(p) && down == w.(proc := Down) && LiveInv(p, w) && p.blocksDrift
    requires Compared(p, g) && first < g <= p.last
    requires forall j: nat :: j < g && VerdictAt(p, j) == Accept ==> PageDone(p, w, j)
    requires w.proc == At(g) && w.frontier <= g && Watches(p, w, first)
    requires p.schemaOf(p.rowsAt(g)) != p.schemaOf(p.rowsAt(first))
    ensures Barred(p, down, g)
  {
    assert InRange(p, g) && !PageDone(p, w, g);
    if p.resumes {
      assert InRange(p, g - 1) && PageDone(p, w, g - 1);
    }
    forall j: nat ensures PageDone(p, down, j) == PageDone(p, w, j) {
    }
  }

  /** Whatever interrupts it, the collection can still be completed. */
  ghost predicate NeverBlocked(p: Plan) {
    forall labels :: Interrupted(p, labels) ==> CanStillReturn(p, labels)
  }

  /**
   Schema drift blocks no interrupted collection if and only if all pages that a run may come to as its
   first one with data have one schema: in cursor and link mode those after an accepted page, in offset
   and page mode those before which every page is accepted. Other pages may have any schema.
   */
  lemma NeverBlockedIff(p: Plan)
    requires ValidPlan(p) && NothingRefused(p) && p.blocksDrift
    ensures NeverBlocked(p) <==> OneSchema(p)
  {
    if OneSchema(p) {
      forall labels | Interrupted(p, labels) ensures CanStillReturn(p, labels) {
        OneSchemaResumes(p, labels);
      }
    } else {
      var i: nat, j: nat :|
        Compared(p, i) && Compared(p, j) && p.schemaOf(p.rowsAt(i)) != p.schemaOf(p.rowsAt(j));
      var first := FindFirst(p, i, 0);
      var g := if p.schemaOf(p.rowsAt(i)) != p.schemaOf(p.rowsAt(first)) then i else j;
      var labels := DiesBefore(p, first, g);
    }
  }

  lemma OneSchemaResumes(p: Plan, labels: seq<Label>)
    requires ValidPlan(p) && NothingRefused(p) && OneSchema(p) && Interrupted(p, labels)
    ensures CanStillReturn(p, labels)
  {
    var w := Exec(p, Init(p), labels).value;
    InitInv(p);
    InvExec(p, Init(p), labels);
    SnapshotExec(p, Init(p), labels);
    MayResumeIff(p, w);
    forall q: nat ensures !Barred(p, w, q) {
      if Barred(p, w, q) {
        BarredIsCompared(p, w, q);
      }
    }
    CanStillReturnIff(p, labels);
  }
}
