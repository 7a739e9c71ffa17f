/**
 by_key histories: any sequence of file changes, spec changes and runs cut off anywhere. The stored
 table is at all times the batches installed since there was none, merged in their order, and after a
 finished run every current file is in one of them.
 */
module ByKeyHistory {
  import opened Rows
  import opened Incremental
  import opened Recompute
  import opened ByKey

  /** `batches` is history: what was merged into the output, in order, since there was none. */
  datatype World = World(d: Durable, hash: string, files: seq<InputFile>, batches: seq<seq<InputFile>>)

  predicate KeyedJob(s: Setup, hash: string) {
    s.job(hash).mode.ByKey?
  }

  function KeysOf(s: Setup, hash: string): seq<string> {
    if KeyedJob(s, hash) then s.job(hash).mode.columns else []
  }

  /** A run cut off after `i` durable effects. */
  function Cut(s: Setup, w: World, i: nat): World
    requires i < |RunStates(s, w.d, w.hash, w.files)|
  {
    var w' := w.(d := RunStates(s, w.d, w.hash, w.files)[i]);
    var n, started := |ResetStates(w.d, w.hash, w.files)|, Started(w);
    var batch := Pending(started.d.known, w.files);
    if i == 0 then w
    else if !KeyedJob(s, w.hash) || i < n then w'.(batches := [])
    else if batch == [] then w'.(batches := started.batches)
    else if i == n then w'.(batches := [])  // the old output is gone and the new one not there yet
    else w'.(batches := started.batches + [batch])
  }

  /** What a run works on after its reset, if it has one. */
  function Started(w: World): World {
    w.(d := AfterReset(w.d, w.hash, w.files),
       batches := if NeedsReset(w.d, w.hash, w.files) then [] else w.batches)
  }

  /** A run is cut off after `cut` durable effects, or gets to its end. */
  function Step(s: Setup, w: World, event: Event): World {
    match event
    case Change(hash, files) => w.(hash := hash, files := files)
    case Run(cut) =>
      var n := |RunStates(s, w.d, w.hash, w.files)|;
      Cut(s, w, if cut < n then cut else n - 1)
  }

  function History(s: Setup, w: World, events: seq<Event>): World
    decreases |events|
  {
    if events == [] then w else History(s, Step(s, w, events[0]), events[1..])
  }

  /** The world after a run that gets to its end. */
  function Finished(s: Setup, w: World): World {
    Cut(s, w, |RunStates(s, w.d, w.hash, w.files)| - 1)
  }

  // ------------------------------------------------------------------ The stored table

  /** The rows a batch gave. */
  function RowsFor(s: Setup, hash: string, batch: seq<InputFile>): seq<Row> {
    var rows := s.execute(hash, batch);
    if rows.Some? then rows.value else []
  }

  /** The first batch as it is, each later one merged onto what is there. */
  function Merged(s: Setup, hash: string, batches: seq<seq<InputFile>>): seq<Row>
    requires batches != []
  {
    var n := |batches| - 1;
    if n == 0 then RowsFor(s, hash, batches[0])
    else MergeRows(s.engine, Merged(s, hash, batches[..n]), RowsFor(s, hash, batches[n]), KeysOf(s, hash))
  }

  /** The files the journal lists are in the batches. */
  ghost predicate Covered(known: map<string, string>, batches: seq<seq<InputFile>>) {
    forall k :: k in known ==> InputFile(k, known[k]) in Flatten(batches)
  }

  ghost predicate Holds(s: Setup, hash: string, d: Durable, batches: seq<seq<InputFile>>) {
    && d.output == Some(if batches == [] then [] else [Part(PartZero, Merged(s, hash, batches))])
    && Covered(d.known, batches)
  }

  /** What a by_unit spec left behind is never merged into: going over to by_key resets. */
  ghost predicate Inv(s: Setup, w: World) {
    && DistinctKeys(w.files)
    && (|| w.d.specHash.None? || !KeyedJob(s, w.d.specHash.value)
        || if w.d.output.None? then w.batches == [] else Holds(s, w.d.specHash.value, w.d, w.batches))
  }

  lemma OnePart(part: Part)
    ensures RowsOf([part]) == part.rows
  {
    assert [part][1..] == [];
  }

  /** Merging a batch onto the stored table makes it one batch longer. */
  lemma MergesOneMore(s: Setup, hash: string, d: Durable, batches: seq<seq<InputFile>>, batch: seq<InputFile>)
    requires KeyedJob(s, hash) && Holds(s, hash, d, batches)
    ensures MergeOutput(s.engine, d.output, RowsFor(s, hash, batch), KeysOf(s, hash))
            == Merged(s, hash, batches + [batch])
  {
    var all := batches + [batch];
    assert all[..|all| - 1] == batches && all[|all| - 1] == batch;
    if batches != [] {
      OnePart(d.output.value[0]);
    }
  }

  lemma CoveredByMore(known: map<string, string>, batches: seq<seq<InputFile>>, batch: seq<InputFile>)
    requires Covered(known, batches) && DistinctKeys(batch)
    ensures Covered(known, batches + [batch]) && Covered(Marked(known, batch), batches + [batch])
  {
    FlattenSnoc(batches, batch);
    MarkedMembers(known, batch);
    var marked := Marked(known, batch);
    forall k | k in marked ensures InputFile(k, marked[k]) in Flatten(batches) + batch {
      if f :| f in batch && f.key == k {
        assert f == InputFile(k, marked[k]);
      }
    }
  }

  // ------------------------------------------------------------------ Runs

  lemma CutResets(s: Setup, w: World, i: nat)
    requires 0 < i < |ResetStates(w.d, w.hash, w.files)| && i < |RunStates(s, w.d, w.hash, w.files)|
    ensures var w' := Cut(s, w, i); w'.d.output.None? && w'.batches == [] && w'.files == w.files
  {
    assert RunStates(s, w.d, w.hash, w.files)[i] == ResetStates(w.d, w.hash, w.files)[i];
  }

  lemma CutIdles(s: Setup, w: World, i: nat)
    requires KeyedJob(s, w.hash) && |ResetStates(w.d, w.hash, w.files)| <= i < |RunStates(s, w.d, w.hash, w.files)|
    requires Pending(Started(w).d.known, w.files) == []
    ensures Cut(s, w, i) == Started(w).(d := Opened(Started(w).d))
  {
  }

  /** The world after `j` effects of the work on a batch. */
  function Worked(s: Setup, w: World, j: nat): World {
    var batch := Pending(w.d.known, w.files);
    var merged := MergeOutput(s.engine, w.d.output, RowsFor(s, w.hash, batch), KeysOf(s, w.hash));
    var installed := w.(d := w.d.(output := Some([Part(PartZero, merged)])), batches := w.batches + [batch]);
    if j == 0 then w.(d := w.d.(output := None), batches := [])
    else if j == 1 then installed
    else installed.(d := installed.d.(known := Marked(w.d.known, batch)))
  }

  lemma CutWorks(s: Setup, w: World, i: nat)
    requires KeyedJob(s, w.hash) && |ResetStates(w.d, w.hash, w.files)| <= i < |RunStates(s, w.d, w.hash, w.files)|
    requires Pending(Started(w).d.known, w.files) != []
    ensures i - |ResetStates(w.d, w.hash, w.files)| < 3
    ensures Cut(s, w, i) == Worked(s, Started(w), i - |ResetStates(w.d, w.hash, w.files)|)
  {
    var n := |ResetStates(w.d, w.hash, w.files)|;
    assert RunStates(s, w.d, w.hash, w.files)[i] == WorkStates(s, Started(w).d, w.hash, w.files)[i - n];
  }

  /** Nothing calls for a reset, and the output is what was merged. */
  ghost predicate Ready(s: Setup, w: World) {
    && KeyedJob(s, w.hash) && DistinctKeys(w.files) && !NeedsReset(w.d, w.hash, w.files)
    && Holds(s, w.hash, Opened(w.d), w.batches)
  }

  lemma StartedIsReady(s: Setup, w: World)
    requires Inv(s, w) && KeyedJob(s, w.hash)
    ensures Ready(s, Started(w))
  {
  }

  lemma WorkedHolds(s: Setup, w: World, j: nat)
    requires Ready(s, w)
    ensures var w' := Worked(s, w, j);
            && w'.d.specHash == Some(w.hash) && w'.files == w.files
            && if j == 0 then w'.d.output.None? && w'.batches == [] else Holds(s, w.hash, w'.d, w'.batches)
  {
    var batch := Pending(w.d.known, w.files);
    PendingDistinct(w.d.known, w.files);
    MergesOneMore(s, w.hash, Opened(w.d), w.batches, batch);
    CoveredByMore(w.d.known, w.batches, batch);
  }

  lemma RunKeepsInv(s: Setup, w: World, i: nat)
    requires Inv(s, w) && i < |RunStates(s, w.d, w.hash, w.files)|
    ensures Inv(s, Cut(s, w, i))
  {
    var n := |ResetStates(w.d, w.hash, w.files)|;
    if 0 < i < n {
      CutResets(s, w, i);
    } else if i >= n && !KeyedJob(s, w.hash) {
      CutOfOther(s, w, i);
    } else if i >= n {
      StartedIsReady(s, w);
      if Pending(Started(w).d.known, w.files) == [] {
        CutIdles(s, w, i);
      } else {
        CutWorks(s, w, i);
        WorkedHolds(s, Started(w), i - n);
      }
    }
  }

  lemma CutOfOther(s: Setup, w: World, i: nat)
    requires !KeyedJob(s, w.hash) && |ResetStates(w.d, w.hash, w.files)| <= i < |RunStates(s, w.d, w.hash, w.files)|
    ensures var w' := Cut(s, w, i); w'.files == w.files && w'.d.specHash == Some(w.hash)
  {
    var n := |ResetStates(w.d, w.hash, w.files)|;
    assert RunStates(s, w.d, w.hash, w.files)[i] == WorkStates(s, Started(w).d, w.hash, w.files)[i - n];
  }

  lemma {:induction false} HistoryKeepsInv(s: Setup, w: World, events: seq<Event>)
    requires Inv(s, w) && Tidy(events)
    ensures Inv(s, History(s, w, events))
    decreases |events|
  {
    if events != [] {
      var event := events[0];
      if event.Run? {
        var n := |RunStates(s, w.d, w.hash, w.files)|;
        RunKeepsInv(s, w, if event.cut < n then event.cut else n - 1);
      }
      HistoryKeepsInv(s, Step(s, w, event), events[1..]);
    }
  }

  // ------------------------------------------------------------------ What the output holds

  /** Without a reset every current file is journaled, and so in a batch, or pending. */
  lemma EveryFileIsIn(known: map<string, string>, files: seq<InputFile>, batches: seq<seq<InputFile>>)
    requires Covered(known, batches)
    ensures forall f :: f in files ==> f in Flatten(batches) || f in Pending(known, files)
  {
    forall f | f in files ensures f in Flatten(batches) || f in Pending(known, files) {
      PendingMembers(known, files, f);
      if f.key in known && known[f.key] == f.signature {
        assert InputFile(f.key, known[f.key]) == f;
      }
    }
  }

  /**
   Over any history, a by_key run that gets to its end leaves the batches merged since there was no
   output, in their order, one part, and every current file is in one of them.
   */
  lemma OutputIsMerged(s: Setup, w0: World, events: seq<Event>)
    requires w0.d.specHash.None? && DistinctKeys(w0.files) && Tidy(events)
    requires var w := History(s, w0, events); KeyedJob(s, w.hash) && Completes(s, w.d, w.hash, w.files)
    ensures var w := History(s, w0, events);
            var w' := Finished(s, w);
            && w'.d == Final(s, w.d, w.hash, w.files)
            && w'.d.output == Some(if w'.batches == [] then [] else [Part(PartZero, Merged(s, w.hash, w'.batches))])
            && forall f :: f in w.files ==> f in Flatten(w'.batches)
  {
    var w := History(s, w0, events);
    HistoryKeepsInv(s, w0, events);
    StartedIsReady(s, w);
    var i, started := |RunStates(s, w.d, w.hash, w.files)| - 1, Started(w);
    var batch := Pending(started.d.known, w.files);
    EveryFileIsIn(started.d.known, w.files, started.batches);
    if batch == [] {
      CutIdles(s, w, i);
    } else {
      CutWorks(s, w, i);
      WorkedHolds(s, started, 2);
      FlattenSnoc(started.batches, batch);
    }
  }

  /** The rows of all batches, one after the other. */
  function BatchRows(s: Setup, hash: string, batches: seq<seq<InputFile>>): seq<Row> {
    if batches == [] then []
    else BatchRows(s, hash, batches[..|batches| - 1]) + RowsFor(s, hash, batches[|batches| - 1])
  }

  /** From batches without duplicate keys the table is one row per key, the latest batch winning. */
  lemma {:induction false} MergedOverrides(s: Setup, hash: string, batches: seq<seq<InputFile>>)
    requires batches != [] && forall b :: b in batches ==> KeyUnique(RowsFor(s, hash, b), KeysOf(s, hash))
    ensures KeyUnique(Merged(s, hash, batches), KeysOf(s, hash))
    ensures Index(Merged(s, hash, batches), KeysOf(s, hash)) == Index(BatchRows(s, hash, batches), KeysOf(s, hash))
  {
    var keys, n := KeysOf(s, hash), |batches| - 1;
    var front, last := batches[..n], RowsFor(s, hash, batches[n]);
    assert batches[n] in batches;
    if n == 0 {
      assert BatchRows(s, hash, front) == [];
      assert [] + last == last;
    } else {
      MergedOverrides(s, hash, front);
      MergeIsUnique(s.engine, Merged(s, hash, front), last, keys);
      MergeOverrides(s.engine, Merged(s, hash, front), last, keys);
      IndexAppend(BatchRows(s, hash, front), last, keys);
    }
  }
}
