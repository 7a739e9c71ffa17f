/**
 by_unit histories: any sequence of file changes, spec changes and runs cut off anywhere. What a
 finished run leaves is what recomputing everything gives, and besides only the rows of parts that
 earlier runs published and could not journal.
 */
module ByUnit {
  import opened Rows
  import opened Incremental
  import opened Recompute

  /**
   `journaled` and `torn` are history, and kept since the last reset: the batches whose files the
   journal lists, and those that were published but not journaled and not published again since.
   */
  datatype World = World(
    d: Durable, hash: string, files: seq<InputFile>,
    journaled: seq<seq<InputFile>>, torn: seq<seq<InputFile>>)

  predicate IsByUnit(s: Setup, hash: string) {
    s.job(hash).mode == Mode.ByUnit
  }

  /** A list without the first occurrence of an element. */
  function Minus<T(==)>(list: seq<T>, x: T): seq<T> {
    if list == [] then [] else if list[0] == x then list[1..] else [list[0]] + Minus(list[1..], x)
  }

  function Plus<T(==)>(list: seq<T>, x: T): seq<T> {
    if x in list then list else list + [x]
  }

  /** A run cut off after `i` durable effects. */
  function Cut(s: Setup, w: World, i: nat): World
    requires i < |RunStates(s, w.d, w.hash, w.files)|
  {
    var w' := w.(d := RunStates(s, w.d, w.hash, w.files)[i]);
    if i == 0 then w'
    else
      var resets := NeedsReset(w.d, w.hash, w.files);
      var n := |ResetStates(w.d, w.hash, w.files)|;
      var journaled, torn := if resets then [] else w.journaled, if resets then [] else w.torn;
      var batch := Pending(AfterReset(w.d, w.hash, w.files).known, w.files);
      if !IsByUnit(s, w.hash) then w'.(journaled := [], torn := [])
      else if i <= n || batch == [] then w'.(journaled := journaled, torn := torn)
      else if i == n + 1 then w'.(journaled := journaled, torn := Plus(torn, batch))
      else w'.(journaled := journaled + [batch], torn := Minus(torn, batch))
  }

  /** A run is cut off after `cut` durable effects, or gets to its end. */
  function Step(s: Setup, w: World, event: Event): World {
    match event
    case Change(hash, files) => w.(hash := hash, files := files)
    case Run(cut) =>
      var n := |RunStates(s, w.d, w.hash, w.files)|;
      Cut(s, w, if cut < n then cut else n - 1)
  }

  function History(s: Setup, w: World, events: seq<Event>): World
    decreases |events|
  {
    if events == [] then w else History(s, Step(s, w, events[0]), events[1..])
  }

  /** The world after a run that gets to its end. */
  function Finished(s: Setup, w: World): World {
    Cut(s, w, |RunStates(s, w.d, w.hash, w.files)| - 1)
  }

  // ------------------------------------------------------------------ Invariant

  /** The batches the parts are named by. */
  function BatchesOf(parts: seq<Part>): (batches: seq<seq<InputFile>>)
    ensures |batches| == |parts|
    ensures forall i :: 0 <= i < |parts| && parts[i].name.BatchPart? ==> batches[i] == parts[i].name.pending
  {
    seq(|parts|, i requires 0 <= i < |parts| => if parts[i].name.BatchPart? then parts[i].name.pending else [])
  }

  ghost predicate PartOk(s: Setup, hash: string, part: Part) {
    && part.name.BatchPart? && part.name.pending != []
    && s.execute(hash, part.name.pending) == Some(part.rows)
  }

  ghost predicate PartsOk(s: Setup, hash: string, parts: seq<Part>) {
    (forall i :: 0 <= i < |parts| ==> PartOk(s, hash, parts[i])) && Distinct(BatchesOf(parts))
  }

  /** The parts are the journaled and the torn batches, and the journal lists the files of the former. */
  ghost predicate Accounted(
    s: Setup, hash: string, known: map<string, string>, parts: seq<Part>,
    journaled: seq<seq<InputFile>>, torn: seq<seq<InputFile>>)
  {
    && PartsOk(s, hash, parts)
    && multiset(BatchesOf(parts)) == multiset(journaled) + multiset(torn)
    && DistinctKeys(Flatten(journaled)) && Journals(known, Flatten(journaled))
  }

  /** What a by_key spec left behind is never added to: going over to by_unit resets. */
  ghost predicate Inv(s: Setup, w: World) {
    && DistinctKeys(w.files)
    && (|| w.d.specHash.None? || !IsByUnit(s, w.d.specHash.value)
        || if w.d.output.None? then w.journaled == [] && w.torn == []
           else Accounted(s, w.d.specHash.value, w.d.known, w.d.output.value, w.journaled, w.torn))
  }

  // ------------------------------------------------------------------ Publishing

  lemma {:induction false} PublishNew(parts: seq<Part>, part: Part)
    requires forall i :: 0 <= i < |parts| ==> parts[i].name != part.name
    ensures Publish(parts, part) == parts + [part]
  {
    if parts != [] {
      PublishNew(parts[1..], part);
    }
  }

  lemma {:induction false} PublishAgain(parts: seq<Part>, part: Part)
    requires part in parts && forall i :: 0 <= i < |parts| && parts[i].name == part.name ==> parts[i] == part
    ensures Publish(parts, part) == parts
  {
    assert parts == [parts[0]] + parts[1..];
    if parts[0].name != part.name {
      PublishAgain(parts[1..], part);
    }
  }

  /** Publishing a batch adds its part, or finds it there with the same rows. */
  lemma PublishBatch(s: Setup, hash: string, parts: seq<Part>, batch: seq<InputFile>, rows: seq<Row>)
    requires PartsOk(s, hash, parts) && batch != [] && s.execute(hash, batch) == Some(rows)
    ensures var part, batches := Part(BatchPart(batch), rows), BatchesOf(parts);
            Publish(parts, part) == if batch in batches then parts else parts + [part]
    ensures PartsOk(s, hash, Publish(parts, Part(BatchPart(batch), rows)))
    ensures BatchesOf(Publish(parts, Part(BatchPart(batch), rows))) == Plus(BatchesOf(parts), batch)
  {
    var part, batches := Part(BatchPart(batch), rows), BatchesOf(parts);
    forall i | 0 <= i < |parts| ensures PartOk(s, hash, parts[i]) && batches[i] == parts[i].name.pending {
    }
    if batch in batches {
      var i :| 0 <= i < |batches| && batches[i] == batch;
      assert parts[i] == part;
      PublishAgain(parts, part);
    } else {
      PublishNew(parts, part);
      assert BatchesOf(parts + [part]) == batches + [batch];
    }
  }

  /** Without a reset every pending file is new to the journal. */
  lemma PendingIsNew(d: Durable, hash: string, files: seq<InputFile>)
    requires !NeedsReset(d, hash, files) && DistinctKeys(files)
    ensures DistinctKeys(Pending(d.known, files))
    ensures forall f :: f in Pending(d.known, files) ==> f in files && f.key !in d.known
  {
    PendingDistinct(d.known, files);
    forall f | f in Pending(d.known, files) ensures f in files && f.key !in d.known {
      PendingMembers(d.known, files, f);
      var i :| 0 <= i < |files| && files[i] == f;
      assert files[i].key == f.key && files[i].signature == f.signature;
    }
  }

  lemma AppendKeepsDistinct(known: map<string, string>, old_: seq<InputFile>, new_: seq<InputFile>)
    requires DistinctKeys(old_) && DistinctKeys(new_) && Journals(known, old_)
    requires forall f :: f in new_ ==> f.key !in known
    ensures DistinctKeys(old_ + new_)
  {
    var all := old_ + new_;
    forall i, j | 0 <= i < j < |all| ensures all[i].key != all[j].key {
      assert i < |old_| ==> old_[i] in old_;
      assert j >= |old_| ==> new_[j - |old_|] in new_;
    }
  }

  lemma {:induction false} FlattenHas<T>(lists: seq<seq<T>>, list: seq<T>, x: T)
    requires list in lists && x in list
    ensures x in Flatten(lists)
  {
    if lists[0] != list {
      FlattenHas(lists[1..], list, x);
    }
  }

  /** A batch with a file the journal does not list is not journaled. */
  lemma BatchIsNew(known: map<string, string>, journaled: seq<seq<InputFile>>, batch: seq<InputFile>)
    requires Journals(known, Flatten(journaled)) && batch != [] && batch[0].key !in known
    ensures batch !in journaled
  {
    if batch in journaled {
      FlattenHas(journaled, batch, batch[0]);
    }
  }

  lemma {:induction false} MinusBag<T>(list: seq<T>, x: T)
    ensures multiset(Minus(list, x)) == multiset(list) - multiset{x}
  {
    if list != [] {
      assert list == [list[0]] + list[1..];
      if list[0] != x {
        MinusBag(list[1..], x);
        assert multiset(list) == multiset{list[0]} + multiset(list[1..]);
      }
    }
  }

  lemma {:induction false} OneOfEach<T>(list: seq<T>, x: T)
    requires Distinct(list)
    ensures multiset(list)[x] == if x in list then 1 else 0
  {
    if list != [] {
      assert list == [list[0]] + list[1..];
      assert forall i :: 0 <= i < |list[1..]| ==> list[1..][i] == list[i + 1];
      OneOfEach(list[1..], x);
    }
  }

  /** A part published: torn, whether it was torn before or is new. */
  lemma PublishedIsAccounted(
    s: Setup, hash: string, known: map<string, string>, parts: seq<Part>, batch: seq<InputFile>, rows: seq<Row>,
    journaled: seq<seq<InputFile>>, torn: seq<seq<InputFile>>)
    requires Accounted(s, hash, known, parts, journaled, torn)
    requires batch != [] && (forall f :: f in batch ==> f.key !in known) && s.execute(hash, batch) == Some(rows)
    ensures Accounted(s, hash, known, Publish(parts, Part(BatchPart(batch), rows)), journaled, Plus(torn, batch))
  {
    PublishBatch(s, hash, parts, batch, rows);
    BatchIsNew(known, journaled, batch);
    var batches := BatchesOf(parts);
    assert batch in batches <==> batch in multiset(batches);
    assert batch in torn <==> batch in multiset(torn);
    assert batch !in multiset(journaled);
    if batch !in batches {
      assert multiset(batches + [batch]) == multiset(batches) + multiset{batch};
      assert multiset(torn + [batch]) == multiset(torn) + multiset{batch};
    }
  }

  /** Its files journaled: it is torn no more. */
  lemma MarkedIsAccounted(
    s: Setup, hash: string, known: map<string, string>, parts: seq<Part>, batch: seq<InputFile>,
    journaled: seq<seq<InputFile>>, torn: seq<seq<InputFile>>)
    requires Accounted(s, hash, known, parts, journaled, torn) && batch in torn
    requires DistinctKeys(batch) && forall f :: f in batch ==> f.key !in known
    ensures Accounted(s, hash, Marked(known, batch), parts, journaled + [batch], Minus(torn, batch))
  {
    MinusBag(torn, batch);
    assert multiset(journaled + [batch]) == multiset(journaled) + multiset{batch};
    assert batch in multiset(torn);
    AppendKeepsDistinct(known, Flatten(journaled), batch);
    MarkingExtends(known, Flatten(journaled), batch);
    FlattenSnoc(journaled, batch);
  }

  lemma PlusThenMinus<T>(list: seq<T>, x: T)
    ensures x in Plus(list, x) && Minus(Plus(list, x), x) == Minus(list, x)
  {
    if x !in list {
      MinusLast(list, x);
    }
  }

  lemma {:induction false} MinusLast<T>(list: seq<T>, x: T)
    requires x !in list
    ensures Minus(list + [x], x) == list && Minus(list, x) == list
  {
    if list != [] {
      assert (list + [x])[1..] == list[1..] + [x];
      MinusLast(list[1..], x);
    }
  }

  // ------------------------------------------------------------------ Runs

  /** What a by_unit run works on after its reset, if it has one. */
  function Started(s: Setup, w: World): World {
    var resets := NeedsReset(w.d, w.hash, w.files);
    w.(d := AfterReset(w.d, w.hash, w.files),
       journaled := if resets then [] else w.journaled, torn := if resets then [] else w.torn)
  }

  /** Nothing calls for a reset, and parts and journal are accounted for. */
  ghost predicate Ready(s: Setup, w: World) {
    && IsByUnit(s, w.hash) && DistinctKeys(w.files) && !NeedsReset(w.d, w.hash, w.files)
    && Accounted(s, w.hash, w.d.known, Opened(w.d).output.value, w.journaled, w.torn)
  }

  lemma NothingAccounted(s: Setup, hash: string)
    ensures Accounted(s, hash, map[], [], [], [])
  {
    var none: seq<seq<InputFile>> := [];
    assert BatchesOf([]) == none;
  }

  lemma StartedIsReady(s: Setup, w: World)
    requires Inv(s, w) && IsByUnit(s, w.hash)
    ensures Ready(s, Started(s, w))
  {
    NothingAccounted(s, w.hash);
  }

  /** The world after `j` effects of the work on a batch with these rows. */
  function Worked(w: World, rows: seq<Row>, j: nat): World {
    var batch := Pending(w.d.known, w.files);
    var parts := Publish(Opened(w.d).output.value, Part(BatchPart(batch), rows));
    if j == 0 then w.(d := Opened(w.d))
    else if j == 1 then w.(d := w.d.(output := Some(parts)), torn := Plus(w.torn, batch))
    else
      w.(d := w.d.(output := Some(parts), known := Marked(w.d.known, batch)),
         journaled := w.journaled + [batch], torn := Minus(w.torn, batch))
  }

  /** What is published and what is journaled then is accounted for. */
  lemma WorkedIsAccounted(s: Setup, w: World, rows: seq<Row>, j: nat)
    requires Ready(s, w) && Pending(w.d.known, w.files) != []
    requires s.execute(w.hash, Pending(w.d.known, w.files)) == Some(rows)
    ensures var w' := Worked(w, rows, j);
            && w'.d.output.Some? && w'.d.specHash == Some(w.hash)
            && Accounted(s, w.hash, w'.d.known, w'.d.output.value, w'.journaled, w'.torn)
  {
    if j > 0 {
      var batch := Pending(w.d.known, w.files);
      PendingIsNew(w.d, w.hash, w.files);
      PublishedIsAccounted(s, w.hash, w.d.known, Opened(w.d).output.value, batch, rows, w.journaled, w.torn);
      if j > 1 {
        var parts := Publish(Opened(w.d).output.value, Part(BatchPart(batch), rows));
        PlusThenMinus(w.torn, batch);
        MarkedIsAccounted(s, w.hash, w.d.known, parts, batch, w.journaled, Plus(w.torn, batch));
      }
    }
  }

  lemma CutResets(s: Setup, w: World, i: nat)
    requires IsByUnit(s, w.hash) && 0 < i < |ResetStates(w.d, w.hash, w.files)|
    requires i < |RunStates(s, w.d, w.hash, w.files)|
    ensures var w' := Cut(s, w, i); w'.d.output.None? && w'.journaled == [] && w'.torn == [] && w'.files == w.files
  {
    assert RunStates(s, w.d, w.hash, w.files)[i] == ResetStates(w.d, w.hash, w.files)[i];
  }

  lemma CutIdles(s: Setup, w: World, i: nat)
    requires IsByUnit(s, w.hash) && |ResetStates(w.d, w.hash, w.files)| <= i < |RunStates(s, w.d, w.hash, w.files)|
    requires Pending(Started(s, w).d.known, w.files) == []
    ensures Cut(s, w, i) == Started(s, w).(d := Opened(Started(s, w).d))
  {
  }

  lemma CutWorks(s: Setup, w: World, i: nat)
    requires IsByUnit(s, w.hash) && |ResetStates(w.d, w.hash, w.files)| <= i < |RunStates(s, w.d, w.hash, w.files)|
    requires Pending(Started(s, w).d.known, w.files) != []
    ensures var rows := s.execute(w.hash, Pending(Started(s, w).d.known, w.files));
            && rows.Some? && i - |ResetStates(w.d, w.hash, w.files)| < 3
            && Cut(s, w, i) == Worked(Started(s, w), rows.value, i - |ResetStates(w.d, w.hash, w.files)|)
  {
    var n := |ResetStates(w.d, w.hash, w.files)|;
    assert RunStates(s, w.d, w.hash, w.files)[i] == WorkStates(s, Started(s, w).d, w.hash, w.files)[i - n];
  }

  /** Every durable state a by_unit run passes through keeps the invariant. */
  lemma ByUnitRunKeepsInv(s: Setup, w: World, i: nat)
    requires Inv(s, w) && IsByUnit(s, w.hash) && i < |RunStates(s, w.d, w.hash, w.files)|
    ensures Inv(s, Cut(s, w, i))
  {
    var n, started := |ResetStates(w.d, w.hash, w.files)|, Started(s, w);
    if 0 < i < n {
      CutResets(s, w, i);
    } else if i >= n {
      StartedIsReady(s, w);
      if Pending(started.d.known, w.files) == [] {
        CutIdles(s, w, i);
      } else {
        CutWorks(s, w, i);
        WorkedIsAccounted(s, started, s.execute(w.hash, Pending(started.d.known, w.files)).value, i - n);
      }
    }
  }

  /** A by_key run leaves the state it found, no output, or its own hash. */
  lemma CutOfOther(s: Setup, w: World, i: nat)
    requires !IsByUnit(s, w.hash) && i < |RunStates(s, w.d, w.hash, w.files)|
    ensures var w' := Cut(s, w, i);
            && w'.files == w.files
            && (|| w' == w
                || (w'.journaled == [] && w'.torn == [] && (w'.d.specHash == Some(w.hash) || w'.d.output.None?)))
  {
    var n, all := |ResetStates(w.d, w.hash, w.files)|, RunStates(s, w.d, w.hash, w.files);
    if i >= n {
      assert all[i] == WorkStates(s, AfterReset(w.d, w.hash, w.files), w.hash, w.files)[i - n];
    }
  }

  lemma RunKeepsInv(s: Setup, w: World, i: nat)
    requires Inv(s, w) && i < |RunStates(s, w.d, w.hash, w.files)|
    ensures Inv(s, Cut(s, w, i))
  {
    if IsByUnit(s, w.hash) {
      ByUnitRunKeepsInv(s, w, i);
    } else {
      CutOfOther(s, w, i);
    }
  }

  lemma {:induction false} HistoryKeepsInv(s: Setup, w: World, events: seq<Event>)
    requires Inv(s, w) && Tidy(events)
    ensures Inv(s, History(s, w, events))
    decreases |events|
  {
    if events != [] {
      var event := events[0];
      if event.Run? {
        var n := |RunStates(s, w.d, w.hash, w.files)|;
        RunKeepsInv(s, w, if event.cut < n then event.cut else n - 1);
      }
      HistoryKeepsInv(s, Step(s, w, event), events[1..]);
    }
  }

  // ------------------------------------------------------------------ What the output holds

  /** The rows of the parts, read by name, are what is meant by the files of their batches. */
  lemma {:induction false} PartsMean(s: Setup, hash: string, parts: seq<Part>)
    requires Faithful(s) && RowLocalJob(s, hash) && forall i :: 0 <= i < |parts| ==> PartOk(s, hash, parts[i])
    ensures ReadAll(RowsOf(parts)) == Meant(s, hash, Flatten(BatchesOf(parts)))
  {
    if parts == [] {
      MeantNothing(s, hash);
    } else {
      assert PartOk(s, hash, parts[0]);
      PartsMean(s, hash, parts[1..]);
      assert BatchesOf(parts)[1..] == BatchesOf(parts[1..]);
      ExecuteMeans(s, hash, parts[0].name.pending);
      ReadAppend(parts[0].rows, RowsOf(parts[1..]));
      MeantAppend(s, hash, parts[0].name.pending, Flatten(BatchesOf(parts[1..])));
    }
  }

  lemma FlattenAround<T>(before: seq<seq<T>>, x: seq<T>, after: seq<seq<T>>)
    ensures multiset(Flatten(before + ([x] + after))) == multiset(x) + multiset(Flatten(before + after))
  {
    FlattenAppend(before, [x] + after);
    FlattenAppend([x], after);
    FlattenAppend(before, after);
    assert [x][1..] == [];
    assert Flatten([x]) == x;
  }

  lemma {:induction false} FlattenPermuted<T>(a: seq<seq<T>>, b: seq<seq<T>>)
    requires multiset(a) == multiset(b)
    ensures multiset(Flatten(a)) == multiset(Flatten(b))
    decreases |a|
  {
    if a == [] {
      assert |multiset(b)| == 0;
      assert b == [];
    } else {
      var before, after := FindHead(a, b);
      FlattenPermuted(a[1..], before + after);
      FlattenAround(before, a[0], after);
      assert Flatten(a) == a[0] + Flatten(a[1..]);
    }
  }

  /** The output holds what the journaled batches mean and what the torn ones mean. */
  lemma AccountedMeans(s: Setup, w: World)
    requires Faithful(s) && RowLocalJob(s, w.hash) && w.d.output.Some?
    requires Accounted(s, w.hash, w.d.known, w.d.output.value, w.journaled, w.torn)
    ensures multiset(ReadAll(RowsOf(w.d.output.value)))
            == multiset(Meant(s, w.hash, Flatten(w.journaled))) + multiset(Meant(s, w.hash, Flatten(w.torn)))
  {
    var batches := BatchesOf(w.d.output.value);
    PartsMean(s, w.hash, w.d.output.value);
    assert multiset(batches) == multiset(w.journaled + w.torn);
    FlattenPermuted(batches, w.journaled + w.torn);
    FlattenAppend(w.journaled, w.torn);
    MeantPermuted(s, w.hash, Flatten(batches), Flatten(w.journaled) + Flatten(w.torn));
    MeantAppend(s, w.hash, Flatten(w.journaled), Flatten(w.torn));
  }

  /** Where no reset is called for, the current files are the journaled and the pending ones. */
  lemma FilesAreJournaledAndPending(d: Durable, hash: string, files: seq<InputFile>, entries: seq<InputFile>)
    requires DistinctKeys(files) && !NeedsReset(d, hash, files)
    requires DistinctKeys(entries) && Journals(d.known, entries)
    ensures multiset(entries + Pending(d.known, files)) == multiset(files)
  {
    var pending := Pending(d.known, files);
    PendingIsNew(d, hash, files);
    AppendKeepsDistinct(d.known, entries, pending);
    forall f ensures f in entries + pending <==> f in files {
      PendingMembers(d.known, files, f);
      if f in entries {
        var i :| 0 <= i < |files| && files[i].key == f.key;
        assert !(files[i].key in d.known && d.known[files[i].key] != files[i].signature);
        assert files[i] == f;
      }
      if f in files && f.key in d.known && d.known[f.key] == f.signature {
        var g :| g in entries && g.key == f.key;
        assert g == f;
      }
    }
    SameMembersSameBag(entries + pending, files);
  }

  /** After a run that got to its end the journaled batches are the current files. */
  lemma FinishedIsAccounted(s: Setup, w: World)
    requires Inv(s, w) && IsByUnit(s, w.hash) && Completes(s, w.d, w.hash, w.files)
    ensures var w' := Finished(s, w);
            && w'.d.output.Some? && w'.hash == w.hash && w'.files == w.files
            && Accounted(s, w.hash, w'.d.known, w'.d.output.value, w'.journaled, w'.torn)
            && multiset(Flatten(w'.journaled)) == multiset(w.files)
            && w'.torn == Left(s, w)
  {
    var started := Started(s, w);
    var batch := Pending(started.d.known, w.files);
    StartedIsReady(s, w);
    LastCut(s, w);
    if batch == [] {
      NothingToDo(s, started);
    } else {
      WorkedIsAccounted(s, started, s.execute(w.hash, batch).value, 2);
      BatchDone(s, started);
    }
  }

  /** The world after a run that got to its end. */
  lemma LastCut(s: Setup, w: World)
    requires IsByUnit(s, w.hash) && Completes(s, w.d, w.hash, w.files)
    ensures var started := Started(s, w);
            var batch := Pending(started.d.known, w.files);
            Finished(s, w) == if batch == [] then started.(d := Opened(started.d))
                              else Worked(started, s.execute(w.hash, batch).value, 2)
  {
    var i := |RunStates(s, w.d, w.hash, w.files)| - 1;
    if Pending(Started(s, w).d.known, w.files) == [] {
      CutIdles(s, w, i);
    } else {
      CutWorks(s, w, i);
    }
  }

  lemma NothingToDo(s: Setup, w: World)
    requires Ready(s, w) && Pending(w.d.known, w.files) == []
    ensures multiset(Flatten(w.journaled)) == multiset(w.files) && Minus(w.torn, []) == w.torn
  {
    FilesAreJournaledAndPending(w.d, w.hash, w.files, Flatten(w.journaled));
    assert Flatten(w.journaled) + [] == Flatten(w.journaled);
    NoEmptyBatch(s, w);
  }

  lemma BatchDone(s: Setup, w: World)
    requires Ready(s, w)
    ensures multiset(Flatten(w.journaled + [Pending(w.d.known, w.files)])) == multiset(w.files)
  {
    FilesAreJournaledAndPending(w.d, w.hash, w.files, Flatten(w.journaled));
    FlattenSnoc(w.journaled, Pending(w.d.known, w.files));
  }

  lemma NoEmptyBatch(s: Setup, w: World)
    requires Ready(s, w)
    ensures Minus(w.torn, []) == w.torn
  {
    var parts, none: seq<InputFile> := Opened(w.d).output.value, [];
    forall i | 0 <= i < |parts| ensures BatchesOf(parts)[i] != none {
      assert PartOk(s, w.hash, parts[i]);
    }
    assert none !in multiset(BatchesOf(parts));
    assert none in w.torn ==> none in multiset(w.torn);
    MinusLast(w.torn, none);
  }

  /** The torn batches a run that gets to its end leaves: without a reset all but the one it makes again. */
  function Left(s: Setup, w: World): seq<seq<InputFile>> {
    if NeedsReset(w.d, w.hash, w.files) then [] else Minus(w.torn, Pending(w.d.known, w.files))
  }

  /**
   Over any history of added, changed and removed files, spec changes (by_key specs and specs that are
   not row-local among them) and runs cut off anywhere, a by_unit run of a row-local spec that gets to
   its end leaves, counted with multiplicity and read by name, the rows all current files mean, and
   besides those of the batches that earlier runs published and could not journal, unless a reset or
   the same batch made again has taken them away.
   */
  lemma OutputIsFilesAndTorn(s: Setup, w0: World, events: seq<Event>)
    requires Faithful(s) && w0.d.specHash.None? && DistinctKeys(w0.files) && Tidy(events)
    requires var w := History(s, w0, events);
             IsByUnit(s, w.hash) && RowLocalJob(s, w.hash) && Completes(s, w.d, w.hash, w.files)
    ensures var w := History(s, w0, events);
            var w' := Finished(s, w);
            && w'.d == Final(s, w.d, w.hash, w.files) && w'.d.output.Some?
            && multiset(ReadAll(RowsOf(w'.d.output.value)))
               == multiset(Meant(s, w.hash, w.files)) + multiset(Meant(s, w.hash, Flatten(Left(s, w))))
  {
    var w := History(s, w0, events);
    HistoryKeepsInv(s, w0, events);
    FinishedIsAccounted(s, w);
    AccountedMeans(s, Finished(s, w));
    MeantPermuted(s, w.hash, Flatten(Finished(s, w).journaled), w.files);
  }

  /** What recomputing gives; over no files the program asks the engine nothing and leaves no rows. */
  ghost function Recomputed(s: Setup, hash: string, files: seq<InputFile>): Option<seq<Row>> {
    if files == [] then Some([]) else s.execute(hash, files)
  }

  lemma RecomputedMeans(s: Setup, hash: string, files: seq<InputFile>)
    requires Faithful(s) && RowLocalJob(s, hash) && Recomputed(s, hash, files).Some?
    ensures ReadAll(Recomputed(s, hash, files).value) == Meant(s, hash, files)
  {
    if files == [] {
      MeantNothing(s, hash);
    } else {
      ExecuteMeans(s, hash, files);
    }
  }

  /** Every row of the output, counted and read by name, against recomputing over the current files. */
  ghost predicate Agrees(s: Setup, d: Durable, hash: string, files: seq<InputFile>) {
    && d.output.Some? && Recomputed(s, hash, files).Some?
    && multiset(ReadAll(RowsOf(d.output.value))) == multiset(ReadAll(Recomputed(s, hash, files).value))
  }

  /**
   by_unit against recomputation, wherever recomputation is accepted: after any history a run gets to
   its end exactly when the files it finds pending have the columns the job needs among them, and then
   it agrees with recomputing exactly when the torn batches it leaves mean no rows.
   */
  lemma ByUnitEqualsRecomputeIff(s: Setup, w0: World, events: seq<Event>)
    requires Faithful(s) && w0.d.specHash.None? && DistinctKeys(w0.files) && Tidy(events)
    requires var w := History(s, w0, events);
             IsByUnit(s, w.hash) && RowLocalJob(s, w.hash) && Recomputed(s, w.hash, w.files).Some?
    ensures var w := History(s, w0, events);
            var batch := Pending(AfterReset(w.d, w.hash, w.files).known, w.files);
            && (Completes(s, w.d, w.hash, w.files) <==> batch == [] || HasNeeded(s, w.hash, batch))
            && (Completes(s, w.d, w.hash, w.files) ==>
                  (Agrees(s, Final(s, w.d, w.hash, w.files), w.hash, w.files)
                   <==> Meant(s, w.hash, Flatten(Left(s, w))) == []))
  {
    var w := History(s, w0, events);
    var batch := Pending(AfterReset(w.d, w.hash, w.files).known, w.files);
    HistoryKeepsInv(s, w0, events);
    if batch != [] {
      PendingAmong(AfterReset(w.d, w.hash, w.files).known, w.files);
      BatchAcceptedIff(s, w.hash, batch, w.files);
    }
    if Completes(s, w.d, w.hash, w.files) {
      OutputIsFilesAndTorn(s, w0, events);
      RecomputedMeans(s, w.hash, w.files);
      NothingMoreIff(Meant(s, w.hash, w.files), Meant(s, w.hash, Flatten(Left(s, w))));
    }
  }

  lemma PendingAmong(known: map<string, string>, files: seq<InputFile>)
    ensures forall f :: f in Pending(known, files) ==> f in files
    ensures Pending(known, files) != [] ==> files != []
  {
    forall f | f in Pending(known, files) ensures f in files {
      PendingMembers(known, files, f);
    }
  }

  lemma NothingMoreIff(a: seq<Row>, b: seq<Row>)
    ensures multiset(a) + multiset(b) == multiset(a) <==> b == []
  {
    assert |multiset(a) + multiset(b)| == |a| + |b|;
    assert |multiset(a)| == |a|;
    assert b == [] ==> multiset(a) + multiset(b) == multiset(a);
  }

  // -------------------------------------------- Changes between a crash and the next run

  /** Inputs and spec stay as they are while a published part is missing from the journal. */
  ghost predicate Quiet(s: Setup, w: World, events: seq<Event>)
    decreases |events|
  {
    events != [] ==>
      && (events[0].Change? ==> w.torn == [])
      && Quiet(s, Step(s, w, events[0]), events[1..])
  }

  /** Nothing is torn but the batch the next run makes again. */
  predicate TornIsNext(s: Setup, w: World) {
    w.torn == [] || (w.torn == [Pending(w.d.known, w.files)] && !NeedsReset(w.d, w.hash, w.files))
  }

  lemma CutTearsNext(s: Setup, w: World, i: nat)
    requires TornIsNext(s, w) && i < |RunStates(s, w.d, w.hash, w.files)|
    ensures TornIsNext(s, Cut(s, w, i))
  {
    var n, started := |ResetStates(w.d, w.hash, w.files)|, Started(s, w);
    var batch := Pending(started.d.known, w.files);
    if !IsByUnit(s, w.hash) {
      CutOfOther(s, w, i);
    } else if 0 < i < n {
      CutResets(s, w, i);
    } else if i >= n && batch == [] {
      CutIdles(s, w, i);
    } else if i >= n {
      CutWorks(s, w, i);
      assert [batch][1..] == [] && [] + [batch] == [batch];
    }
  }

  lemma {:induction false} QuietTearsNext(s: Setup, w: World, events: seq<Event>)
    requires TornIsNext(s, w) && Quiet(s, w, events)
    ensures TornIsNext(s, History(s, w, events))
    decreases |events|
  {
    if events != [] {
      var event := events[0];
      if event.Run? {
        var n := |RunStates(s, w.d, w.hash, w.files)|;
        CutTearsNext(s, w, if event.cut < n then event.cut else n - 1);
      }
      QuietTearsNext(s, Step(s, w, event), events[1..]);
    }
  }

  /**
   by_unit equals full recomputation: over any history in which nothing changes while a published part
   is missing from the journal, a run that gets to its end leaves exactly the rows that recomputing
   over all current files gives, counted with multiplicity and read by name.
   */
  lemma ByUnitEqualsRecompute(s: Setup, w0: World, events: seq<Event>)
    requires Faithful(s) && w0.d.specHash.None? && DistinctKeys(w0.files) && Tidy(events)
    requires w0.torn == [] && Quiet(s, w0, events)
    requires var w := History(s, w0, events);
             && IsByUnit(s, w.hash) && RowLocalJob(s, w.hash) && Recomputed(s, w.hash, w.files).Some?
             && Completes(s, w.d, w.hash, w.files)
    ensures var w := History(s, w0, events); Agrees(s, Final(s, w.d, w.hash, w.files), w.hash, w.files)
  {
    var w := History(s, w0, events);
    QuietTearsNext(s, w0, events);
    ByUnitEqualsRecomputeIff(s, w0, events);
    assert Left(s, w) == [];
    assert Flatten<InputFile>([]) == [];
    MeantNothing(s, w.hash);
  }
}
