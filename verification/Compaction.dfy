/** Small-file compaction, and backfills promoted in the same way. */
module Compaction {
  import opened Rows
  import opened DirectorySwap

  // ------------------------------------------------------------------ Planning

  /** `names` lists the Parquet files of the dataset in sorted order. */
  datatype Plan = Plan(candidates: seq<string>, preserved: seq<string>, minFiles: nat, maxInputBytes: Option<nat>)

  function SizeOf(dir: Dir, name: string): nat {
    if name in dir then dir[name].size else 0
  }

  function Smaller(dir: Dir, names: seq<string>, targetBytes: nat): seq<string> {
    if names == [] then []
    else (if SizeOf(dir, names[0]) < targetBytes then [names[0]] else []) + Smaller(dir, names[1..], targetBytes)
  }

  function NotIn(names: seq<string>, candidates: seq<string>): seq<string> {
    if names == [] then []
    else (if names[0] in candidates then [] else [names[0]]) + NotIn(names[1..], candidates)
  }

  function PlanCompaction(
    dir: Dir, names: seq<string>, targetBytes: nat, minFiles: nat, maxInputBytes: Option<nat>): Plan
  {
    var candidates := Smaller(dir, names, targetBytes);
    Plan(candidates, NotIn(names, candidates), minFiles, maxInputBytes)
  }

  function InputBytes(dir: Dir, names: seq<string>): nat {
    if names == [] then 0 else SizeOf(dir, names[0]) + InputBytes(dir, names[1..])
  }

  predicate Selected(dir: Dir, plan: Plan) {
    |plan.candidates| >= plan.minFiles
    && (plan.maxInputBytes.None? || InputBytes(dir, plan.candidates) <= plan.maxInputBytes.value)
  }

  lemma {:induction false} InputBytesAppend(dir: Dir, a: seq<string>, b: seq<string>)
    ensures InputBytes(dir, a + b) == InputBytes(dir, a) + InputBytes(dir, b)
  {
    if a == [] {
      assert a + b == b;
    } else {
      assert (a + b)[0] == a[0] && (a + b)[1..] == a[1..] + b;
      InputBytesAppend(dir, a[1..], b);
    }
  }

  // ------------------------------------------------------------------ Contents

  function RowsIn(dir: Dir, names: seq<string>): seq<Row> {
    if names == [] then []
    else (if names[0] in dir then dir[names[0]].rows else []) + RowsIn(dir, names[1..])
  }

  /** All columns that some row has. */
  function AllColumns(rows: seq<Row>): set<string> {
    if rows == [] then {} else rows[0].cells.Keys + AllColumns(rows[1..])
  }

  /** The staged directory: the preserved files as they are, then the candidates' rows in one file. */
  function Compacted(dir: Dir, plan: Plan, compactName: string, outputBytes: nat): Dir {
    Kept(dir, plan.preserved)[compactName := CompactFile(dir, plan, outputBytes)]
  }

  function Kept(dir: Dir, names: seq<string>): Dir {
    map n | n in names && n in dir :: dir[n]
  }

  function CompactFile(dir: Dir, plan: Plan, outputBytes: nat): File {
    var rows := RowsIn(dir, plan.candidates);
    File(Padded(rows, AllColumns(rows)), outputBytes, true)
  }

  /** `names` lists exactly the Parquet files of a directory, each once. */
  ghost predicate Lists(dir: Dir, names: seq<string>) {
    && Distinct(names)
    && forall n :: n in names <==> n in dir && dir[n].parquet
  }

  /** The rows of the listed files, as they read, with multiplicity. */
  ghost function Bag(dir: Dir, names: seq<string>): multiset<Row> {
    multiset(ReadAll(RowsIn(dir, names)))
  }

  lemma {:induction false} RowsInAppend(dir: Dir, a: seq<string>, b: seq<string>)
    ensures RowsIn(dir, a + b) == RowsIn(dir, a) + RowsIn(dir, b)
  {
    if a == [] {
      assert a + b == b;
    } else {
      assert (a + b)[1..] == a[1..] + b;
      RowsInAppend(dir, a[1..], b);
    }
  }

  lemma BagAppend(dir: Dir, a: seq<string>, b: seq<string>)
    ensures Bag(dir, a + b) == Bag(dir, a) + Bag(dir, b)
  {
    RowsInAppend(dir, a, b);
    ReadAppend(RowsIn(dir, a), RowsIn(dir, b));
  }

  /** Directories that agree on the listed names hold the same rows under them. */
  lemma {:induction false} RowsInSame(a: Dir, b: Dir, names: seq<string>)
    requires forall n :: n in names ==> n in a && n in b && a[n].rows == b[n].rows
    ensures RowsIn(a, names) == RowsIn(b, names)
  {
    if names != [] {
      RowsInSame(a, b, names[1..]);
    }
  }

  lemma SplitAt<T>(s: seq<T>, j: nat)
    requires j < |s|
    ensures s == s[..j] + ([s[j]] + s[j + 1..])
  {
  }

  lemma TakeOut(names: seq<string>, x: string) returns (before: seq<string>, after: seq<string>)
    requires Distinct(names) && x in names
    ensures names == before + ([x] + after) && Distinct(before + after)
    ensures forall n :: n in before + after <==> n in names && n != x
  {
    var j :| 0 <= j < |names| && names[j] == x;
    before, after := names[..j], names[j + 1..];
    SplitAt(names, j);
    RestOf(names, j);
  }

  lemma RestOf(names: seq<string>, j: nat)
    requires Distinct(names) && j < |names|
    ensures Distinct(names[..j] + names[j + 1..])
    ensures forall n :: n in names[..j] + names[j + 1..] <==> n in names && n != names[j]
  {
    var rest := names[..j] + names[j + 1..];
    assert |rest| == |names| - 1;
    forall i | 0 <= i < |rest| ensures rest[i] == names[if i < j then i else i + 1] {
    }
    forall n ensures n in rest <==> n in names && n != names[j] {
      if n in rest {
        var i :| 0 <= i < |rest| && rest[i] == n;
      }
      if n in names && n != names[j] {
        var i :| 0 <= i < |names| && names[i] == n;
        assert rest[if i < j then i else i - 1] == n;
      }
    }
  }

  lemma BagWithout(dir: Dir, names: seq<string>, x: string, before: seq<string>, after: seq<string>)
    requires names == before + ([x] + after) && x in dir
    ensures Bag(dir, names) == multiset(ReadAll(dir[x].rows)) + Bag(dir, before + after)
  {
    BagAppend(dir, before, [x] + after);
    BagAppend(dir, [x], after);
    BagAppend(dir, before, after);
    assert [x][1..] == [];
    assert RowsIn(dir, [x]) == dir[x].rows;
  }

  /** The bag of rows does not depend on how the files are listed. */
  lemma {:induction false} BagOfAnyListing(dir: Dir, a: seq<string>, b: seq<string>)
    requires Distinct(a) && Distinct(b) && (forall n :: n in a <==> n in b) && forall n :: n in a ==> n in dir
    ensures Bag(dir, a) == Bag(dir, b)
    decreases |a|
  {
    if a == [] {
      FirstIsMember(b);
      assert forall n :: n !in a;
    } else {
      assert a[0] in a;
      var before, after := TakeOut(b, a[0]);
      var front, rest := TakeOut(a, a[0]);
      BagWithout(dir, b, a[0], before, after);
      BagWithout(dir, a, a[0], front, rest);
      assert |front + rest| < |a|;
      BagOfAnyListing(dir, front + rest, before + after);
    }
  }

  lemma {:induction false} SmallerMembers(dir: Dir, names: seq<string>, targetBytes: nat, n: string)
    ensures n in Smaller(dir, names, targetBytes) <==> n in names && SizeOf(dir, n) < targetBytes
  {
    if names != [] {
      SmallerMembers(dir, names[1..], targetBytes, n);
    }
  }

  lemma {:induction false} NotInMembers(names: seq<string>, candidates: seq<string>, n: string)
    ensures n in NotIn(names, candidates) <==> n in names && n !in candidates
  {
    if names != [] {
      NotInMembers(names[1..], candidates, n);
    }
  }

  lemma {:induction false} PartsDistinct(dir: Dir, names: seq<string>, targetBytes: nat, candidates: seq<string>)
    requires Distinct(names)
    ensures Distinct(Smaller(dir, names, targetBytes)) && Distinct(NotIn(names, candidates))
  {
    if names != [] {
      var rest := names[1..];
      assert forall i :: 0 <= i < |rest| ==> rest[i] == names[i + 1];
      PartsDistinct(dir, rest, targetBytes, candidates);
      SmallerMembers(dir, rest, targetBytes, names[0]);
      NotInMembers(rest, candidates, names[0]);
    }
  }

  /** Candidates and preserved files split the dataset's Parquet files: each is in exactly one part. */
  lemma PlanPartitions(dir: Dir, names: seq<string>, targetBytes: nat, minFiles: nat, maxInputBytes: Option<nat>)
    requires Lists(dir, names)
    ensures var plan := PlanCompaction(dir, names, targetBytes, minFiles, maxInputBytes);
            && Distinct(plan.candidates + plan.preserved)
            && (forall n :: n in plan.candidates + plan.preserved <==> n in names)
            && (forall n :: n in plan.candidates <==> n in names && dir[n].size < targetBytes)
            && Bag(dir, plan.candidates + plan.preserved) == Bag(dir, names)
  {
    var plan := PlanCompaction(dir, names, targetBytes, minFiles, maxInputBytes);
    var all := plan.candidates + plan.preserved;
    PartsDistinct(dir, names, targetBytes, plan.candidates);
    forall n
      ensures n in plan.candidates <==> n in names && SizeOf(dir, n) < targetBytes
      ensures n in plan.preserved <==> n in names && n !in plan.candidates
    {
      SmallerMembers(dir, names, targetBytes, n);
      NotInMembers(names, plan.candidates, n);
    }
    forall i, j | 0 <= i < j < |all| ensures all[i] != all[j] {
      if i < |plan.candidates| <= j {
        assert plan.preserved[j - |plan.candidates|] in plan.preserved && plan.candidates[i] in plan.candidates;
      }
    }
    BagOfAnyListing(dir, all, names);
  }

  lemma {:induction false} DistinctCount(names: seq<string>)
    requires Distinct(names)
    ensures |names| == |set n | n in names|
  {
    if names != [] {
      var rest := names[1..];
      assert forall i :: 0 <= i < |rest| ==> rest[i] == names[i + 1];
      DistinctCount(rest);
      assert (set n | n in names) == (set n | n in rest) + {names[0]};
    }
  }

  /** The bytes of the files at hand are those of the candidates and of the preserved files. */
  lemma {:induction false} BytesSplit(dir: Dir, names: seq<string>, targetBytes: nat, candidates: seq<string>)
    requires forall n :: n in names ==> (n in candidates <==> SizeOf(dir, n) < targetBytes)
    ensures InputBytes(dir, Smaller(dir, names, targetBytes)) + InputBytes(dir, NotIn(names, candidates))
            == InputBytes(dir, names)
  {
    if names != [] {
      BytesSplit(dir, names[1..], targetBytes, candidates);
      var one := [names[0]];
      assert one[1..] == [];
      var smaller, others := Smaller(dir, names[1..], targetBytes), NotIn(names[1..], candidates);
      InputBytesAppend(dir, one, smaller);
      InputBytesAppend(dir, one, others);
      assert [] + smaller == smaller && [] + others == others;
      assert names[0] in names;
    }
  }

  /**
   A compaction goes ahead exactly when at least `minFiles` Parquet files are smaller than the target and
   all these together are within the limit on input bytes, if there is one.
   */
  lemma SelectedIff(dir: Dir, names: seq<string>, targetBytes: nat, minFiles: nat, maxInputBytes: Option<nat>)
    requires Lists(dir, names)
    ensures var plan := PlanCompaction(dir, names, targetBytes, minFiles, maxInputBytes);
            var small := set n | n in names && dir[n].size < targetBytes;
            && |plan.candidates| == |small| && |plan.candidates| + |plan.preserved| == |names|
            && InputBytes(dir, plan.candidates) + InputBytes(dir, plan.preserved) == InputBytes(dir, names)
            && (Selected(dir, plan) <==>
                |small| >= minFiles
                && (maxInputBytes.Some? ==> InputBytes(dir, plan.candidates) <= maxInputBytes.value))
  {
    var plan := PlanCompaction(dir, names, targetBytes, minFiles, maxInputBytes);
    PartsDistinct(dir, names, targetBytes, plan.candidates);
    forall n ensures n in plan.candidates <==> n in names && dir[n].size < targetBytes {
      SmallerMembers(dir, names, targetBytes, n);
    }
    DistinctCount(plan.candidates);
    assert (set n | n in plan.candidates) == set n | n in names && dir[n].size < targetBytes;
    PartsCount(dir, names, targetBytes, plan.candidates);
    BytesSplit(dir, names, targetBytes, plan.candidates);
  }

  lemma {:induction false} PartsCount(dir: Dir, names: seq<string>, targetBytes: nat, candidates: seq<string>)
    requires forall n :: n in names ==> (n in candidates <==> SizeOf(dir, n) < targetBytes)
    ensures |Smaller(dir, names, targetBytes)| + |NotIn(names, candidates)| == |names|
  {
    if names != [] {
      PartsCount(dir, names[1..], targetBytes, candidates);
    }
  }

  lemma {:induction false} AllColumnsHas(rows: seq<Row>, i: nat)
    requires i < |rows|
    ensures rows[i].cells.Keys <= AllColumns(rows)
  {
    if i > 0 {
      AllColumnsHas(rows[1..], i - 1);
    }
  }

  /** The compacted directory, file by file: the preserved files untouched, and one new Parquet file of one schema. */
  lemma CompactedFiles(dir: Dir, plan: Plan, compactName: string, outputBytes: nat, n: string)
    ensures var after := Compacted(dir, plan, compactName, outputBytes);
            && (n in after <==> n == compactName || (n in plan.preserved && n in dir))
            && (n in after && n != compactName ==> after[n] == dir[n])
            && (n == compactName ==>
                  && after[n].parquet && after[n].size == outputBytes
                  && Rectangular(after[n].rows) && ReadAll(after[n].rows) == ReadAll(RowsIn(dir, plan.candidates)))
  {
    var rows := RowsIn(dir, plan.candidates);
    PaddedReadsTheSame(rows, AllColumns(rows));
    forall i | 0 <= i < |rows|
      ensures Padded(rows, AllColumns(rows))[i].cells.Keys == AllColumns(rows)
    {
      AllColumnsHas(rows, i);
    }
  }

  /** The staged files that come from preserved ones. */
  lemma StagedRest(dir: Dir, plan: Plan, compactName: string, outputBytes: nat, listing: seq<string>)
    returns (rest: seq<string>)
    requires forall n :: n in plan.preserved ==> n in dir && dir[n].parquet
    requires Lists(Compacted(dir, plan, compactName, outputBytes), listing)
    ensures Distinct(rest) && forall n :: n in rest <==> n in plan.preserved && n != compactName
    ensures Bag(Compacted(dir, plan, compactName, outputBytes), listing) == Bag(dir, plan.candidates) + Bag(dir, rest)
  {
    var staged := Compacted(dir, plan, compactName, outputBytes);
    var before, after := TakeOut(listing, compactName);
    rest := before + after;
    BagWithout(staged, listing, compactName, before, after);
    forall n ensures n in rest <==> n in plan.preserved && n != compactName {
      assert n in staged <==> n in plan.preserved || n == compactName;
    }
    RowsInSame(staged, dir, rest);
    var rows := RowsIn(dir, plan.candidates);
    PaddedReadsTheSame(rows, AllColumns(rows));
  }

  /** The rows of the staged directory, however listed: candidates, and preserved files not overwritten. */
  lemma StagedBag(dir: Dir, plan: Plan, compactName: string, outputBytes: nat, listing: seq<string>)
    requires Distinct(plan.preserved) && forall n :: n in plan.preserved ==> n in dir && dir[n].parquet
    requires Lists(Compacted(dir, plan, compactName, outputBytes), listing)
    ensures var lost := if compactName in plan.preserved then multiset(ReadAll(dir[compactName].rows)) else multiset{};
            Bag(Compacted(dir, plan, compactName, outputBytes), listing) + lost
            == Bag(dir, plan.candidates + plan.preserved)
  {
    var rest := StagedRest(dir, plan, compactName, outputBytes, listing);
    BagAppend(dir, plan.candidates, plan.preserved);
    if compactName in plan.preserved {
      var front, back := TakeOut(plan.preserved, compactName);
      BagWithout(dir, plan.preserved, compactName, front, back);
      BagOfAnyListing(dir, rest, front + back);
    } else {
      BagOfAnyListing(dir, rest, plan.preserved);
    }
  }

  /**
   Compaction conserves the bag of Parquet rows, a missing column reading NULL, exactly when the name
   of the compact file is not that of a preserved file that has rows.
   */
  lemma CompactionConservesRowsIff(
    dir: Dir, names: seq<string>, targetBytes: nat, minFiles: nat, maxInputBytes: Option<nat>,
    compactName: string, outputBytes: nat, listing: seq<string>)
    requires Lists(dir, names)
    requires var plan := PlanCompaction(dir, names, targetBytes, minFiles, maxInputBytes);
             Lists(Compacted(dir, plan, compactName, outputBytes), listing)
    ensures var plan := PlanCompaction(dir, names, targetBytes, minFiles, maxInputBytes);
            Bag(Compacted(dir, plan, compactName, outputBytes), listing) == Bag(dir, names) <==>
            compactName !in plan.preserved || (compactName in dir && dir[compactName].rows == [])
  {
    var plan := PlanCompaction(dir, names, targetBytes, minFiles, maxInputBytes);
    PlanPartitions(dir, names, targetBytes, minFiles, maxInputBytes);
    PreservedFiles(dir, names, plan);
    StagedBag(dir, plan, compactName, outputBytes, listing);
    var kept := Bag(Compacted(dir, plan, compactName, outputBytes), listing);
    var lost := if compactName in plan.preserved then ReadAll(dir[compactName].rows) else [];
    NothingLostIff(kept, lost, Bag(dir, names));
  }

  lemma PreservedFiles(dir: Dir, names: seq<string>, plan: Plan)
    requires Lists(dir, names) && Distinct(plan.candidates + plan.preserved)
    requires forall n :: n in plan.candidates + plan.preserved <==> n in names
    ensures Distinct(plan.preserved) && forall n :: n in plan.preserved ==> n in dir && dir[n].parquet
  {
    var all := plan.candidates + plan.preserved;
    assert forall i :: 0 <= i < |plan.preserved| ==> plan.preserved[i] == all[|plan.candidates| + i];
    assert forall n :: n in plan.preserved ==> n in all;
  }

  lemma NothingLostIff(kept: multiset<Row>, lost: seq<Row>, whole: multiset<Row>)
    requires kept + multiset(lost) == whole
    ensures kept == whole <==> lost == []
  {
    assert |whole| == |kept| + |lost|;
    assert lost == [] ==> kept + multiset(lost) == kept;
  }

  // ------------------------------------------------------------------ Compaction

  datatype Report = Report(compacted: bool, selectedFiles: nat, preservedFiles: nat, inputBytes: nat)

  /**
   A run took these steps of the swap protocol and stopped: the complete dataset is where the protocol
   says, and it is the one there was or what the run was for.
   */
  ghost predicate Ran(w0: World, run: seq<Label>, w: World, target: Dir) {
    && Exec(w0, run) == Some(w) && w.phase.Idle?
    && (w.version == w0.version || w.version == target)
    && (Inv(w0) ==> Inv(w))
  }

  lemma TripRan(w0: World, trip: Trip, w: World, target: Dir)
    requires Travels(w0, trip, w) && w.phase.Idle? && (w.version == w0.version || w.version == target)
    ensures Ran(w0, Labels(trip), w, target)
  {
    TripIsSchedule(w0, trip, w);
    if Inv(w0) {
      VersionsAreTargets(w0, Labels(trip));
    }
  }

  method CopyOne(disk: Disk, name: string, file: File, ghost w0: World, ghost trip0: Trip, ghost at: World)
    returns (ghost trip: Trip, ghost w: World)
    requires Travels(w0, trip0, at) && disk.Shows(at) && at.phase.Staging? && at.staged.Some?
    requires name in at.target
    modifies disk`staged
    ensures Travels(w0, trip, w) && disk.Shows(w)
    ensures w == at.(staged := Some(at.staged.value[name := file]))
  {
    disk.staged := Some(disk.staged.value[name := file]);
    trip, w := Take(w0, trip0, at, StageFile(name, file));
  }

  /** Copy the preserved files one by one; the process may die before any of them. */
  method CopyPreserved(
    disk: Disk, dir: Dir, names: seq<string>, mayStop: bool, ghost w0: World, ghost trip0: Trip, ghost at: World)
    returns (outcome: Option<Outcome>, ghost trip: Trip, ghost w: World)
    requires Travels(w0, trip0, at) && disk.Shows(at) && at.phase.Staging? && at.staged == Some(map[])
    requires Kept(dir, names).Keys <= at.target.Keys
    modifies disk`staged
    ensures Travels(w0, trip, w) && disk.Shows(w) && w == at.(staged := w.staged, phase := w.phase)
    ensures if outcome.None? then w.phase.Staging? && w.staged == Some(Kept(dir, names))
            else w.phase == (if outcome.value.Killed? then Idle else Leaving)
    ensures outcome.Some? ==> outcome.value.Killed? || outcome.value.Unfinished?
    ensures !mayStop ==> outcome.None?
  {
    trip, w := trip0, at;
    ghost var kept := Kept(dir, names);
    var i := 0;
    while i < |names|
      invariant 0 <= i <= |names|
      invariant Travels(w0, trip, w) && disk.Shows(w) && w == at.(staged := w.staged)
      invariant w.staged == Some(Kept(dir, names[..i]))
    {
      var stops := Strikes(mayStop);
      if stops {
        var stopped;
        stopped, trip, w := disk.Stop(w0, trip, w);
        return Some(stopped), trip, w;
      }
      var name := names[i];
      KeptSnoc(dir, names, i);
      if name in dir {
        assert name in kept;
        trip, w := CopyOne(disk, name, dir[name], w0, trip, w);
      }
      i := i + 1;
    }
    assert names[..i] == names;
    outcome := None;
  }

  /** Copy the preserved files, then write the candidates' rows; the process may die on the way. */
  method StageFiles(
    disk: Disk, dir: Dir, plan: Plan, compactName: string, outputBytes: nat, stages: bool, mayStop: bool,
    ghost w0: World, ghost trip0: Trip, ghost at: World)
    returns (outcome: Option<Outcome>, ghost trip: Trip, ghost w: World)
    requires Travels(w0, trip0, at) && disk.Shows(at) && at.phase.Staging? && at.staged == Some(map[])
    requires at.target == Compacted(dir, plan, compactName, outputBytes)
    modifies disk`staged
    ensures Travels(w0, trip, w) && disk.Shows(w) && w == at.(staged := w.staged, phase := w.phase)
    ensures outcome.None? ==> w.phase.Staging? && w.staged == Some(at.target)
    ensures outcome.Some? ==> w.phase == if outcome.value.Killed? then Idle else Leaving
    ensures outcome.Some? ==> outcome.value.Killed? || outcome.value.Unfinished? || outcome.value.Rejected?
    ensures !mayStop ==> outcome == if stages then None else Some(Rejected)
    ensures outcome.Some? && outcome.value == Rejected ==> !stages
  {
    outcome, trip, w := CopyPreserved(disk, dir, plan.preserved, mayStop, w0, trip0, at);
    if outcome.Some? {
      return;
    }
    if !stages {
      trip, w := Take(w0, trip, w, Raise);
      return Some(Rejected), trip, w;
    }
    var file := CompactFile(dir, plan, outputBytes);
    disk.staged := Some(disk.staged.value[compactName := file]);
    trip, w := Take(w0, trip, w, StageFile(compactName, file));
    outcome := None;
  }

  lemma KeptSnoc(dir: Dir, names: seq<string>, i: nat)
    requires i < |names|
    ensures Kept(dir, names[..i + 1]) ==
            if names[i] in dir then Kept(dir, names[..i])[names[i] := dir[names[i]]] else Kept(dir, names[..i])
  {
    assert names[..i + 1] == names[..i] + [names[i]];
  }

  /**
   One compaction under the dataset's lock, as steps of the swap protocol. Unless it gets to its end
   the dataset is untouched or still to be found whole; at its end it is the compacted directory. Only
   a backup of its own kind stands in its way, and only a dead process keeps the lock.
   `stages`, `moves` and `installs` tell whether the engine and the two os.replace calls succeed, and
   when `mayStop` holds the process may die anywhere.
   */
  method CompactDataset(
    disk: Disk, names: seq<string>, targetBytes: nat, minFiles: nat, maxInputBytes: Option<nat>, dryRun: bool,
    compactName: string, outputBytes: nat, stages: bool, moves: bool, installs: bool, mayStop: bool, ghost w0: World)
    returns (outcome: Outcome, report: Report, ghost run: seq<Label>, ghost w: World)
    requires disk.Shows(w0) && w0.phase.Idle?
    modifies disk
    ensures disk.Shows(w)
    ensures w0.dataset.None? || w0.locked ==> outcome.Rejected? && run == [] && w == w0
    ensures !outcome.Killed? ==> disk.locked == w0.locked
    ensures w0.dataset.Some? ==>
              Ran(w0, run, w, Compacted(
                w0.dataset.value, PlanCompaction(w0.dataset.value, names, targetBytes, minFiles, maxInputBytes),
                compactName, outputBytes))
    ensures w0.dataset.None? || targetBytes == 0 || minFiles < 2 || maxInputBytes == Some(0) ==>
              outcome.Rejected? && disk.dataset == w0.dataset
    ensures !mayStop && w0.dataset.Some? && !w0.locked ==>
              targetBytes > 0 && minFiles >= 2 && maxInputBytes != Some(0) ==>
              var dir := w0.dataset.value;
              var plan := PlanCompaction(dir, names, targetBytes, minFiles, maxInputBytes);
              outcome == if !Selected(dir, plan) || dryRun then Finished
                         else if !stages || Compacting in w0.backups || !moves then Rejected
                         else if installs then Finished else RolledBack
    ensures outcome.Rejected? || outcome.RolledBack? ==>
              disk.dataset == w0.dataset && disk.backups == w0.backups
    ensures outcome.Finished? ==>
              && w0.dataset.Some?
              && var dir := w0.dataset.value;
                 var plan := PlanCompaction(dir, names, targetBytes, minFiles, maxInputBytes);
                 && report == Report(
                      report.compacted, |plan.candidates|, |plan.preserved|, InputBytes(dir, plan.candidates))
                 && (report.compacted <==> Selected(dir, plan) && !dryRun)
                 && disk.dataset
                    == Some(if report.compacted then Compacted(dir, plan, compactName, outputBytes) else dir)
                 && disk.backups == w0.backups
  {
    report, run, w := Report(false, 0, 0, 0), [], w0;
    if disk.dataset.None? {
      return Rejected, report, run, w;
    }
    var dir := disk.dataset.value;
    var plan := PlanCompaction(dir, names, targetBytes, minFiles, maxInputBytes);
    if targetBytes == 0 || minFiles < 2 || maxInputBytes == Some(0) || disk.locked {
      return Rejected, report, run, w;
    }
    report := Report(false, |plan.candidates|, |plan.preserved|, InputBytes(dir, plan.candidates));
    if !Selected(dir, plan) || dryRun {
      return Finished, report, run, w;
    }
    ghost var trip;
    outcome, trip, w := StageAndSwap(
      disk, dir, plan, compactName, outputBytes, stages, moves, installs, mayStop, w0);
    TripRan(w0, trip, w, Compacted(dir, plan, compactName, outputBytes));
    run := Labels(trip);
    report := report.(compacted := outcome.Finished?);
  }

  /** The part of a compaction that touches the disk. */
  method StageAndSwap(
    disk: Disk, dir: Dir, plan: Plan, compactName: string, outputBytes: nat,
    stages: bool, moves: bool, installs: bool, mayStop: bool, ghost w0: World)
    returns (outcome: Outcome, ghost trip: Trip, ghost w: World)
    requires disk.Shows(w0) && w0.phase.Idle? && w0.dataset == Some(dir) && !w0.locked
    modifies disk
    ensures Travels(w0, trip, w) && disk.Shows(w) && w.phase.Idle?
    ensures w.version == w0.version || w.version == Compacted(dir, plan, compactName, outputBytes)
    ensures !outcome.Killed? ==> !disk.locked
    ensures !mayStop ==> outcome == if !stages || Compacting in w0.backups || !moves then Rejected
                                    else if installs then Finished else RolledBack
    ensures outcome.Rejected? || outcome.RolledBack? ==> disk.dataset == w0.dataset && disk.backups == w0.backups
    ensures outcome.Finished? ==>
              disk.dataset == Some(Compacted(dir, plan, compactName, outputBytes)) && disk.backups == w0.backups
  {
    ghost var target := Compacted(dir, plan, compactName, outputBytes);
    disk.staged, disk.locked := Some(map[]), true;
    trip, w := Take(w0, Stay, w0, Begin(target));
    var early;
    early, trip, w := StageFiles(disk, dir, plan, compactName, outputBytes, stages, mayStop, w0, trip, w);
    if early.None? {
      outcome, trip, w := disk.Swap(Compacting, moves, installs, mayStop, w0, trip, w);
    } else {
      outcome := early.value;
    }
    if !outcome.Killed? {
      trip, w := disk.Leave(Compacting, w0, trip, w);
    }
  }

  // ------------------------------------------------------------------ Backfills

  datatype Status = Created | Running | Failed | Ready | Promoted

  /** The directory of a backfill: a snapshot of the dataset, an output of its own, a status file. */
  class Workspace {
    const input: Dir
    var output: Option<Dir>
    var status: Status

    constructor (dataset: Dir)
      ensures input == dataset && output == Some(map[]) && status == Created
    {
      input, output, status := dataset, Some(map[]), Created;
    }
  }

  /** What a caller holds: the workspace, and the status it had when the handle was made. */
  datatype Handle = Handle(workspace: Workspace, status: Status)

  /**
   run_backfill: the transform sees a snapshot and writes to the workspace only. A caller gets a
   ready handle if the transform succeeds, and none if it raises.
   */
  method RunBackfill(dataset: Dir, transform: Dir -> Option<Dir>) returns (handle: Option<Handle>, workspace: Workspace)
    ensures fresh(workspace) && workspace.input == dataset
    ensures workspace.status == if transform(dataset).Some? then Ready else Failed
    ensures transform(dataset).Some? ==> workspace.output == transform(dataset)
    ensures handle == if transform(dataset).Some? then Some(Handle(workspace, Ready)) else None
  {
    workspace := new Workspace(dataset);
    workspace.status := Running;
    var result := transform(workspace.input);
    if result.None? {
      workspace.status := Failed;
      return None, workspace;
    }
    workspace.output := result;
    workspace.status := Ready;
    handle := Some(Handle(workspace, Ready));
  }

  /**
   promote_backfill, as steps of the swap protocol: only a ready handle to a workspace with an output
   is promoted, and its output moves, so a second promotion of it is rejected and changes nothing. The
   handle's status is not read again from the workspace. Only a backup of its own kind stands in its
   way, and only a dead process keeps the lock.
   */
  method Promote(disk: Disk, handle: Handle, moves: bool, installs: bool, mayStop: bool, ghost w0: World)
    returns (outcome: Outcome, ghost run: seq<Label>, ghost w: World)
    requires disk.Shows(w0) && w0.phase.Idle?
    modifies disk, handle.workspace`output, handle.workspace`status
    ensures old(handle.workspace.output).Some? ==> Ran(w0, run, w, old(handle.workspace.output).value)
    ensures handle.status != Ready || old(handle.workspace.output).None? || w0.dataset.None? ==> outcome.Rejected?
    ensures Promoting in w0.backups || w0.locked ==> outcome.Rejected?
    ensures !outcome.Killed? ==> disk.locked == w0.locked
    ensures !mayStop && handle.status == Ready && old(handle.workspace.output).Some? ==>
              w0.dataset.Some? && Promoting !in w0.backups && !w0.locked ==>
              outcome == if !moves then Rejected else if installs then Finished else RolledBack
    ensures outcome.Rejected? || outcome.RolledBack? ==>
              && disk.dataset == w0.dataset && disk.backups == w0.backups
              && handle.workspace.output == old(handle.workspace.output)
              && handle.workspace.status == old(handle.workspace.status)
    ensures outcome.Finished? ==>
              && disk.dataset == old(handle.workspace.output) && disk.backups == w0.backups
              && handle.workspace.output.None? && handle.workspace.status == Promoted
  {
    var workspace := handle.workspace;
    run, w := [], w0;
    if handle.status != Ready || workspace.output.None? || disk.dataset.None? {
      return Rejected, run, w;
    }
    if Promoting in disk.backups || disk.locked {
      return Rejected, run, w;
    }
    ghost var target := workspace.output.value;
    disk.staged, disk.locked := workspace.output, true;
    ghost var trip;
    trip, w := Take(w0, Stay, w0, Adopt(target));
    outcome, trip, w := disk.Swap(Promoting, moves, installs, mayStop, w0, trip, w);
    if !outcome.Killed? {
      trip, w := disk.Leave(Promoting, w0, trip, w);
    }
    TripRan(w0, trip, w, target);
    run := Labels(trip);
    workspace.output := disk.staged;
    if outcome.Finished? {
      workspace.status := Promoted;
    }
  }

  // ------------------------------------------------------------------ Many runs

  /** However its Parquet files are listed, the directory holds these rows. */
  ghost predicate Holds(dir: Dir, bag: multiset<Row>) {
    forall names :: Lists(dir, names) ==> Bag(dir, names) == bag
  }

  /** A compaction of this directory with some options, its file name not that of a preserved file. */
  ghost predicate IsCompactionOf(dir: Dir, target: Dir) {
    exists names: seq<string>, targetBytes: nat, minFiles: nat, maxInputBytes: Option<nat>, name: string, bytes: nat ::
      IsCompaction(dir, target, names, targetBytes, minFiles, maxInputBytes, name, bytes)
  }

  ghost predicate IsCompaction(
    dir: Dir, target: Dir, names: seq<string>, targetBytes: nat, minFiles: nat, maxInputBytes: Option<nat>,
    name: string, bytes: nat)
  {
    var plan := PlanCompaction(dir, names, targetBytes, minFiles, maxInputBytes);
    Lists(dir, names) && name !in plan.preserved && target == Compacted(dir, plan, name, bytes)
  }

  /** Every compaction is of the dataset it finds, and every promotion of an output with these rows. */
  ghost predicate OfWhatIsThere(w: World, labels: seq<Label>, bag: multiset<Row>)
    decreases |labels|
  {
    labels != [] ==>
      && (labels[0].Begin? && w.dataset.Some? ==> IsCompactionOf(w.dataset.value, labels[0].target))
      && (labels[0].Adopt? ==> Holds(labels[0].target, bag))
      && (Next(w, labels[0]).Some? ==> OfWhatIsThere(Next(w, labels[0]).value, labels[1..], bag))
  }

  /** A compaction whose file name is free is for a directory with the rows of the dataset. */
  lemma CompactedHolds(
    dir: Dir, names: seq<string>, targetBytes: nat, minFiles: nat, maxInputBytes: Option<nat>,
    compactName: string, outputBytes: nat)
    requires Lists(dir, names)
    requires compactName !in PlanCompaction(dir, names, targetBytes, minFiles, maxInputBytes).preserved
    ensures Holds(
              Compacted(
                dir, PlanCompaction(dir, names, targetBytes, minFiles, maxInputBytes), compactName, outputBytes),
              Bag(dir, names))
  {
    var plan := PlanCompaction(dir, names, targetBytes, minFiles, maxInputBytes);
    forall listing | Lists(Compacted(dir, plan, compactName, outputBytes), listing)
      ensures Bag(Compacted(dir, plan, compactName, outputBytes), listing) == Bag(dir, names)
    {
      CompactionConservesRowsIff(dir, names, targetBytes, minFiles, maxInputBytes, compactName, outputBytes, listing);
    }
  }

  lemma CompactionHolds(dir: Dir, target: Dir, bag: multiset<Row>)
    requires IsCompactionOf(dir, target) && Holds(dir, bag)
    ensures Holds(target, bag)
  {
    var names: seq<string>, targetBytes: nat, minFiles: nat, maxInputBytes: Option<nat>, name: string, bytes: nat :|
      IsCompaction(dir, target, names, targetBytes, minFiles, maxInputBytes, name, bytes);
    CompactedHolds(dir, names, targetBytes, minFiles, maxInputBytes, name, bytes);
  }

  /** What a run is for has the rows of the dataset. */
  lemma StepHolds(w: World, labels: seq<Label>, bag: multiset<Row>)
    requires Inv(w) && Holds(w.version, bag) && (UnderWay(w) ==> Holds(w.target, bag))
    requires labels != [] && Next(w, labels[0]).Some? && OfWhatIsThere(w, labels, bag)
    ensures var w' := Next(w, labels[0]).value; Holds(w'.version, bag) && (UnderWay(w') ==> Holds(w'.target, bag))
  {
    StepVersion(w, labels[0]);
    if labels[0].Begin? {
      CompactionHolds(w.dataset.value, labels[0].target, bag);
    }
  }

  lemma {:induction false} RowsSurvive(w: World, labels: seq<Label>, bag: multiset<Row>)
    requires Inv(w) && Holds(w.version, bag) && (UnderWay(w) ==> Holds(w.target, bag))
    requires OfWhatIsThere(w, labels, bag) && Exec(w, labels).Some?
    ensures Inv(Exec(w, labels).value) && Holds(Exec(w, labels).value.version, bag)
    decreases |labels|
  {
    if labels != [] {
      StepKeepsInv(w, labels[0]);
      StepHolds(w, labels, bag);
      RowsSurvive(Next(w, labels[0]).value, labels[1..], bag);
    }
  }

  /**
   Over any schedule of runs cut off anywhere, compactions each of the dataset it finds and promotions
   each of an output with the same rows, the complete dataset keeps its rows.
   */
  lemma RowsSurviveRuns(w: World, labels: seq<Label>, bag: multiset<Row>)
    requires Inv(w) && w.phase.Idle? && Holds(w.version, bag)
    requires OfWhatIsThere(w, labels, bag) && Exec(w, labels).Some?
    ensures var w' := Exec(w, labels).value; Recoverable(w') && Holds(w'.version, bag)
  {
    RowsSurvive(w, labels, bag);
  }
}
