/**
 What the engine answers for a list of input files, read together by column name: what the job makes
 of their rows one by one, in any order of the files, when its steps are row-local; exactly when it
 rejects the query; and what the journal knows of a list of files.
 */
module Recompute {
  import opened Rows
  import opened Transform
  import opened Transpiler
  import opened Compilation
  import opened RowLocal
  import opened RowMeaning
  import opened Acceptance
  import opened Incremental

  // ------------------------------------------------------ What the engine answers

  function FileRows(s: Setup, files: seq<InputFile>): seq<Row> {
    if files == [] then [] else s.contents(files[0]) + FileRows(s, files[1..])
  }

  /** The columns of the files together, each at its first occurrence. */
  function AllColumns(s: Setup, files: seq<InputFile>): seq<string> {
    if files == [] then [] else s.columns(files[0]) + Without(AllColumns(s, files[1..]), s.columns(files[0]))
  }

  /** read_parquet over a list of files with union_by_name. */
  function Input(s: Setup, files: seq<InputFile>): Table {
    var columns := AllColumns(s, files);
    Table(columns, Padded(FileRows(s, files), ToSet(columns)))
  }

  /** The rows the compiled query of a job gives over some files; None when it is rejected. */
  ghost function Answer(s: Setup, hash: string, files: seq<InputFile>): Option<seq<Row>> {
    var spec := s.job(hash).spec;
    var result := EvalQuery(s.engine, RegisterFrom(spec.steps, 0), Input(s, files), Compile(spec));
    if result.None? then None else Some(result.value.rows)
  }

  /** Asked for this job and these files, the engine runs the compiled query over them. */
  ghost predicate Executes(s: Setup, hash: string, files: seq<InputFile>) {
    s.execute(hash, files) == Answer(s, hash, files)
  }

  /** A file is a relation with columns of its own. */
  ghost predicate WellFormed(s: Setup, f: InputFile) {
    s.columns(f) != [] && Distinct(s.columns(f)) && Wide(s.contents(f), s.columns(f))
  }

  ghost predicate Faithful(s: Setup) {
    (forall f :: WellFormed(s, f)) && forall hash, files :: Executes(s, hash, files)
  }

  /** Such an engine exists for all columns, contents and jobs. */
  lemma EngineExists(s0: Setup) returns (s: Setup)
    requires forall f :: WellFormed(s0, f)
    ensures Faithful(s) && s0 == s.(execute := s0.execute)
  {
    s := s0.(execute := (hash, files) => Answer(s0, hash, files));
    forall f ensures WellFormed(s, f) {
      assert WellFormed(s0, f);
    }
    forall hash, files ensures Executes(s, hash, files) {
      SameFileRows(s0, s, files);
    }
  }

  lemma {:induction false} SameFileRows(a: Setup, b: Setup, files: seq<InputFile>)
    requires a.contents == b.contents && a.columns == b.columns
    ensures FileRows(a, files) == FileRows(b, files) && AllColumns(a, files) == AllColumns(b, files)
  {
    if files != [] {
      SameFileRows(a, b, files[1..]);
    }
  }

  predicate RowLocalJob(s: Setup, hash: string) {
    IsRowLocal(s.job(hash).spec)
  }

  /** The columns that are in at least one of the files. */
  function ColumnSet(s: Setup, files: seq<InputFile>): set<string> {
    if files == [] then {} else ToSet(s.columns(files[0])) + ColumnSet(s, files[1..])
  }

  lemma {:induction false} ColumnSetHas(s: Setup, files: seq<InputFile>, c: string)
    ensures c in ColumnSet(s, files) <==> exists f :: f in files && c in s.columns(f)
  {
    if files != [] {
      ColumnSetHas(s, files[1..], c);
      assert c in ToSet(s.columns(files[0])) <==> c in s.columns(files[0]);
      assert forall f :: f in files <==> f == files[0] || f in files[1..];
    }
  }

  lemma {:induction false} AllColumnsAre(s: Setup, files: seq<InputFile>)
    requires forall f :: WellFormed(s, f)
    ensures Distinct(AllColumns(s, files)) && ToSet(AllColumns(s, files)) == ColumnSet(s, files)
    ensures files != [] ==> AllColumns(s, files) != []
  {
    if files != [] {
      var first, rest := s.columns(files[0]), AllColumns(s, files[1..]);
      assert WellFormed(s, files[0]);
      AllColumnsAre(s, files[1..]);
      WithoutDistinct(rest, first);
      WithoutSet(rest, first);
      SetOfBoth(first, Without(rest, first));
      forall c | c in Without(rest, first) ensures c !in first {
        WithoutIn(rest, first, c);
      }
      DistinctAppend(first, Without(rest, first));
    }
  }

  lemma {:induction false} RowsFit(s: Setup, files: seq<InputFile>)
    requires forall f :: WellFormed(s, f)
    ensures forall i :: 0 <= i < |FileRows(s, files)| ==> FileRows(s, files)[i].cells.Keys <= ColumnSet(s, files)
  {
    if files != [] {
      RowsFit(s, files[1..]);
      assert WellFormed(s, files[0]);
      var first, rest := s.contents(files[0]), FileRows(s, files[1..]);
      var rows: seq<Row> := first + rest;
      forall i | 0 <= i < |rows| ensures rows[i].cells.Keys <= ColumnSet(s, files) {
        if i < |first| {
          assert first[i].cells.Keys == set c | c in s.columns(files[0]);
        } else {
          assert rest[i - |first|].cells.Keys <= ColumnSet(s, files[1..]);
        }
      }
    }
  }

  lemma InputShaped(s: Setup, files: seq<InputFile>)
    requires Faithful(s) && files != []
    ensures Shaped(Input(s, files)) && ToSet(Input(s, files).columns) == ColumnSet(s, files)
  {
    var rows, t := FileRows(s, files), Input(s, files);
    AllColumnsAre(s, files);
    RowsFit(s, files);
    forall i | 0 <= i < |t.rows| ensures t.rows[i].cells.Keys == set c | c in t.columns {
      assert t.rows[i].cells.Keys == ColumnSet(s, files) + rows[i].cells.Keys;
    }
  }

  /** What the engine answers is what the job means. */
  lemma ExecuteDenotes(s: Setup, hash: string, files: seq<InputFile>)
    requires Faithful(s) && files != []
    ensures var result := Denote(s.engine, s.job(hash).spec, Input(s, files));
            s.execute(hash, files) == if result.None? then None else Some(result.value.rows)
  {
    assert Executes(s, hash, files);
    InputShaped(s, files);
    CompilationPreservesMeaning(s.engine, s.job(hash).spec, Input(s, files));
  }

  // ------------------------------------------------------ Which files it accepts

  predicate NoRawSqlJob(s: Setup, hash: string) {
    NoRawSql(s.job(hash).spec)
  }

  /**
   The engine accepts a job over some files exactly when the job works at all, every column it needs is
   in one of the files, and no column it would bring a second time is in any.
   */
  lemma ExecuteAcceptedIff(s: Setup, hash: string, files: seq<InputFile>)
    requires Faithful(s) && NoRawSqlJob(s, hash) && files != []
    ensures var spec, columns := s.job(hash).spec, ColumnSet(s, files);
            s.execute(hash, files).Some? <==>
              SpecWorks(spec) && SpecNeeds(spec) <= columns && SpecBars(spec) !! columns
  {
    ExecuteDenotes(s, hash, files);
    InputShaped(s, files);
    AcceptedIff(s.engine, s.job(hash).spec, Input(s, files));
  }

  /** Every column a job needs is in one of the files. */
  predicate HasNeeded(s: Setup, hash: string, files: seq<InputFile>) {
    SpecNeeds(s.job(hash).spec) <= ColumnSet(s, files)
  }

  lemma FewerColumns(s: Setup, part: seq<InputFile>, files: seq<InputFile>)
    requires forall f :: f in part ==> f in files
    ensures ColumnSet(s, part) <= ColumnSet(s, files)
  {
    forall c | c in ColumnSet(s, part) ensures c in ColumnSet(s, files) {
      ColumnSetHas(s, part, c);
      ColumnSetHas(s, files, c);
    }
  }

  /**
   Where all files together are accepted, some of them on their own are rejected exactly when a column
   the job needs is in none of them.
   */
  lemma BatchAcceptedIff(s: Setup, hash: string, batch: seq<InputFile>, files: seq<InputFile>)
    requires Faithful(s) && NoRawSqlJob(s, hash) && batch != [] && forall f :: f in batch ==> f in files
    requires files != [] && s.execute(hash, files).Some?
    ensures s.execute(hash, batch).Some? <==> HasNeeded(s, hash, batch)
  {
    ExecuteAcceptedIff(s, hash, files);
    ExecuteAcceptedIff(s, hash, batch);
    FewerColumns(s, batch, files);
  }

  /**
   Where some of the files are accepted on their own, all together are rejected exactly when one of them
   has a column the job would bring a second time.
   */
  lemma TogetherRejectedIff(s: Setup, hash: string, batch: seq<InputFile>, files: seq<InputFile>)
    requires Faithful(s) && NoRawSqlJob(s, hash) && batch != [] && forall f :: f in batch ==> f in files
    requires files != [] && s.execute(hash, batch).Some?
    ensures s.execute(hash, files).None? <==>
            exists f :: f in files && exists c :: c in SpecBars(s.job(hash).spec) && c in s.columns(f)
  {
    ExecuteAcceptedIff(s, hash, files);
    ExecuteAcceptedIff(s, hash, batch);
    FewerColumns(s, batch, files);
    forall c ensures c in ColumnSet(s, files) <==> exists f :: f in files && c in s.columns(f) {
      ColumnSetHas(s, files, c);
    }
  }

  /** Selecting id and value: a file without a value is rejected on its own, but not beside one that has it. */
  lemma RejectedOnItsOwn(s: Setup, hash: string, a: InputFile, b: InputFile)
    requires Faithful(s) && s.job(hash).spec == Spec([], [Select(["id", "value"])])
    requires s.columns(a) == ["id", "value"] && s.columns(b) == ["id"]
    ensures s.execute(hash, [b]).None? && s.execute(hash, [a, b]).Some? && s.execute(hash, [a]).Some?
  {
    var selected := ["id", "value"];
    SelectNeeds(selected);
    ColumnSetHas(s, [b], "value");
    ColumnSetHas(s, [a], "id");
    ColumnSetHas(s, [a], "value");
    FewerColumns(s, [a], [a, b]);
    assert ToSet(selected) == {"id", "value"};
    ExecuteAcceptedIff(s, hash, [a]);
    ExecuteAcceptedIff(s, hash, [b]);
    ExecuteAcceptedIff(s, hash, [a, b]);
  }

  lemma SelectNeeds(selected: seq<string>)
    requires selected != [] && Distinct(selected)
    ensures Needs([Select(selected)]) == ToSet(selected) && Bars([Select(selected)]) == {} && Works([Select(selected)])
  {
    assert [Select(selected)][1..] == [];
    assert Works([]) && Needs([]) == {} && Bars([]) == {};
  }

  // ------------------------------------------------------ What row-local jobs mean

  /** What the job makes of the rows of the files, one by one, read by name. */
  function Meant(s: Setup, hash: string, files: seq<InputFile>): seq<Row>
    requires RowLocalJob(s, hash)
  {
    ReadSpec(s.engine, s.job(hash).spec, ReadAll(FileRows(s, files)))
  }

  /** Whenever the engine accepts a row-local job, its answer, read by name, is what is meant. */
  lemma ExecuteMeans(s: Setup, hash: string, files: seq<InputFile>)
    requires Faithful(s) && RowLocalJob(s, hash) && files != [] && s.execute(hash, files).Some?
    ensures ReadAll(s.execute(hash, files).value) == Meant(s, hash, files)
  {
    ExecuteDenotes(s, hash, files);
    InputShaped(s, files);
    TransformReads(s.engine, s.job(hash).spec, Input(s, files));
    PaddedReadsTheSame(FileRows(s, files), ToSet(AllColumns(s, files)));
  }

  lemma {:induction false} FileRowsAppend(s: Setup, a: seq<InputFile>, b: seq<InputFile>)
    ensures FileRows(s, a + b) == FileRows(s, a) + FileRows(s, b)
  {
    if a == [] {
      assert a + b == b;
    } else {
      assert (a + b)[1..] == a[1..] + b;
      FileRowsAppend(s, a[1..], b);
    }
  }

  lemma MeantAppend(s: Setup, hash: string, a: seq<InputFile>, b: seq<InputFile>)
    requires RowLocalJob(s, hash)
    ensures Meant(s, hash, a + b) == Meant(s, hash, a) + Meant(s, hash, b)
  {
    FileRowsAppend(s, a, b);
    ReadAppend(FileRows(s, a), FileRows(s, b));
    ReadSpecAppend(s.engine, s.job(hash).spec, ReadAll(FileRows(s, a)), ReadAll(FileRows(s, b)));
  }

  lemma MeantNothing(s: Setup, hash: string)
    requires RowLocalJob(s, hash)
    ensures Meant(s, hash, []) == []
  {
    var none: seq<InputFile> := [];
    MeantAppend(s, hash, none, none);
    assert none + none == none;
    assert |Meant(s, hash, none)| == |Meant(s, hash, none)| + |Meant(s, hash, none)|;
  }

  /** Running a row-local job over two lists of files, each accepted, is running it over each, rows read by name. */
  lemma ExecuteDistributes(s: Setup, hash: string, a: seq<InputFile>, b: seq<InputFile>)
    requires Faithful(s) && RowLocalJob(s, hash) && a != [] && b != []
    requires s.execute(hash, a + b).Some? && s.execute(hash, a).Some? && s.execute(hash, b).Some?
    ensures ReadAll(s.execute(hash, a + b).value)
            == ReadAll(s.execute(hash, a).value) + ReadAll(s.execute(hash, b).value)
  {
    ExecuteMeans(s, hash, a + b);
    ExecuteMeans(s, hash, a);
    ExecuteMeans(s, hash, b);
    MeantAppend(s, hash, a, b);
  }

  /** The head of one list found in the other, the rests having the same members. */
  lemma FindHead<T>(a: seq<T>, b: seq<T>) returns (before: seq<T>, after: seq<T>)
    requires a != [] && multiset(a) == multiset(b)
    ensures b == before + ([a[0]] + after)
    ensures multiset(a[1..]) == multiset(before + after)
  {
    assert a == [a[0]] + a[1..];
    assert a[0] in multiset(b);
    var j :| 0 <= j < |b| && b[j] == a[0];
    before, after := b[..j], b[j + 1..];
    assert b == before + ([a[0]] + after);
    assert multiset(b) == multiset(before) + (multiset{a[0]} + multiset(after));
    assert multiset(a) == multiset{a[0]} + multiset(a[1..]);
    CancelOne(a[0], multiset(a[1..]), multiset(before) + multiset(after));
  }

  lemma CancelOne<T>(x: T, m: multiset<T>, n: multiset<T>)
    requires multiset{x} + m == multiset{x} + n
    ensures m == n
  {
    forall y ensures m[y] == n[y] {
      assert (multiset{x} + m)[y] == (multiset{x} + n)[y];
    }
  }

  /** The bag of rows meant does not depend on the order of the files. */
  lemma {:induction false} MeantPermuted(s: Setup, hash: string, a: seq<InputFile>, b: seq<InputFile>)
    requires RowLocalJob(s, hash) && multiset(a) == multiset(b)
    ensures multiset(Meant(s, hash, a)) == multiset(Meant(s, hash, b))
    decreases |a|
  {
    if a == [] {
      assert |multiset(b)| == 0;
      assert b == [];
    } else {
      var x, rest := a[0], a[1..];
      assert a == [x] + rest;
      var before, after := FindHead(a, b);
      MeantPermuted(s, hash, rest, before + after);
      MeantAppend(s, hash, [x], rest);
      MeantAppend(s, hash, before, [x] + after);
      MeantAppend(s, hash, [x], after);
      MeantAppend(s, hash, before, after);
    }
  }

  /** Nor does the bag of rows the engine answers, read by name, or whether it accepts at all. */
  lemma ExecutePermuted(s: Setup, hash: string, a: seq<InputFile>, b: seq<InputFile>)
    requires Faithful(s) && RowLocalJob(s, hash) && a != [] && multiset(a) == multiset(b)
    ensures s.execute(hash, a).Some? <==> s.execute(hash, b).Some?
    ensures s.execute(hash, a).Some? ==>
              multiset(ReadAll(s.execute(hash, a).value)) == multiset(ReadAll(s.execute(hash, b).value))
  {
    assert a[0] in multiset(b);
    assert forall f :: f in a <==> f in multiset(a);
    assert forall f :: f in b <==> f in multiset(b);
    FewerColumns(s, a, b);
    FewerColumns(s, b, a);
    ExecuteAcceptedIff(s, hash, a);
    ExecuteAcceptedIff(s, hash, b);
    if s.execute(hash, a).Some? {
      ExecuteMeans(s, hash, a);
      ExecuteMeans(s, hash, b);
      MeantPermuted(s, hash, a, b);
    }
  }

  // ------------------------------------------------------------ Files and the journal

  ghost predicate DistinctKeys(files: seq<InputFile>) {
    forall i, j :: 0 <= i < j < |files| ==> files[i].key != files[j].key
  }

  /** No listing names a file twice. */
  ghost predicate Tidy(events: seq<Event>) {
    forall i :: 0 <= i < |events| && events[i].Change? ==> DistinctKeys(events[i].files)
  }

  /** The journal holds exactly these files. */
  ghost predicate Journals(known: map<string, string>, files: seq<InputFile>) {
    && (forall f :: f in files ==> f.key in known && known[f.key] == f.signature)
    && (forall k :: k in known ==> exists f :: f in files && f.key == k)
  }

  lemma {:induction false} PendingMembers(known: map<string, string>, files: seq<InputFile>, f: InputFile)
    ensures f in Pending(known, files) <==> f in files && !(f.key in known && known[f.key] == f.signature)
  {
    if files != [] {
      PendingMembers(known, files[1..], f);
    }
  }

  lemma {:induction false} PendingDistinct(known: map<string, string>, files: seq<InputFile>)
    requires DistinctKeys(files)
    ensures DistinctKeys(Pending(known, files))
  {
    if files != [] {
      assert forall i :: 0 <= i < |files[1..]| ==> files[1..][i] == files[i + 1];
      PendingDistinct(known, files[1..]);
      var rest := Pending(known, files[1..]);
      forall i | 0 <= i < |rest| ensures rest[i].key != files[0].key {
        PendingMembers(known, files[1..], rest[i]);
        assert rest[i] in files[1..];
      }
    }
  }

  lemma {:induction false} MarkedMembers(known: map<string, string>, files: seq<InputFile>)
    requires DistinctKeys(files)
    ensures forall f :: f in files ==> f.key in Marked(known, files) && Marked(known, files)[f.key] == f.signature
    ensures forall k :: k in Marked(known, files) <==> k in known || exists f :: f in files && f.key == k
    ensures forall k :: k in known && (forall f :: f in files ==> f.key != k) ==> Marked(known, files)[k] == known[k]
    decreases |files|
  {
    if files != [] {
      assert forall i :: 0 <= i < |files[1..]| ==> files[1..][i] == files[i + 1];
      MarkedMembers(known[files[0].key := files[0].signature], files[1..]);
      assert forall f :: f in files <==> f == files[0] || f in files[1..];
      assert forall f :: f in files[1..] ==> f.key != files[0].key;
    }
  }

  /** Marking new files extends the list the journal holds. */
  lemma MarkingExtends(known: map<string, string>, old_: seq<InputFile>, new_: seq<InputFile>)
    requires Journals(known, old_) && DistinctKeys(old_ + new_)
    ensures Journals(Marked(known, new_), old_ + new_)
  {
    var all := old_ + new_;
    assert DistinctKeys(new_) by {
      assert forall i :: 0 <= i < |new_| ==> new_[i] == all[|old_| + i];
    }
    MarkedMembers(known, new_);
    forall f | f in all
      ensures f.key in Marked(known, new_) && Marked(known, new_)[f.key] == f.signature
    {
      if f in old_ {
        var i :| 0 <= i < |old_| && old_[i] == f;
        forall g | g in new_ ensures g.key != f.key {
          var j :| 0 <= j < |new_| && new_[j] == g;
          assert all[i].key != all[|old_| + j].key;
        }
      }
    }
  }

  lemma SameMembersSameBag(a: seq<InputFile>, b: seq<InputFile>)
    requires DistinctKeys(a) && DistinctKeys(b) && forall f :: f in a <==> f in b
    ensures multiset(a) == multiset(b)
  {
    forall f ensures multiset(a)[f] == multiset(b)[f] {
      OneOfEach(a, f);
      OneOfEach(b, f);
    }
  }

  lemma {:induction false} OneOfEach(a: seq<InputFile>, f: InputFile)
    requires DistinctKeys(a)
    ensures multiset(a)[f] == if f in a then 1 else 0
  {
    if a != [] {
      assert forall i :: 0 <= i < |a[1..]| ==> a[1..][i] == a[i + 1];
      OneOfEach(a[1..], f);
      assert a == [a[0]] + a[1..];
      assert a[0] !in a[1..];
    }
  }
}
