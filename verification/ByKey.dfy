/** by_key runs: the new output is the old one overridden by the new batch. */
module ByKey {
  import opened Rows
  import opened Transform
  import opened Compilation
  import opened Upsert
  import opened Incremental
  import opened MergeQuery

  // ------------------------------------------------------------------ Merging

  lemma {:induction false} GroupMember(rows: seq<Row>, keys: seq<string>, key: seq<Value>, r: Row)
    ensures r in Group(rows, keys, key) <==> r in rows && KeyOf(r, keys) == key
  {
    if rows != [] {
      GroupMember(rows[1..], keys, key, r);
    }
  }

  lemma {:induction false} UniqueGroup(rows: seq<Row>, keys: seq<string>, key: seq<Value>)
    requires KeyUnique(rows, keys)
    ensures |Group(rows, keys, key)| <= 1
  {
    if rows != [] {
      var rest := rows[1..];
      assert forall i :: 0 <= i < |rest| ==> rest[i] == rows[i + 1];
      UniqueGroup(rest, keys, key);
      GroupIsEmptyIff(rest, keys, key);
    }
  }

  lemma {:induction false} SmallGroupsAreUnique(rows: seq<Row>, keys: seq<string>)
    requires forall key :: |Group(rows, keys, key)| <= 1
    ensures KeyUnique(rows, keys)
  {
    if rows != [] {
      var rest, k := rows[1..], KeyOf(rows[0], keys);
      forall key ensures |Group(rest, keys, key)| <= 1 {
        assert |Group(rest, keys, key)| <= |Group(rows, keys, key)|;
      }
      SmallGroupsAreUnique(rest, keys);
      assert |Group(rows, keys, k)| <= 1;
      GroupIsEmptyIff(rest, keys, k);
      UniqueCons(rows[0], rest, keys);
      assert rows == [rows[0]] + rest;
    }
  }

  lemma {:induction false} FirstsAreRows(e: Engine, rows: seq<Row>, keys: seq<string>, n: nat)
    requires n <= |rows|
    ensures forall r :: r in FirstsUpTo(e, rows, keys, n) ==> r in rows
  {
    if n > 0 {
      FirstsAreRows(e, rows, keys, n - 1);
    }
  }

  /** Taking one row per key makes any table key-unique and loses no key. */
  lemma FirstPerKeyUnique(e: Engine, rows: seq<Row>, keys: seq<string>)
    ensures KeyUnique(FirstPerKey(e, rows, keys), keys)
    ensures forall key :: HasKey(FirstPerKey(e, rows, keys), keys, key) <==> HasKey(rows, keys, key)
    ensures forall r :: r in FirstPerKey(e, rows, keys) ==> r in rows
  {
    var kept := FirstPerKey(e, rows, keys);
    FirstsAreRows(e, rows, keys, |rows|);
    forall key
      ensures |Group(kept, keys, key)| <= 1
      ensures HasKey(kept, keys, key) <==> HasKey(rows, keys, key)
    {
      DedupKeepsOnePerKey(e, rows, keys, key);
      GroupIsEmptyIff(rows, keys, key);
      GroupIsEmptyIff(kept, keys, key);
    }
    SmallGroupsAreUnique(kept, keys);
  }

  lemma UniqueIsFirst(e: Engine, rows: seq<Row>, keys: seq<string>, i: nat)
    requires KeyUnique(rows, keys) && i < |rows|
    ensures IsFirst(e, rows, keys, i)
  {
    var key := KeyOf(rows[i], keys);
    UniqueGroup(rows, keys, key);
    GroupMember(rows, keys, key, rows[i]);
    assert |Group(rows, keys, key)| == 1;
    GroupIsEmptyIff(rows[..i], keys, key);
  }

  lemma {:induction false} FirstsOfUnique(e: Engine, rows: seq<Row>, keys: seq<string>, n: nat)
    requires KeyUnique(rows, keys) && n <= |rows|
    ensures FirstsUpTo(e, rows, keys, n) == rows[..n]
  {
    if n > 0 {
      FirstsOfUnique(e, rows, keys, n - 1);
      UniqueIsFirst(e, rows, keys, n - 1);
      assert rows[..n] == rows[..n - 1] + [rows[n - 1]];
    }
  }

  /** On a key-unique table there is nothing to pick. */
  lemma FirstPerKeyOfUnique(e: Engine, rows: seq<Row>, keys: seq<string>)
    requires KeyUnique(rows, keys)
    ensures FirstPerKey(e, rows, keys) == rows
  {
    FirstsOfUnique(e, rows, keys, |rows|);
    assert rows[..|rows|] == rows;
  }

  lemma {:induction false} UntouchedMember(old_: seq<Row>, new_: seq<Row>, keys: seq<string>, r: Row)
    ensures r in Untouched(old_, new_, keys) <==> r in old_ && !HasKey(new_, keys, KeyOf(r, keys))
  {
    if old_ != [] {
      UntouchedMember(old_[1..], new_, keys, r);
    }
  }

  lemma {:induction false} UntouchedIndex(old_: seq<Row>, new_: seq<Row>, keys: seq<string>)
    ensures Index(Untouched(old_, new_, keys), keys) == Index(old_, keys) - Index(new_, keys).Keys
    ensures KeyUnique(old_, keys) ==> KeyUnique(Untouched(old_, new_, keys), keys)
  {
    if old_ != [] {
      var rest, k := Untouched(old_[1..], new_, keys), KeyOf(old_[0], keys);
      UntouchedIndex(old_[1..], new_, keys);
      IndexKeys(new_, keys, k);
      if HasKey(new_, keys, k) {
        assert [] + rest == rest;
      } else {
        assert ([old_[0]] + rest)[1..] == rest;
      }
      OverrideMinus(k, old_[0], Index(old_[1..], keys), Index(new_, keys).Keys);
      if KeyUnique(old_, keys) {
        assert forall j :: 0 <= j < |old_[1..]| ==> old_[1..][j] == old_[j + 1];
        IndexKeys(rest, keys, k);
        IndexKeys(old_[1..], keys, k);
        if !HasKey(new_, keys, k) {
          UniqueCons(old_[0], rest, keys);
        }
      }
    }
  }

  lemma UniqueAppend(a: seq<Row>, b: seq<Row>, keys: seq<string>)
    requires KeyUnique(a, keys) && KeyUnique(b, keys)
    requires forall r, t :: r in a && t in b ==> KeyOf(r, keys) != KeyOf(t, keys)
    ensures KeyUnique(a + b, keys)
  {
    var s := a + b;
    forall i, j | 0 <= i < j < |s| ensures KeyOf(s[i], keys) != KeyOf(s[j], keys) {
      assert i < |a| ==> a[i] in a;
      assert j >= |a| ==> b[j - |a|] in b;
    }
  }

  /** Merging onto an old part leaves one row per key, whatever the two hold. */
  lemma MergeIsUnique(e: Engine, old_: seq<Row>, new_: seq<Row>, keys: seq<string>)
    ensures KeyUnique(MergeRows(e, old_, new_, keys), keys)
  {
    MergeQueryIsAntiJoin(e, old_, new_, keys);
    var a, rest := FirstPerKey(e, new_, keys), Untouched(old_, new_, keys);
    var b := FirstPerKey(e, rest, keys);
    FirstPerKeyUnique(e, new_, keys);
    FirstPerKeyUnique(e, rest, keys);
    forall r, t | r in a && t in b ensures KeyOf(r, keys) != KeyOf(t, keys) {
      var i :| 0 <= i < |a| && a[i] == r;
      var j :| 0 <= j < |b| && b[j] == t;
      assert HasKey(a, keys, KeyOf(r, keys)) && HasKey(b, keys, KeyOf(t, keys));
      assert HasKey(rest, keys, KeyOf(t, keys));
      var m :| 0 <= m < |rest| && KeyOf(rest[m], keys) == KeyOf(t, keys);
      UntouchedMember(old_, new_, keys, rest[m]);
    }
    UniqueAppend(a, b, keys);
  }

  lemma OverrideSwaps<K, V>(a: map<K, V>, b: map<K, V>)
    ensures a + (b - a.Keys) == b + a
  {
  }

  /** Merging a key-unique batch onto a key-unique old part overrides it key by key. */
  lemma MergeOverrides(e: Engine, old_: seq<Row>, new_: seq<Row>, keys: seq<string>)
    requires KeyUnique(old_, keys) && KeyUnique(new_, keys)
    ensures Index(MergeRows(e, old_, new_, keys), keys) == Index(old_, keys) + Index(new_, keys)
  {
    MergeQueryIsAntiJoin(e, old_, new_, keys);
    UntouchedIndex(old_, new_, keys);
    FirstPerKeyOfUnique(e, new_, keys);
    FirstPerKeyOfUnique(e, Untouched(old_, new_, keys), keys);
    IndexAppend(new_, Untouched(old_, new_, keys), keys);
    OverrideSwaps(Index(new_, keys), Index(old_, keys));
  }

  /**
   The output of a run is key-unique exactly when it was merged onto an old part or the batch
   itself has no duplicate key: a first batch is stored as it is.
   */
  lemma OutputIsUniqueIff(e: Engine, output: Option<seq<Part>>, new_: seq<Row>, keys: seq<string>)
    ensures KeyUnique(MergeOutput(e, output, new_, keys), keys) <==>
            (output.Some? && output.value != []) || KeyUnique(new_, keys)
  {
    if output.Some? && output.value != [] {
      MergeIsUnique(e, RowsOf(output.value), new_, keys);
    }
  }

  // ------------------------------------------------------------------ Runs

  ghost predicate IsByKey(s: Setup, hash: string, keys: seq<string>) {
    s.job(hash).mode == Mode.ByKey(keys)
  }

  /** The rows of the merged part; None when there is no part. */
  function Stored(d: Durable): Option<seq<Row>> {
    if d.output.Some? && d.output.value != [] then Some(RowsOf(d.output.value)) else None
  }

  /** The table an output stands for, keyed. */
  function Keyed(d: Durable, keys: seq<string>): map<seq<Value>, Row> {
    if Stored(d).Some? then Index(Stored(d).value, keys) else map[]
  }

  ghost predicate StoredUnique(d: Durable, keys: seq<string>) {
    Stored(d).Some? ==> KeyUnique(Stored(d).value, keys)
  }

  /**
   A run that resets nothing and gets to its end overrides the stored table by its batch, and what
   it leaves is key-unique again.
   */
  lemma RunOverrides(s: Setup, d: Durable, hash: string, files: seq<InputFile>, keys: seq<string>)
    requires IsByKey(s, hash, keys) && Undisturbed(d, hash, files) && StoredUnique(d, keys)
    requires Pending(d.known, files) != [] && s.execute(hash, Pending(d.known, files)).Some?
    requires KeyUnique(s.execute(hash, Pending(d.known, files)).value, keys)
    ensures var batch := s.execute(hash, Pending(d.known, files)).value;
            var d' := Final(s, d, hash, files);
            && Keyed(d', keys) == Keyed(d, keys) + Index(batch, keys)
            && StoredUnique(d', keys) && Stored(d').Some?
            && d'.known == Marked(d.known, Pending(d.known, files)) && d'.specHash == d.specHash
  {
    var batch := s.execute(hash, Pending(d.known, files)).value;
    var merged := MergeOutput(s.engine, d.output, batch, keys);
    ResetIff(d, hash, files);
    assert RowsOf([Part(PartZero, merged)]) == merged;
    OutputIsUniqueIff(s.engine, d.output, batch, keys);
    if Stored(d).Some? {
      MergeOverrides(s.engine, RowsOf(d.output.value), batch, keys);
    } else {
      assert map[] + Index(batch, keys) == Index(batch, keys);
    }
  }

  /** One run of a reset-free sequence: what the run saw and the batch it made of it. */
  ghost predicate OverrideRun(s: Setup, d: Durable, hash: string, files: seq<InputFile>, keys: seq<string>) {
    && Undisturbed(d, hash, files)
    && Pending(d.known, files) != [] && s.execute(hash, Pending(d.known, files)).Some?
    && KeyUnique(s.execute(hash, Pending(d.known, files)).value, keys)
  }

  ghost predicate OverrideRuns(
    s: Setup, d: Durable, hash: string, listings: seq<seq<InputFile>>, keys: seq<string>)
    decreases |listings|
  {
    listings != [] ==>
      && OverrideRun(s, d, hash, listings[0], keys)
      && OverrideRuns(s, Final(s, d, hash, listings[0]), hash, listings[1..], keys)
  }

  function AfterRuns(s: Setup, d: Durable, hash: string, listings: seq<seq<InputFile>>): Durable
    decreases |listings|
  {
    if listings == [] then d else AfterRuns(s, Final(s, d, hash, listings[0]), hash, listings[1..])
  }

  /** All batches of a sequence of runs, one after the other. */
  ghost function Batches(s: Setup, d: Durable, hash: string, listings: seq<seq<InputFile>>): seq<Row>
    decreases |listings|
  {
    if listings == [] then []
    else
      var batch := s.execute(hash, Pending(d.known, listings[0]));
      (if batch.Some? then batch.value else []) + Batches(s, Final(s, d, hash, listings[0]), hash, listings[1..])
  }

  /** Over a reset-free sequence of runs the stored table is the batches folded, the latest winning. */
  lemma {:induction false} RunsFoldOverrides(
    s: Setup, d: Durable, hash: string, listings: seq<seq<InputFile>>, keys: seq<string>)
    requires IsByKey(s, hash, keys) && StoredUnique(d, keys) && OverrideRuns(s, d, hash, listings, keys)
    ensures Keyed(AfterRuns(s, d, hash, listings), keys)
            == Keyed(d, keys) + Index(Batches(s, d, hash, listings), keys)
    ensures StoredUnique(AfterRuns(s, d, hash, listings), keys)
    decreases |listings|
  {
    if listings == [] {
      assert Keyed(d, keys) + map[] == Keyed(d, keys);
    } else {
      var d' := Final(s, d, hash, listings[0]);
      var batch := s.execute(hash, Pending(d.known, listings[0])).value;
      var later := Batches(s, d', hash, listings[1..]);
      RunOverrides(s, d, hash, listings[0], keys);
      RunsFoldOverrides(s, d', hash, listings[1..], keys);
      IndexAppend(batch, later, keys);
      OverrideAssociates(Keyed(d, keys), Index(batch, keys), Index(later, keys));
    }
  }

  // ------------------------------------------------------------------ Crashes

  /**
   A crash after the new part is in place and before its files are marked: the next run over the
   same files makes the same batch and leaves the stored table as it is.
   */
  lemma ReplayChangesNothing(s: Setup, d: Durable, hash: string, files: seq<InputFile>, keys: seq<string>)
    requires IsByKey(s, hash, keys) && OverrideRun(s, d, hash, files, keys) && StoredUnique(d, keys)
    ensures var states := RunStates(s, d, hash, files);
            var torn := states[|states| - 2];
            && torn.known == d.known
            && Undisturbed(torn, hash, files)
            && Keyed(Final(s, torn, hash, files), keys) == Keyed(torn, keys) == Keyed(Final(s, d, hash, files), keys)
            && Final(s, torn, hash, files).known == Final(s, d, hash, files).known
  {
    var states := RunStates(s, d, hash, files);
    var torn := states[|states| - 2];
    var batch := s.execute(hash, Pending(d.known, files)).value;
    var merged := MergeOutput(s.engine, d.output, batch, keys);
    RunOverrides(s, d, hash, files, keys);
    ResetIff(d, hash, files);
    assert torn == d.(output := Some([Part(PartZero, merged)]));
    assert Keyed(torn, keys) == Keyed(Final(s, d, hash, files), keys);
    assert StoredUnique(torn, keys);
    RunOverrides(s, torn, hash, files, keys);
    OverrideTwice(Keyed(d, keys), Index(batch, keys));
  }

  /**
   A crash between deleting the old output and installing the new one leaves no output. The next
   run notices and makes the output anew from all current files.
   */
  lemma LostOutputIsRecomputed(s: Setup, d: Durable, hash: string, files: seq<InputFile>, keys: seq<string>)
    requires IsByKey(s, hash, keys) && d.output.None? && files != []
    requires s.execute(hash, files).Some?
    ensures Completes(s, d, hash, files)
    ensures Final(s, d, hash, files).output == Some([Part(PartZero, s.execute(hash, files).value)])
    ensures forall i :: 0 <= i < |files| ==> files[i].key in Final(s, d, hash, files).known
  {
    var d' := AfterReset(d, hash, files);
    assert d'.known == map[];
    NothingKnown(files);
    MarkedHas(map[], files);
  }

  lemma {:induction false} NothingKnown(files: seq<InputFile>)
    ensures Pending(map[], files) == files
  {
    if files != [] {
      NothingKnown(files[1..]);
    }
  }

  lemma {:induction false} MarkedHas(known: map<string, string>, files: seq<InputFile>)
    ensures forall k :: k in known ==> k in Marked(known, files)
    ensures forall i :: 0 <= i < |files| ==> files[i].key in Marked(known, files)
    decreases |files|
  {
    if files != [] {
      MarkedHas(known[files[0].key := files[0].signature], files[1..]);
      assert forall i :: 1 <= i < |files| ==> files[i] == files[1..][i - 1];
    }
  }
}
