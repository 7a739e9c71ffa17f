/**
 Incremental transforms: a journal of processed input files and an output directory, both durable,
 updated step by step by runs that may die anywhere.
 */
module Incremental {
  import opened Rows
  import opened Transform

  /** One input file at one moment: a content change always changes the signature. */
  datatype InputFile = InputFile(key: string, signature: string)

  datatype Mode = ByUnit | ByKey(columns: seq<string>)

  datatype Job = Job(spec: Spec, mode: Mode)

  /** A part is named by the hash of its pending list, taken to be injective, or is part-0. */
  datatype PartName = BatchPart(pending: seq<InputFile>) | PartZero

  datatype Part = Part(name: PartName, rows: seq<Row>)

  /** Journal and output directory; an output of None is a directory that does not exist. */
  datatype Durable = Durable(specHash: Option<string>, known: map<string, string>, output: Option<seq<Part>>)

  /**
   The fixed surroundings: the columns and rows of each file, the job a spec hash stands for, and what
   the engine answers when it runs that job's compiled query over a list of files.
   */
  datatype Setup = Setup(
    engine: Engine,
    columns: InputFile -> seq<string>,
    contents: InputFile -> seq<Row>,
    job: string -> Job,
    execute: (string, seq<InputFile>) -> Option<seq<Row>>)

  /** What happens to a transform: its spec or its inputs change, or a run is cut off after some effects. */
  datatype Event = Change(hash: string, files: seq<InputFile>) | Run(cut: nat)

  // ------------------------------------------------------------------ Decisions

  function Pending(known: map<string, string>, files: seq<InputFile>): seq<InputFile> {
    if files == [] then []
    else
      (if files[0].key in known && known[files[0].key] == files[0].signature then [] else [files[0]])
      + Pending(known, files[1..])
  }

  predicate ChangedExisting(known: map<string, string>, files: seq<InputFile>) {
    exists i :: 0 <= i < |files| && files[i].key in known && known[files[i].key] != files[i].signature
  }

  predicate RemovedInput(known: map<string, string>, files: seq<InputFile>) {
    exists k :: k in known && forall i :: 0 <= i < |files| ==> files[i].key != k
  }

  predicate NeedsReset(d: Durable, hash: string, files: seq<InputFile>) {
    || d.specHash != Some(hash)
    || (d.output.None? && d.known != map[])
    || ChangedExisting(d.known, files)
    || RemovedInput(d.known, files)
  }

  /** The journal fits the spec, the output and the inputs: nothing journaled has changed or gone. */
  predicate Undisturbed(d: Durable, hash: string, files: seq<InputFile>) {
    && d.specHash == Some(hash) && (d.output.Some? || d.known == map[])
    && (forall k :: k in d.known ==> exists f :: f in files && f.key == k)
    && (forall f :: f in files && f.key in d.known ==> d.known[f.key] == f.signature)
  }

  /** The four reasons for a reset, each of them and no other. */
  lemma ResetIff(d: Durable, hash: string, files: seq<InputFile>)
    ensures NeedsReset(d, hash, files) <==> !Undisturbed(d, hash, files)
  {
    if Undisturbed(d, hash, files) {
      assert !ChangedExisting(d.known, files);
      forall k | k in d.known ensures exists i :: 0 <= i < |files| && files[i].key == k {
        var f :| f in files && f.key == k;
        var i :| 0 <= i < |files| && files[i] == f;
      }
    }
    if !NeedsReset(d, hash, files) {
      forall k | k in d.known ensures exists f :: f in files && f.key == k {
        var i :| 0 <= i < |files| && files[i].key == k;
        assert files[i] in files;
      }
    }
  }

  function Marked(known: map<string, string>, files: seq<InputFile>): map<string, string>
    decreases |files|
  {
    if files == [] then known else Marked(known[files[0].key := files[0].signature], files[1..])
  }

  /** os.replace onto a part: an existing part of that name is overwritten in place. */
  function Publish(parts: seq<Part>, part: Part): seq<Part> {
    if parts == [] then [part]
    else if parts[0].name == part.name then [part] + parts[1..]
    else [parts[0]] + Publish(parts[1..], part)
  }

  function RowsOf(parts: seq<Part>): seq<Row> {
    if parts == [] then [] else parts[0].rows + RowsOf(parts[1..])
  }

  /** A row of new UNION ALL old, with the precedence column the merge adds: 0 for new, 1 for old. */
  datatype Tagged = Tagged(row: Row, precedence: nat)

  function Tag(rows: seq<Row>, precedence: nat): (tagged: seq<Tagged>)
    ensures |tagged| == |rows| && forall i :: 0 <= i < |rows| ==> tagged[i] == Tagged(rows[i], precedence)
  {
    seq(|rows|, i requires 0 <= i < |rows| => Tagged(rows[i], precedence))
  }

  /** The partition of a key, in order. */
  function Partition(all: seq<Tagged>, keys: seq<string>, key: seq<Value>): seq<Tagged> {
    if all == [] then []
    else (if KeyOf(all[0].row, keys) == key then [all[0]] else []) + Partition(all[1..], keys, key)
  }

  function Least(group: seq<Tagged>): nat
    requires group != []
  {
    if |group| == 1 || group[0].precedence <= Least(group[1..]) then group[0].precedence else Least(group[1..])
  }

  function WithPrecedence(group: seq<Tagged>, precedence: nat): seq<Row> {
    if group == [] then []
    else
      (if group[0].precedence == precedence then [group[0].row] else []) + WithPrecedence(group[1..], precedence)
  }

  /**
   row_number() OVER (PARTITION BY keys ORDER BY precedence) is 1: the row is among those of its
   partition with the least precedence, and of these the one the engine puts first.
   */
  predicate IsNumberOne(e: Engine, all: seq<Tagged>, keys: seq<string>, i: nat)
    requires i < |all|
  {
    var key := KeyOf(all[i].row, keys);
    var group := Partition(all, keys, key);
    group != [] && all[i].precedence == Least(group) &&
    var tied := WithPrecedence(group, Least(group));
    tied != [] && |WithPrecedence(Partition(all[..i], keys, key), Least(group))| == e.pick(tied) % |tied|
  }

  /** Which rows have row_number() 1. */
  function NumberOnes(e: Engine, all: seq<Tagged>, keys: seq<string>): (ones: seq<bool>)
    ensures |ones| == |all| && forall i :: 0 <= i < |all| ==> ones[i] == IsNumberOne(e, all, keys, i)
  {
    seq(|all|, i requires 0 <= i < |all| => IsNumberOne(e, all, keys, i))
  }

  function Picked(rows: seq<Row>, keep: seq<bool>): seq<Row>
    requires |rows| == |keep|
  {
    if rows == [] then []
    else (if keep[0] then [rows[0]] else []) + Picked(rows[1..], keep[1..])
  }

  /** The merge query: UNION ALL, then QUALIFY row_number() = 1, without the precedence column. */
  function MergeRows(e: Engine, old_: seq<Row>, new_: seq<Row>, keys: seq<string>): seq<Row> {
    Picked(new_ + old_, NumberOnes(e, Tag(new_, 0) + Tag(old_, 1), keys))
  }

  /** Without an old Parquet part the batch is taken as it is, duplicate keys included. */
  function MergeOutput(e: Engine, output: Option<seq<Part>>, new_: seq<Row>, keys: seq<string>): seq<Row> {
    if output.None? || output.value == [] then new_ else MergeRows(e, RowsOf(output.value), new_, keys)
  }

  // ------------------------------------------------------------------ One run

  /** The durable states a run passes through before it computes anything. */
  function ResetStates(d: Durable, hash: string, files: seq<InputFile>): seq<Durable> {
    if NeedsReset(d, hash, files)
    then [d, d.(output := None), Durable(Some(hash), map[], None)]
    else [d]
  }

  function AfterReset(d: Durable, hash: string, files: seq<InputFile>): Durable {
    if NeedsReset(d, hash, files) then Durable(Some(hash), map[], None) else d
  }

  function Opened(d: Durable): Durable {
    d.(output := Some(if d.output.None? then [] else d.output.value))
  }

  /** The durable states a run passes through afterwards. */
  function WorkStates(s: Setup, d: Durable, hash: string, files: seq<InputFile>): seq<Durable> {
    var pending := Pending(d.known, files);
    if pending == [] then [Opened(d)]
    else
      match s.execute(hash, pending)
      case None => []
      case Some(rows) =>
        match s.job(hash).mode
        case ByUnit =>
          var published := d.(output := Some(Publish(Opened(d).output.value, Part(BatchPart(pending), rows))));
          [Opened(d), published, published.(known := Marked(d.known, pending))]
        case ByKey(keys) =>
          var merged := MergeOutput(s.engine, d.output, rows, keys);
          var installed := d.(output := Some([Part(PartZero, merged)]));
          [d.(output := None), installed, installed.(known := Marked(d.known, pending))]
  }

  /** All durable states of one run in order, the first being the one it starts from. */
  function RunStates(s: Setup, d: Durable, hash: string, files: seq<InputFile>): seq<Durable> {
    ResetStates(d, hash, files) + WorkStates(s, AfterReset(d, hash, files), hash, files)
  }

  /** Whether an uninterrupted run gets to its end: the engine accepts the query, if it is asked. */
  predicate Completes(s: Setup, d: Durable, hash: string, files: seq<InputFile>) {
    var pending := Pending(AfterReset(d, hash, files).known, files);
    pending == [] || s.execute(hash, pending).Some?
  }

  function Final(s: Setup, d: Durable, hash: string, files: seq<InputFile>): Durable {
    var states := RunStates(s, d, hash, files);
    states[|states| - 1]
  }

  class IncrementalStore {
    var specHash: Option<string>
    var known: map<string, string>

    constructor ()
      ensures specHash == None && known == map[]
    {
      specHash, known := None, map[];
    }

    /** DELETE and upsert of the hash in one commit. */
    method Reset(hash: string)
      modifies this
      ensures specHash == Some(hash) && known == map[]
    {
      specHash, known := Some(hash), map[];
    }

    /** executemany in one commit. */
    method MarkProcessed(files: seq<InputFile>)
      modifies this`known
      ensures known == Marked(old(known), files)
    {
      var i := 0;
      ghost var before := known;
      while i < |files|
        invariant 0 <= i <= |files|
        invariant Marked(before, files) == Marked(known, files[i..])
      {
        assert files[i..][1..] == files[i + 1..];
        known := known[files[i].key := files[i].signature];
        i := i + 1;
      }
    }
  }

  class OutputDirectory {
    var parts: Option<seq<Part>>

    constructor (parts: Option<seq<Part>>)
      ensures this.parts == parts
    {
      this.parts := parts;
    }
  }

  function Snapshot(store: IncrementalStore, dir: OutputDirectory): Durable
    reads store, dir
  {
    Durable(store.specHash, store.known, dir.parts)
  }

  /** reset_output, then store.reset, if anything calls for it. */
  method ResetIfNeeded(hash: string, files: seq<InputFile>, store: IncrementalStore, dir: OutputDirectory,
    mayDie: bool)
    returns (alive: bool, ghost cut: nat)
    modifies store, dir
    ensures var states := ResetStates(old(Snapshot(store, dir)), hash, files);
            cut < |states| && Snapshot(store, dir) == states[cut] && (alive ==> cut == |states| - 1)
    ensures alive ==> Snapshot(store, dir) == AfterReset(old(Snapshot(store, dir)), hash, files)
    ensures alive ==>
              Snapshot(store, dir) ==
              if old(Undisturbed(Snapshot(store, dir), hash, files)) then old(Snapshot(store, dir))
              else Durable(Some(hash), map[], None)
    ensures !mayDie ==> alive
  {
    cut := 0;
    ResetIff(Snapshot(store, dir), hash, files);
    if NeedsReset(Snapshot(store, dir), hash, files) {
      dir.parts := None;
      cut := 1;
      var dies := Strikes(mayDie);
      if dies {
        return false, cut;
      }
      store.Reset(hash);
      cut := 2;
    }
    alive := true;
  }

  /** Everything after the reset. */
  method Process(s: Setup, hash: string, files: seq<InputFile>, store: IncrementalStore, dir: OutputDirectory,
    mayDie: bool)
    returns (completed: bool, ghost cut: nat)
    modifies store`known, dir
    ensures var states := [old(Snapshot(store, dir))] + WorkStates(s, old(Snapshot(store, dir)), hash, files);
            cut < |states| && Snapshot(store, dir) == states[cut] && (completed ==> cut == |states| - 1)
    ensures var pending := Pending(old(store.known), files);
            && (completed ==> pending == [] || s.execute(hash, pending).Some?)
            && (!mayDie ==> completed || (pending != [] && s.execute(hash, pending).None?))
  {
    cut := 0;
    var pending := Pending(store.known, files);
    if pending == [] {
      dir.parts := Some(if dir.parts.None? then [] else dir.parts.value);
      return true, 1;
    }
    var result := s.execute(hash, pending);
    if result.None? {
      return false, 0;
    }
    var dies := false;
    match s.job(hash).mode {
      case ByUnit =>
        dir.parts := Some(if dir.parts.None? then [] else dir.parts.value);
        dies := Strikes(mayDie);
        if dies {
          return false, 1;
        }
        dir.parts := Some(Publish(dir.parts.value, Part(BatchPart(pending), result.value)));
      case ByKey(keys) =>
        var merged := MergeOutput(s.engine, dir.parts, result.value, keys);
        dir.parts := None;
        dies := Strikes(mayDie);
        if dies {
          return false, 1;
        }
        dir.parts := Some([Part(PartZero, merged)]);
    }
    dies := Strikes(mayDie);
    if dies {
      return false, 2;
    }
    store.MarkProcessed(pending);
    completed, cut := true, 3;
  }

  /** One run: wherever it dies, the durable state is one of those the run passes through. */
  method RunIncremental(s: Setup, hash: string, files: seq<InputFile>, store: IncrementalStore, dir: OutputDirectory,
    mayDie: bool)
    returns (completed: bool, ghost cut: nat)
    modifies store, dir
    ensures cut < |RunStates(s, old(Snapshot(store, dir)), hash, files)|
    ensures Snapshot(store, dir) == RunStates(s, old(Snapshot(store, dir)), hash, files)[cut]
    ensures completed ==> Completes(s, old(Snapshot(store, dir)), hash, files)
    ensures !mayDie && Completes(s, old(Snapshot(store, dir)), hash, files) ==> completed
    ensures completed ==> Snapshot(store, dir) == Final(s, old(Snapshot(store, dir)), hash, files)
  {
    ghost var before := Snapshot(store, dir);
    var alive;
    alive, cut := ResetIfNeeded(hash, files, store, dir, mayDie);
    if !alive {
      return false, cut;
    }
    ghost var base := Snapshot(store, dir);
    ghost var n := |ResetStates(before, hash, files)| - 1;
    completed, cut := Process(s, hash, files, store, dir, mayDie);
    assert RunStates(s, before, hash, files)[n..] == [base] + WorkStates(s, base, hash, files);
    cut := n + cut;
  }
}
