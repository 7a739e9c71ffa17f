/** What the collection loop writes to: files, a DuckDB table or a Postgres table. */
module Sinks {
  import opened Rows
  import opened StateStore
  import opened Upsert

  /**
   A sink keeping one file per unit, or a table with a merge key. `columns` are the table's columns;
   a table that does not exist yet gets those of the first batch written to it.
   */
  datatype Sink =
    | Files(files: map<UnitId, seq<Row>>)
    | Duck(keys: seq<string>, columns: set<string>, rows: seq<Row>)
    | Postgres(keys: seq<string>, columns: set<string>, table: map<seq<Value>, Row>)

  /** Whether the database accepts a batch: its columns fit the table and no key violates a constraint. */
  predicate Takes(sink: Sink, batch: seq<Row>) {
    match sink
    case Files(_) => true
    case Duck(keys, columns, _) => KeySet(keys) <= ColumnsOf(batch) && |ColumnsOf(batch)| == |columns|
    case Postgres(keys, columns, _) => ColumnsOf(batch) <= columns && NonNullKeys(batch, keys)
  }

  /**
   Files take any batch. DuckDB takes a batch that has every merge key column, to delete by, and as many
   columns as the table, to insert. Postgres takes one whose columns the table has, if no merge key in it
   is NULL.
   */
  lemma TakesIff(sink: Sink, batch: seq<Row>)
    requires Rectangular(batch) && batch != []
    ensures sink.Files? ==> Takes(sink, batch)
    ensures sink.Duck? ==>
              (Takes(sink, batch) <==>
               (forall k :: k in sink.keys ==> k in batch[0].cells) && |batch[0].cells.Keys| == |sink.columns|)
    ensures sink.Postgres? ==>
              (Takes(sink, batch) <==>
               (forall c :: c in batch[0].cells ==> c in sink.columns)
               && PgWrite(sink.table, batch, ColumnsOf(batch), sink.keys).Some?)
  {
    if sink.Postgres? {
      PgRejectsNullKeys(sink.table, batch, ColumnsOf(batch), sink.keys);
    }
  }

  /** One sink write; a batch that is not taken leaves the sink as it is. */
  function Put(sink: Sink, uid: UnitId, batch: seq<Row>): Sink {
    if !Takes(sink, batch) then sink
    else
      match sink
      case Files(files) => Files(files[uid := batch])
      case Duck(keys, columns, rows) => Duck(keys, columns, DuckWrite(rows, batch, keys))
      case Postgres(keys, columns, table) =>
        var after := PgWrite(table, batch, ColumnsOf(batch), keys);
        if after.None? then sink else Postgres(keys, columns, after.value)
  }

  /** Sinks of one kind with the same keys and columns: they take the same batches. */
  predicate SameShape(a: Sink, b: Sink) {
    match (a, b)
    case (Files(_), Files(_)) => true
    case (Duck(k, c, _), Duck(k', c', _)) => k == k' && c == c'
    case (Postgres(k, c, _), Postgres(k', c', _)) => k == k' && c == c'
    case _ => false
  }

  lemma PutKeepsShape(sink: Sink, uid: UnitId, batch: seq<Row>)
    ensures SameShape(Put(sink, uid, batch), sink)
  {
  }

  lemma SameShapeTakes(a: Sink, b: Sink, batch: seq<Row>)
    requires SameShape(a, b)
    ensures Takes(a, batch) <==> Takes(b, batch)
  {
  }

  /**
   Writing a batch again right after writing it changes nothing, except in a DuckDB table when the
   batch has a row with a NULL merge key.
   */
  lemma PutTwiceIff(sink: Sink, uid: UnitId, batch: seq<Row>)
    requires Rectangular(batch) && Takes(sink, batch)
    ensures Put(Put(sink, uid, batch), uid, batch) == Put(sink, uid, batch) <==>
            !sink.Duck? || NonNullKeys(batch, sink.keys)
  {
    match sink
    case Files(_) =>
    case Duck(keys, _, rows) => DuckWriteIdempotentIff(rows, batch, keys);
    case Postgres(keys, _, table) =>
      PgRejectsNullKeys(table, batch, ColumnsOf(batch), keys);
      PgWriteTwice(table, batch, keys);
  }

  /** The key-to-row map of a keyed sink. */
  function TableOf(sink: Sink): map<seq<Value>, Row>
    requires !sink.Files?
  {
    if sink.Duck? then Index(sink.rows, sink.keys) else sink.table
  }

  /** What a table holds: a Postgres table its rows under their own keys. */
  ghost predicate WellKeyed(sink: Sink) {
    sink.Postgres? ==> KeyedTable(sink.table, sink.columns, sink.keys)
  }

  lemma DuckPutOverrides(sink: Sink, uid: UnitId, batch: seq<Row>)
    requires sink.Duck? && Takes(sink, batch) && NonNullKeys(batch, sink.keys)
    ensures var after := Put(sink, uid, batch);
            && after == Duck(sink.keys, sink.columns, after.rows)
            && Index(after.rows, sink.keys) == Index(sink.rows, sink.keys) + Index(batch, sink.keys)
            && (KeyUnique(sink.rows, sink.keys) ==> KeyUnique(after.rows, sink.keys))
  {
    DuckWriteOverrides(sink.rows, batch, sink.keys);
    if KeyUnique(sink.rows, sink.keys) {
      DuckWriteKeepsUnique(sink.rows, batch, sink.keys);
    }
  }

  lemma OverrideKeepsKeyed(
    a: map<seq<Value>, Row>, b: map<seq<Value>, Row>, columns: set<string>, keys: seq<string>)
    requires KeyedTable(a, columns, keys) && KeyedTable(b, columns, keys)
    ensures KeyedTable(a + b, columns, keys)
  {
  }

  lemma PostgresPutOverrides(sink: Sink, uid: UnitId, batch: seq<Row>)
    requires sink.Postgres? && Takes(sink, batch) && WellKeyed(sink)
    requires ColumnsOf(batch) == sink.columns && Rectangular(batch)
    ensures var after := Put(sink, uid, batch);
            && after == Postgres(sink.keys, sink.columns, sink.table + Index(batch, sink.keys))
            && WellKeyed(after)
  {
    PgWriteOverrides(sink.table, batch, sink.columns, sink.keys);
    IndexRows(batch, sink.columns, sink.keys);
    OverrideKeepsKeyed(sink.table, Index(batch, sink.keys), sink.columns, sink.keys);
  }

  /** A sink as the collection loop calls it. */
  datatype Backend = Backend(takes: seq<Row> -> bool, put: (Sink, UnitId, seq<Row>) -> Sink)

  /** The backend writes to a sink of this kind, with these keys and columns. */
  ghost predicate IsBackend(b: Backend, sink0: Sink) {
    && (forall batch {:trigger Takes(sink0, batch)} :: b.takes(batch) == Takes(sink0, batch))
    && (forall sink, uid, batch {:trigger Put(sink, uid, batch)} :: b.put(sink, uid, batch) == Put(sink, uid, batch))
  }

  function BackendOf(sink0: Sink): (b: Backend)
    ensures IsBackend(b, sink0)
  {
    Backend(batch => Takes(sink0, batch), (sink, uid, batch) => Put(sink, uid, batch))
  }

  /** A write that lands a number of times, one after the other. */
  function Land(b: Backend, sink: Sink, uid: UnitId, batch: seq<Row>, times: nat): Sink {
    if times == 0 then sink else b.put(Land(b, sink, uid, batch, times - 1), uid, batch)
  }
}
