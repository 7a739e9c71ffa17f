/**
 The two keyed sinks. DuckDB deletes every matching row and inserts the last row of each key;
 Postgres folds INSERT ... ON CONFLICT over the batch row by row. Both promise one row per
 merge key, the last one written, and that writing a batch twice is writing it once.
 */
module Upsert {
  import opened Rows

  // ---------------------------------------------------------------- DuckDB

  /** SQL equality on every key column: a NULL on either side never matches. */
  predicate SqlMatches(a: Row, b: Row, keys: seq<string>) {
    forall i :: 0 <= i < |keys| ==>
      Cell(a, keys[i]) != Null && Cell(a, keys[i]) == Cell(b, keys[i])
  }

  /** Some row of the batch deletes this table row. */
  predicate Deleted(row: Row, batch: seq<Row>, keys: seq<string>) {
    exists i :: 0 <= i < |batch| && SqlMatches(row, batch[i], keys)
  }

  /** DELETE FROM table WHERE EXISTS (a staging row with the same key): the rows that stay. */
  function Survivors(table: seq<Row>, batch: seq<Row>, keys: seq<string>): seq<Row> {
    if table == [] then []
    else
      (if Deleted(table[0], batch, keys) then [] else [table[0]])
      + Survivors(table[1..], batch, keys)
  }

  /** QUALIFY row_number() OVER (PARTITION BY keys ORDER BY seq DESC) = 1. */
  function LastPerKey(batch: seq<Row>, keys: seq<string>): seq<Row> {
    if batch == [] then []
    else
      (if HasKey(batch[1..], keys, KeyOf(batch[0], keys)) then [] else [batch[0]])
      + LastPerKey(batch[1..], keys)
  }

  function DuckWrite(table: seq<Row>, batch: seq<Row>, keys: seq<string>): seq<Row> {
    Survivors(table, batch, keys) + LastPerKey(batch, keys)
  }

  /** A DuckDB table: no constraint of its own, so its rows are a bare sequence. */
  class DuckDBSink {
    const mergeKey: seq<string>
    var rows: seq<Row>

    constructor (mergeKey: seq<string>)
      requires mergeKey != []
      ensures this.mergeKey == mergeKey && rows == []
    {
      this.mergeKey := mergeKey;
      rows := [];
    }

    /** BEGIN; DELETE; INSERT; COMMIT. A failing insert or commit rolls the table back. */
    method Write(batch: seq<Row>, fails: bool) returns (committed: bool)
      modifies this`rows
      ensures committed <==> !fails
      ensures rows == if committed then DuckWrite(old(rows), batch, mergeKey) else old(rows)
    {
      var before := rows;
      rows := Survivors(rows, batch, mergeKey);
      if fails {
        rows := before;
        return false;
      }
      rows := rows + LastPerKey(batch, mergeKey);
      committed := true;
    }
  }

  // -------------------------------------------------------------- Postgres

  /** SET col = EXCLUDED.col for the given columns, the others keeping the stored value. */
  function SetExcluded(stored: Row, excluded: Row, columns: set<string>): Row {
    Row(map c | c in stored.cells.Keys + columns ::
          if c in columns then Cell(excluded, c) else stored.cells[c])
  }

  function KeySet(keys: seq<string>): set<string> {
    set k | k in keys
  }

  /** INSERT ... ON CONFLICT (keys) DO UPDATE SET ..., or DO NOTHING when every column is a key. */
  function InsertOnConflict(table: map<seq<Value>, Row>, row: Row, columns: set<string>, keys: seq<string>)
    : map<seq<Value>, Row>
  {
    var k := KeyOf(row, keys);
    var updateColumns := columns - KeySet(keys);
    if k !in table then table[k := row]
    else if updateColumns == {} then table
    else table[k := SetExcluded(table[k], row, updateColumns)]
  }

  /** executemany over the batch: None when a NULL key violates the primary key. */
  function PgWrite(table: map<seq<Value>, Row>, batch: seq<Row>, columns: set<string>, keys: seq<string>)
    : Option<map<seq<Value>, Row>>
    decreases |batch|
  {
    if batch == [] then Some(table)
    else if HasNull(KeyOf(batch[0], keys)) then None
    else PgWrite(InsertOnConflict(table, batch[0], columns, keys), batch[1..], columns, keys)
  }

  class PostgresSink {
    const mergeKey: seq<string>
    var table: map<seq<Value>, Row>

    constructor (mergeKey: seq<string>)
      requires mergeKey != []
      ensures this.mergeKey == mergeKey && table == map[]
    {
      this.mergeKey := mergeKey;
      table := map[];
    }

    /** One transaction: either the whole batch is applied or the table is unchanged. */
    method Upsert(batch: seq<Row>) returns (committed: bool)
      modifies this`table
      ensures committed <==> PgWrite(old(table), batch, ColumnsOf(batch), mergeKey).Some?
      ensures table == if committed then PgWrite(old(table), batch, ColumnsOf(batch), mergeKey).value else old(table)
      ensures committed <==> NonNullKeys(batch, mergeKey)
      ensures committed && Rectangular(batch) ==> Upserted(old(table), batch, mergeKey, table)
    {
      var before, columns := table, ColumnsOf(batch);
      PgRejectsNullKeys(before, batch, columns, mergeKey);
      if NonNullKeys(batch, mergeKey) && Rectangular(batch) {
        PgWriteUpserts(before, batch, mergeKey);
      }
      var i := 0;
      while i < |batch|
        invariant 0 <= i <= |batch|
        invariant PgWrite(before, batch, columns, mergeKey) == PgWrite(table, batch[i..], columns, mergeKey)
      {
        if HasNull(KeyOf(batch[i], mergeKey)) {
          table := before;
          return false;
        }
        assert batch[i..][1..] == batch[i + 1..];
        table := InsertOnConflict(table, batch[i], columns, mergeKey);
        i := i + 1;
      }
      committed := true;
    }
  }

  // ------------------------------------------------------------ Properties

  predicate NonNullKeys(rows: seq<Row>, keys: seq<string>) {
    forall i :: 0 <= i < |rows| ==> !HasNull(KeyOf(rows[i], keys))
  }

  /** Every row carries exactly the given columns. */
  ghost predicate HasColumns(row: Row, columns: set<string>) {
    row.cells.Keys == columns
  }

  lemma MatchIsKeyEquality(a: Row, b: Row, keys: seq<string>)
    requires !HasNull(KeyOf(b, keys))
    ensures SqlMatches(a, b, keys) <==> KeyOf(a, keys) == KeyOf(b, keys)
  {
    forall i | 0 <= i < |keys|
      ensures KeyOf(a, keys)[i] == Cell(a, keys[i]) && KeyOf(b, keys)[i] == Cell(b, keys[i]) != Null
    {
    }
  }

  /** A row whose key holds a NULL is never deleted by a later write. */
  lemma NullKeyNeverMatches(a: Row, b: Row, keys: seq<string>)
    requires HasNull(KeyOf(a, keys))
    ensures !SqlMatches(a, b, keys)
  {
    var i :| 0 <= i < |keys| && KeyOf(a, keys)[i] == Null;
    assert Cell(a, keys[i]) == Null;
  }

  lemma DeletedIsKeyed(row: Row, batch: seq<Row>, keys: seq<string>)
    requires NonNullKeys(batch, keys)
    ensures Deleted(row, batch, keys) <==> KeyOf(row, keys) in Index(batch, keys)
  {
    IndexKeys(batch, keys, KeyOf(row, keys));
    forall i | 0 <= i < |batch|
      ensures SqlMatches(row, batch[i], keys) <==> KeyOf(row, keys) == KeyOf(batch[i], keys)
    {
      MatchIsKeyEquality(row, batch[i], keys);
    }
  }

  lemma OverrideMinus<K, V>(k: K, v: V, m: map<K, V>, gone: set<K>)
    ensures (map[k := v] + m) - gone == if k in gone then m - gone else map[k := v] + (m - gone)
  {
  }

  lemma {:induction false} SurvivorsIndex(table: seq<Row>, batch: seq<Row>, keys: seq<string>)
    requires NonNullKeys(batch, keys)
    ensures Index(Survivors(table, batch, keys), keys) == Index(table, keys) - Index(batch, keys).Keys
  {
    if table != [] {
      SurvivorsIndex(table[1..], batch, keys);
      DeletedIsKeyed(table[0], batch, keys);
      var rest := Survivors(table[1..], batch, keys);
      if Deleted(table[0], batch, keys) {
        assert [] + rest == rest;
      } else {
        assert ([table[0]] + rest)[1..] == rest;
      }
      OverrideMinus(KeyOf(table[0], keys), table[0], Index(table[1..], keys), Index(batch, keys).Keys);
    }
  }

  lemma {:induction false} LastPerKeyIndex(batch: seq<Row>, keys: seq<string>)
    ensures Index(LastPerKey(batch, keys), keys) == Index(batch, keys)
  {
    if batch != [] {
      LastPerKeyIndex(batch[1..], keys);
      IndexKeys(batch[1..], keys, KeyOf(batch[0], keys));
      var rest := LastPerKey(batch[1..], keys);
      if HasKey(batch[1..], keys, KeyOf(batch[0], keys)) {
        assert [] + rest == rest;
      } else {
        assert ([batch[0]] + rest)[1..] == rest;
      }
    }
  }

  /** Set-based replacement is an override of the key-to-row map. */
  lemma DuckWriteOverrides(table: seq<Row>, batch: seq<Row>, keys: seq<string>)
    requires NonNullKeys(batch, keys)
    ensures Index(DuckWrite(table, batch, keys), keys) == Index(table, keys) + Index(batch, keys)
  {
    SurvivorsIndex(table, batch, keys);
    LastPerKeyIndex(batch, keys);
    IndexAppend(Survivors(table, batch, keys), LastPerKey(batch, keys), keys);
  }

  lemma SetExcludedReplaces(stored: Row, row: Row, columns: set<string>, keys: seq<string>)
    requires HasColumns(stored, columns) && HasColumns(row, columns)
    requires KeyOf(stored, keys) == KeyOf(row, keys)
    ensures SetExcluded(stored, row, columns - KeySet(keys)) == row
  {
    var merged := SetExcluded(stored, row, columns - KeySet(keys));
    forall c | c in row.cells.Keys ensures merged.cells[c] == row.cells[c] {
      if c in keys {
        var i :| 0 <= i < |keys| && keys[i] == c;
        assert KeyOf(stored, keys)[i] == KeyOf(row, keys)[i];
      }
    }
    assert merged.cells == row.cells;
  }

  /** A table stored under its own merge key, every row with the same columns. */
  ghost predicate KeyedTable(table: map<seq<Value>, Row>, columns: set<string>, keys: seq<string>) {
    forall k :: k in table ==> HasColumns(table[k], columns) && KeyOf(table[k], keys) == k
  }

  /** One ON CONFLICT insert puts the row at its key, also when every column is a key column. */
  lemma InsertOnConflictPuts(table: map<seq<Value>, Row>, row: Row, columns: set<string>, keys: seq<string>)
    requires HasColumns(row, columns) && KeyedTable(table, columns, keys)
    ensures InsertOnConflict(table, row, columns, keys) == table[KeyOf(row, keys) := row]
  {
    var k := KeyOf(row, keys);
    if k in table {
      SetExcludedReplaces(table[k], row, columns, keys);
      var update := columns - KeySet(keys);
      if update == {} {
        assert SetExcluded(table[k], row, update) == table[k];
      }
    }
  }

  lemma PutThenOverride<K, V>(m: map<K, V>, k: K, v: V, rest: map<K, V>)
    ensures m[k := v] + rest == m + (map[k := v] + rest)
  {
  }

  lemma {:induction false} PgWriteOverrides(
    table: map<seq<Value>, Row>, batch: seq<Row>, columns: set<string>, keys: seq<string>)
    requires NonNullKeys(batch, keys) && KeyedTable(table, columns, keys)
    requires forall i :: 0 <= i < |batch| ==> HasColumns(batch[i], columns)
    ensures PgWrite(table, batch, columns, keys) == Some(table + Index(batch, keys))
    decreases |batch|
  {
    if batch == [] {
      assert table + Index(batch, keys) == table;
    } else {
      var k := KeyOf(batch[0], keys);
      InsertOnConflictPuts(table, batch[0], columns, keys);
      NonNullSplit(batch, keys);
      PgWriteOverrides(table[k := batch[0]], batch[1..], columns, keys);
      PutThenOverride(table, k, batch[0], Index(batch[1..], keys));
    }
  }

  lemma {:induction false} IndexRows(rows: seq<Row>, columns: set<string>, keys: seq<string>)
    requires forall i :: 0 <= i < |rows| ==> HasColumns(rows[i], columns)
    ensures KeyedTable(Index(rows, keys), columns, keys)
  {
    if rows != [] {
      IndexRows(rows[1..], columns, keys);
      var rest := Index(rows[1..], keys);
      forall k | k in Index(rows, keys)
        ensures HasColumns(Index(rows, keys)[k], columns) && KeyOf(Index(rows, keys)[k], keys) == k
      {
        assert k in rest || k == KeyOf(rows[0], keys);
      }
    }
  }

  /**
   The DuckDB sink refines the Postgres sink: on a table and batch with the same columns and no
   NULL key, delete-then-insert-last leaves the same key-to-row map as the ON CONFLICT fold.
   */
  lemma DuckRefinesPostgres(table: seq<Row>, batch: seq<Row>, columns: set<string>, keys: seq<string>)
    requires NonNullKeys(batch, keys)
    requires forall i :: 0 <= i < |table| ==> HasColumns(table[i], columns)
    requires forall i :: 0 <= i < |batch| ==> HasColumns(batch[i], columns)
    ensures PgWrite(Index(table, keys), batch, columns, keys) == Some(Index(DuckWrite(table, batch, keys), keys))
  {
    IndexRows(table, columns, keys);
    PgWriteOverrides(Index(table, keys), batch, columns, keys);
    DuckWriteOverrides(table, batch, keys);
  }

  /** Postgres rejects exactly the batches that hold a NULL key. */
  lemma {:induction false} PgRejectsNullKeys(
    table: map<seq<Value>, Row>, batch: seq<Row>, columns: set<string>, keys: seq<string>)
    ensures PgWrite(table, batch, columns, keys).Some? <==> NonNullKeys(batch, keys)
    decreases |batch|
  {
    if batch != [] {
      PgRejectsNullKeys(InsertOnConflict(table, batch[0], columns, keys), batch[1..], columns, keys);
      NonNullSplit(batch, keys);
    }
  }

  lemma NonNullSplit(rows: seq<Row>, keys: seq<string>)
    requires rows != []
    ensures NonNullKeys(rows, keys) <==> !HasNull(KeyOf(rows[0], keys)) && NonNullKeys(rows[1..], keys)
  {
    if !HasNull(KeyOf(rows[0], keys)) && NonNullKeys(rows[1..], keys) {
      forall i | 0 <= i < |rows| ensures !HasNull(KeyOf(rows[i], keys)) {
        assert i > 0 ==> rows[i] == rows[1..][i - 1];
      }
    }
  }

  lemma UniqueCons(row: Row, rest: seq<Row>, keys: seq<string>)
    requires KeyUnique(rest, keys) && !HasKey(rest, keys, KeyOf(row, keys))
    ensures KeyUnique([row] + rest, keys)
  {
    assert forall j :: 0 <= j < |rest| ==> ([row] + rest)[j + 1] == rest[j];
  }

  lemma {:induction false} SurvivorsUnique(table: seq<Row>, batch: seq<Row>, keys: seq<string>)
    requires NonNullKeys(batch, keys) && KeyUnique(table, keys)
    ensures KeyUnique(Survivors(table, batch, keys), keys)
  {
    if table != [] {
      var rest, k := Survivors(table[1..], batch, keys), KeyOf(table[0], keys);
      assert forall j :: 0 <= j < |table[1..]| ==> table[1..][j] == table[j + 1];
      SurvivorsUnique(table[1..], batch, keys);
      SurvivorsIndex(table[1..], batch, keys);
      IndexKeys(rest, keys, k);
      IndexKeys(table[1..], keys, k);
      assert !HasKey(table[1..], keys, k);
      UniqueCons(table[0], rest, keys);
    }
  }

  lemma {:induction false} LastPerKeyUnique(batch: seq<Row>, keys: seq<string>)
    ensures KeyUnique(LastPerKey(batch, keys), keys)
  {
    if batch != [] {
      var rest, k := LastPerKey(batch[1..], keys), KeyOf(batch[0], keys);
      LastPerKeyUnique(batch[1..], keys);
      LastPerKeyIndex(batch[1..], keys);
      IndexKeys(rest, keys, k);
      IndexKeys(batch[1..], keys, k);
      if !HasKey(batch[1..], keys, k) {
        UniqueCons(batch[0], rest, keys);
      }
    }
  }

  lemma DuckWriteKeepsUnique(table: seq<Row>, batch: seq<Row>, keys: seq<string>)
    requires KeyUnique(table, keys) && NonNullKeys(batch, keys)
    ensures KeyUnique(DuckWrite(table, batch, keys), keys)
  {
    var kept, added := Survivors(table, batch, keys), LastPerKey(batch, keys);
    SurvivorsUnique(table, batch, keys);
    LastPerKeyUnique(batch, keys);
    SurvivorsIndex(table, batch, keys);
    LastPerKeyIndex(batch, keys);
    forall i, j | 0 <= i < |kept| && 0 <= j < |added| ensures KeyOf(kept[i], keys) != KeyOf(added[j], keys) {
      assert HasKey(kept, keys, KeyOf(kept[i], keys));
      assert HasKey(added, keys, KeyOf(added[j], keys));
      IndexKeys(kept, keys, KeyOf(kept[i], keys));
      IndexKeys(added, keys, KeyOf(added[j], keys));
    }
  }

  lemma {:induction false} SurvivorsAppend(a: seq<Row>, b: seq<Row>, batch: seq<Row>, keys: seq<string>)
    ensures Survivors(a + b, batch, keys) == Survivors(a, batch, keys) + Survivors(b, batch, keys)
  {
    if a == [] {
      assert a + b == b;
    } else {
      assert (a + b)[1..] == a[1..] + b;
      SurvivorsAppend(a[1..], b, batch, keys);
    }
  }

  lemma {:induction false} SurvivorsTwice(table: seq<Row>, batch: seq<Row>, keys: seq<string>)
    ensures Survivors(Survivors(table, batch, keys), batch, keys) == Survivors(table, batch, keys)
  {
    if table != [] {
      SurvivorsTwice(table[1..], batch, keys);
      var rest := Survivors(table[1..], batch, keys);
      if Deleted(table[0], batch, keys) {
        assert [] + rest == rest;
      } else {
        assert ([table[0]] + rest)[1..] == rest;
      }
    }
  }

  /** What a second write of the same batch leaves of a part of the first one's insert. */
  lemma {:induction false} InsertedSurvivors(part: seq<Row>, batch: seq<Row>, keys: seq<string>)
    requires forall r :: r in part ==> r in batch
    ensures Survivors(part, batch, keys) == [] <==> NonNullKeys(part, keys)
  {
    if part != [] {
      InsertedSurvivors(part[1..], batch, keys);
      NonNullSplit(part, keys);
      assert part[0] in batch;
      var j :| 0 <= j < |batch| && batch[j] == part[0];
      if HasNull(KeyOf(part[0], keys)) {
        forall i | 0 <= i < |batch| ensures !SqlMatches(part[0], batch[i], keys) {
          NullKeyNeverMatches(part[0], batch[i], keys);
        }
      } else {
        MatchIsKeyEquality(part[0], batch[j], keys);
      }
    }
  }

  lemma NonNullAt(rows: seq<Row>, keys: seq<string>, key: seq<Value>)
    requires HasKey(rows, keys, key)
    ensures NonNullKeys(rows, keys) ==> !HasNull(key)
  {
    var i :| 0 <= i < |rows| && KeyOf(rows[i], keys) == key;
    assert NonNullKeys(rows, keys) ==> !HasNull(KeyOf(rows[i], keys));
  }

  lemma {:induction false} LastPerKeyFromBatch(batch: seq<Row>, keys: seq<string>)
    ensures forall r :: r in LastPerKey(batch, keys) ==> r in batch
    ensures NonNullKeys(LastPerKey(batch, keys), keys) <==> NonNullKeys(batch, keys)
  {
    if batch != [] {
      var rest, k := LastPerKey(batch[1..], keys), KeyOf(batch[0], keys);
      LastPerKeyFromBatch(batch[1..], keys);
      NonNullSplit(batch, keys);
      if HasKey(batch[1..], keys, k) {
        NonNullAt(batch[1..], keys, k);
        assert LastPerKey(batch, keys) == rest;
      } else {
        NonNullSplit([batch[0]] + rest, keys);
        assert ([batch[0]] + rest)[1..] == rest;
      }
    }
  }

  lemma GrowsUnlessEmpty<T>(a: seq<T>, b: seq<T>, c: seq<T>)
    ensures (a + b) + c == a + c <==> b == []
  {
    if b == [] {
      assert a + b == a;
    } else {
      assert |(a + b) + c| > |a + c|;
    }
  }

  /**
   Writing a batch twice leaves the same table as writing it once exactly when no row of the
   batch has a NULL in its merge key: the DELETE never matches such a row, so it piles up.
   */
  lemma DuckWriteIdempotentIff(table: seq<Row>, batch: seq<Row>, keys: seq<string>)
    ensures DuckWrite(DuckWrite(table, batch, keys), batch, keys) == DuckWrite(table, batch, keys)
            <==> NonNullKeys(batch, keys)
  {
    var kept, added := Survivors(table, batch, keys), LastPerKey(batch, keys);
    SurvivorsAppend(kept, added, batch, keys);
    SurvivorsTwice(table, batch, keys);
    LastPerKeyFromBatch(batch, keys);
    InsertedSurvivors(added, batch, keys);
    GrowsUnlessEmpty(kept, Survivors(added, batch, keys), added);
  }

  // ------------------------------------------------------- Writing a batch again

  lemma SetTwice(stored: Row, a: Row, b: Row, columns: set<string>)
    ensures SetExcluded(SetExcluded(stored, a, columns), b, columns) == SetExcluded(stored, b, columns)
  {
  }

  lemma SetOwn(row: Row, columns: set<string>)
    requires columns <= row.cells.Keys
    ensures SetExcluded(row, row, columns) == row
  {
    assert SetExcluded(row, row, columns).cells == row.cells;
  }

  /** The last row of a key in a batch. */
  function LastOf(batch: seq<Row>, keys: seq<string>, key: seq<Value>): Option<Row> {
    if batch == [] then None
    else
      var later := LastOf(batch[1..], keys, key);
      if later.Some? then later
      else if KeyOf(batch[0], keys) == key then Some(batch[0]) else None
  }

  /** What a batch leaves of a stored row: the update columns of the last row of its key, if any. */
  function Updated(stored: Row, last: Option<Row>, update: set<string>): Row {
    if last.None? || update == {} then stored else SetExcluded(stored, last.value, update)
  }

  lemma UpdatedTwice(stored: Row, a: Row, b: Option<Row>, update: set<string>)
    ensures Updated(Updated(stored, Some(a), update), b, update)
            == Updated(stored, if b.Some? then b else Some(a), update)
  {
    if b.Some? {
      SetTwice(stored, a, b.value, update);
    }
  }

  lemma {:induction false} PgAt(
    table: map<seq<Value>, Row>, batch: seq<Row>, columns: set<string>, keys: seq<string>, key: seq<Value>)
    requires NonNullKeys(batch, keys) && key in table
    ensures var after := PgWrite(table, batch, columns, keys);
            && after.Some? && key in after.value
            && after.value[key] == Updated(table[key], LastOf(batch, keys, key), columns - KeySet(keys))
    decreases |batch|
  {
    if batch != [] {
      NonNullSplit(batch, keys);
      PgAt(InsertOnConflict(table, batch[0], columns, keys), batch[1..], columns, keys, key);
      if KeyOf(batch[0], keys) == key {
        UpdatedTwice(table[key], batch[0], LastOf(batch[1..], keys, key), columns - KeySet(keys));
      }
    }
  }

  /** After a batch the row of each of its keys has the values of the last row of that key. */
  lemma {:induction false} PgHasLast(
    table: map<seq<Value>, Row>, batch: seq<Row>, columns: set<string>, keys: seq<string>, key: seq<Value>)
    requires NonNullKeys(batch, keys) && forall i :: 0 <= i < |batch| ==> columns <= batch[i].cells.Keys
    requires key in table || LastOf(batch, keys, key).Some?
    ensures var after := PgWrite(table, batch, columns, keys);
            && after.Some? && key in after.value
            && Updated(after.value[key], LastOf(batch, keys, key), columns - KeySet(keys)) == after.value[key]
    decreases |batch|
  {
    var update := columns - KeySet(keys);
    if key in table {
      PgAt(table, batch, columns, keys, key);
      var last := LastOf(batch, keys, key);
      if last.Some? {
        UpdatedTwice(table[key], last.value, last, update);
      }
    } else {
      NonNullSplit(batch, keys);
      var next, rest := InsertOnConflict(table, batch[0], columns, keys), LastOf(batch[1..], keys, key);
      if KeyOf(batch[0], keys) == key {
        PgAt(next, batch[1..], columns, keys, key);
        if rest.Some? {
          UpdatedTwice(batch[0], rest.value, rest, update);
        } else {
          SetOwn(batch[0], update);
        }
      } else {
        PgHasLast(next, batch[1..], columns, keys, key);
      }
    }
  }

  lemma {:induction false} PgKeys(
    table: map<seq<Value>, Row>, batch: seq<Row>, columns: set<string>, keys: seq<string>, key: seq<Value>)
    requires PgWrite(table, batch, columns, keys).Some?
    ensures key in PgWrite(table, batch, columns, keys).value <==> key in table || LastOf(batch, keys, key).Some?
    decreases |batch|
  {
    if batch != [] {
      PgKeys(InsertOnConflict(table, batch[0], columns, keys), batch[1..], columns, keys, key);
    }
  }

  // --------------------------------------------------- What a batch leaves, cell by cell

  /** Row i is the last one of its key. */
  ghost predicate IsLast(batch: seq<Row>, keys: seq<string>, key: seq<Value>, i: nat) {
    && i < |batch| && KeyOf(batch[i], keys) == key
    && forall j :: i < j < |batch| ==> KeyOf(batch[j], keys) != key
  }

  lemma {:induction false} LastOfIs(batch: seq<Row>, keys: seq<string>, key: seq<Value>, i: nat)
    ensures LastOf(batch, keys, key).Some? <==> HasKey(batch, keys, key)
    ensures IsLast(batch, keys, key, i) ==> LastOf(batch, keys, key) == Some(batch[i])
  {
    if batch != [] {
      var rest := batch[1..];
      HasKeySplit(batch, keys, key);
      LastOfIs(rest, keys, key, if i > 0 then i - 1 else 0);
      if IsLast(batch, keys, key, i) {
        assert forall j :: 0 <= j < |rest| ==> rest[j] == batch[j + 1];
        if i == 0 {
          assert !HasKey(rest, keys, key);
        } else {
          assert IsLast(rest, keys, key, i - 1);
        }
      }
    }
  }

  /**
   What a row was before the batch and what it is afterwards, in terms of the row of the batch written
   last: a new row is that row; a stored one keeps its merge key and every column the batch does not
   have, and takes the batch's values in the others.
   */
  ghost predicate CellsWritten(before: Option<Row>, last: Row, keys: seq<string>, after: Row) {
    match before
    case None => after == last
    case Some(row) =>
      && after.cells.Keys == row.cells.Keys + set c | c in last.cells && c !in keys
      && (forall c :: c in row.cells && (c in keys || c !in last.cells) ==>
            c in after.cells && after.cells[c] == row.cells[c])
      && (forall c :: c in last.cells && c !in keys ==> c in after.cells && after.cells[c] == last.cells[c])
  }

  function At(table: map<seq<Value>, Row>, key: seq<Value>): Option<Row> {
    if key in table then Some(table[key]) else None
  }

  /** A table after a batch: rows whose key the batch does not have are as they were, no row is lost. */
  ghost predicate Upserted(
    before: map<seq<Value>, Row>, batch: seq<Row>, keys: seq<string>, after: map<seq<Value>, Row>)
  {
    && (forall key :: key in after <==> key in before || HasKey(batch, keys, key))
    && (forall key :: key in before && !HasKey(batch, keys, key) ==> after[key] == before[key])
    && (forall key, i: nat :: IsLast(batch, keys, key, i) ==>
          key in after && CellsWritten(At(before, key), batch[i], keys, after[key]))
  }

  lemma {:induction false} NewRowIsLast(
    table: map<seq<Value>, Row>, batch: seq<Row>, columns: set<string>, keys: seq<string>, key: seq<Value>, i: nat)
    requires NonNullKeys(batch, keys) && key !in table && IsLast(batch, keys, key, i)
    requires forall j :: 0 <= j < |batch| ==> HasColumns(batch[j], columns)
    ensures var after := PgWrite(table, batch, columns, keys);
            after.Some? && key in after.value && after.value[key] == batch[i]
    decreases |batch|
  {
    var rest, next := batch[1..], InsertOnConflict(table, batch[0], columns, keys);
    NonNullSplit(batch, keys);
    assert forall j :: 0 <= j < |rest| ==> rest[j] == batch[j + 1];
    if KeyOf(batch[0], keys) == key {
      PgAt(next, rest, columns, keys, key);
      if i > 0 {
        assert IsLast(rest, keys, key, i - 1);
        LastOfIs(rest, keys, key, i - 1);
        SetExcludedReplaces(batch[0], batch[i], columns, keys);
        OnlyKeys(batch[0], batch[i], columns, keys);
      } else {
        assert !HasKey(rest, keys, key);
        LastOfIs(rest, keys, key, 0);
      }
    } else {
      assert IsLast(rest, keys, key, i - 1);
      NewRowIsLast(next, rest, columns, keys, key, i - 1);
    }
  }

  /** Two rows of one key with merge key columns only are the same. */
  lemma OnlyKeys(a: Row, b: Row, columns: set<string>, keys: seq<string>)
    requires HasColumns(a, columns) && HasColumns(b, columns) && KeyOf(a, keys) == KeyOf(b, keys)
    ensures columns - KeySet(keys) == {} ==> a == b
  {
    if columns - KeySet(keys) == {} {
      SetExcludedReplaces(a, b, columns, keys);
      assert SetExcluded(a, b, {}).cells == a.cells;
    }
  }

  /** An accepted batch leaves every row as its last row of that key would have it, cell by cell. */
  lemma PgWriteUpserts(table: map<seq<Value>, Row>, batch: seq<Row>, keys: seq<string>)
    requires Rectangular(batch) && PgWrite(table, batch, ColumnsOf(batch), keys).Some?
    ensures Upserted(table, batch, keys, PgWrite(table, batch, ColumnsOf(batch), keys).value)
  {
    var columns := ColumnsOf(batch);
    PgRejectsNullKeys(table, batch, columns, keys);
    var after := PgWrite(table, batch, columns, keys).value;
    forall key
      ensures key in after <==> key in table || HasKey(batch, keys, key)
      ensures key in table && !HasKey(batch, keys, key) ==> after[key] == table[key]
    {
      PgKeys(table, batch, columns, keys, key);
      LastOfIs(batch, keys, key, 0);
      if key in table {
        PgAt(table, batch, columns, keys, key);
      }
    }
    forall key, i: nat | IsLast(batch, keys, key, i)
      ensures key in after && CellsWritten(At(table, key), batch[i], keys, after[key])
    {
      RowAfter(table, batch, keys, key, i);
    }
  }

  lemma RowAfter(table: map<seq<Value>, Row>, batch: seq<Row>, keys: seq<string>, key: seq<Value>, i: nat)
    requires Rectangular(batch) && NonNullKeys(batch, keys) && IsLast(batch, keys, key, i)
    ensures var after := PgWrite(table, batch, ColumnsOf(batch), keys);
            after.Some? && key in after.value && CellsWritten(At(table, key), batch[i], keys, after.value[key])
  {
    var columns := ColumnsOf(batch);
    if key in table {
      PgAt(table, batch, columns, keys, key);
      LastOfIs(batch, keys, key, i);
      var update := columns - KeySet(keys);
      assert forall c :: c in update <==> c in batch[i].cells && c !in keys;
    } else {
      NewRowIsLast(table, batch, columns, keys, key, i);
    }
  }

  /** An accepted batch, written again, changes nothing in Postgres, whatever columns it has. */
  lemma PgWriteTwice(table: map<seq<Value>, Row>, batch: seq<Row>, keys: seq<string>)
    requires Rectangular(batch) && PgWrite(table, batch, ColumnsOf(batch), keys).Some?
    ensures var once := PgWrite(table, batch, ColumnsOf(batch), keys).value;
            PgWrite(once, batch, ColumnsOf(batch), keys) == Some(once)
  {
    var columns := ColumnsOf(batch);
    PgRejectsNullKeys(table, batch, columns, keys);
    var once := PgWrite(table, batch, columns, keys).value;
    PgRejectsNullKeys(once, batch, columns, keys);
    var twice := PgWrite(once, batch, columns, keys).value;
    forall key ensures key in twice <==> key in once {
      PgKeys(table, batch, columns, keys, key);
      PgKeys(once, batch, columns, keys, key);
    }
    forall key | key in once ensures twice[key] == once[key] {
      PgKeys(table, batch, columns, keys, key);
      PgAt(once, batch, columns, keys, key);
      PgHasLast(table, batch, columns, keys, key);
    }
    assert twice == once;
  }

  // --------------------------------------------------- Rows with a NULL merge key

  function NullCount(rows: seq<Row>, keys: seq<string>): nat {
    if rows == [] then 0
    else (if HasNull(KeyOf(rows[0], keys)) then 1 else 0) + NullCount(rows[1..], keys)
  }

  lemma {:induction false} NullCountAppend(a: seq<Row>, b: seq<Row>, keys: seq<string>)
    ensures NullCount(a + b, keys) == NullCount(a, keys) + NullCount(b, keys)
  {
    if a == [] {
      assert a + b == b;
    } else {
      assert (a + b)[0] == a[0] && (a + b)[1..] == a[1..] + b;
      NullCountAppend(a[1..], b, keys);
    }
  }

  lemma {:induction false} NoNullsIff(rows: seq<Row>, keys: seq<string>)
    ensures NullCount(rows, keys) == 0 <==> NonNullKeys(rows, keys)
  {
    if rows != [] {
      NoNullsIff(rows[1..], keys);
      NonNullSplit(rows, keys);
    }
  }

  lemma {:induction false} SurvivorsKeepNulls(table: seq<Row>, batch: seq<Row>, keys: seq<string>)
    ensures NullCount(Survivors(table, batch, keys), keys) == NullCount(table, keys)
  {
    if table != [] {
      SurvivorsKeepNulls(table[1..], batch, keys);
      if HasNull(KeyOf(table[0], keys)) {
        forall i | 0 <= i < |batch| ensures !SqlMatches(table[0], batch[i], keys) {
          NullKeyNeverMatches(table[0], batch[i], keys);
        }
      }
      NullCountAppend(if Deleted(table[0], batch, keys) then [] else [table[0]],
                      Survivors(table[1..], batch, keys), keys);
    }
  }

  /** Every write adds its NULL-key rows to those the table has: they pile up. */
  lemma DuckWriteNulls(table: seq<Row>, batch: seq<Row>, keys: seq<string>)
    ensures NullCount(DuckWrite(table, batch, keys), keys)
            == NullCount(table, keys) + NullCount(LastPerKey(batch, keys), keys)
    ensures NullCount(LastPerKey(batch, keys), keys) == 0 <==> NonNullKeys(batch, keys)
  {
    NullCountAppend(Survivors(table, batch, keys), LastPerKey(batch, keys), keys);
    SurvivorsKeepNulls(table, batch, keys);
    LastPerKeyFromBatch(batch, keys);
    NoNullsIff(LastPerKey(batch, keys), keys);
  }
}
