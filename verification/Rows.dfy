/** Values shared by the models: table rows, merge keys, and small sequence vocabulary. */
module Rows {

  datatype Option<+T> = None | Some(value: T)

  /** An SQL cell. The payload type does not matter to any model here, only equality and NULL do. */
  datatype Value = Null | Val(payload: int)

  datatype Row = Row(cells: map<string, Value>)

  /** The value of a column; a column a row does not carry reads as NULL, as union_by_name has it. */
  function Cell(row: Row, column: string): Value {
    if column in row.cells then row.cells[column] else Null
  }

  /** The columns of a record batch are those of its rows, which all have the same. */
  function ColumnsOf(batch: seq<Row>): set<string> {
    if batch == [] then {} else batch[0].cells.Keys
  }

  ghost predicate Rectangular(batch: seq<Row>) {
    forall i :: 0 <= i < |batch| ==> batch[i].cells.Keys == ColumnsOf(batch)
  }

  /** The tuple of a row's values in the given columns. */
  function KeyOf(row: Row, columns: seq<string>): seq<Value> {
    seq(|columns|, i requires 0 <= i < |columns| => Cell(row, columns[i]))
  }

  predicate HasNull(key: seq<Value>) {
    exists i :: 0 <= i < |key| && key[i] == Null
  }

  predicate HasKey(rows: seq<Row>, columns: seq<string>, key: seq<Value>) {
    exists i :: 0 <= i < |rows| && KeyOf(rows[i], columns) == key
  }

  ghost predicate KeyUnique(rows: seq<Row>, columns: seq<string>) {
    forall i, j :: 0 <= i < j < |rows| ==> KeyOf(rows[i], columns) != KeyOf(rows[j], columns)
  }

  /** The key-to-row map of a table, a later row replacing an earlier one of the same key. */
  function Index(rows: seq<Row>, columns: seq<string>): map<seq<Value>, Row> {
    if rows == [] then map[]
    else map[KeyOf(rows[0], columns) := rows[0]] + Index(rows[1..], columns)
  }

  lemma OverrideAssociates<K, V>(a: map<K, V>, b: map<K, V>, c: map<K, V>)
    ensures (a + b) + c == a + (b + c)
  {
  }

  lemma OverrideTwice<K, V>(a: map<K, V>, b: map<K, V>)
    ensures (a + b) + b == a + b
  {
  }

  lemma {:induction false} IndexAppend(a: seq<Row>, b: seq<Row>, columns: seq<string>)
    ensures Index(a + b, columns) == Index(a, columns) + Index(b, columns)
  {
    if a == [] {
      assert a + b == b;
      assert map[] + Index(b, columns) == Index(b, columns);
    } else {
      assert (a + b)[1..] == a[1..] + b;
      IndexAppend(a[1..], b, columns);
      OverrideAssociates(map[KeyOf(a[0], columns) := a[0]], Index(a[1..], columns), Index(b, columns));
    }
  }

  lemma {:induction false} IndexKeys(rows: seq<Row>, columns: seq<string>, key: seq<Value>)
    ensures key in Index(rows, columns) <==> HasKey(rows, columns, key)
  {
    if rows != [] {
      IndexKeys(rows[1..], columns, key);
      HasKeySplit(rows, columns, key);
    }
  }

  lemma HasKeySplit(rows: seq<Row>, columns: seq<string>, key: seq<Value>)
    requires rows != []
    ensures HasKey(rows, columns, key) <==> KeyOf(rows[0], columns) == key || HasKey(rows[1..], columns, key)
  {
    if HasKey(rows, columns, key) {
      var i :| 0 <= i < |rows| && KeyOf(rows[i], columns) == key;
      assert i > 0 ==> rows[1..][i - 1] == rows[i];
    }
    if HasKey(rows[1..], columns, key) {
      var i :| 0 <= i < |rows[1..]| && KeyOf(rows[1..][i], columns) == key;
      assert rows[i + 1] == rows[1..][i];
    }
  }

  /** read_parquet with union_by_name: every row gets all columns, NULL where it had none. */
  function Padded(rows: seq<Row>, columns: set<string>): (padded: seq<Row>)
    ensures |padded| == |rows|
  {
    seq(|rows|, i requires 0 <= i < |rows| => Row(map c | c in columns + rows[i].cells.Keys :: Cell(rows[i], c)))
  }

  /** A row as it reads: a column it lacks and one that is NULL are the same. */
  function AsRead(row: Row): Row {
    Row(map c | c in row.cells && row.cells[c] != Null :: row.cells[c])
  }

  function ReadAll(rows: seq<Row>): (read: seq<Row>)
    ensures |read| == |rows| && forall i :: 0 <= i < |rows| ==> read[i] == AsRead(rows[i])
  {
    seq(|rows|, i requires 0 <= i < |rows| => AsRead(rows[i]))
  }

  /** Padding changes no row as it reads. */
  lemma PaddedReadsTheSame(rows: seq<Row>, columns: set<string>)
    ensures ReadAll(Padded(rows, columns)) == ReadAll(rows)
  {
    forall i | 0 <= i < |rows| ensures AsRead(Padded(rows, columns)[i]) == AsRead(rows[i]) {
      assert AsRead(Padded(rows, columns)[i]).cells == AsRead(rows[i]).cells;
    }
  }

  lemma ReadAppend(a: seq<Row>, b: seq<Row>)
    ensures ReadAll(a + b) == ReadAll(a) + ReadAll(b)
  {
    var whole, parts := ReadAll(a + b), ReadAll(a) + ReadAll(b);
    forall i | 0 <= i < |a| + |b| ensures whole[i] == parts[i] {
    }
  }

  /** Concatenation of a sequence of sequences, in order. */
  function Flatten<T>(parts: seq<seq<T>>): seq<T> {
    if parts == [] then [] else parts[0] + Flatten(parts[1..])
  }

  lemma FirstIsMember<T>(s: seq<T>)
    ensures s == [] || s[0] in s
  {
  }

  lemma AppendAssociates<T>(a: seq<T>, b: seq<T>, c: seq<T>)
    ensures (a + b) + c == a + (b + c)
  {
  }

  lemma {:induction false} FlattenAppend<T>(a: seq<seq<T>>, b: seq<seq<T>>)
    ensures Flatten(a + b) == Flatten(a) + Flatten(b)
  {
    if a == [] {
      assert a + b == b;
    } else {
      assert (a + b)[1..] == a[1..] + b;
      FlattenAppend(a[1..], b);
      AppendAssociates(a[0], Flatten(a[1..]), Flatten(b));
    }
  }

  lemma FlattenSnoc<T>(a: seq<seq<T>>, last: seq<T>)
    ensures Flatten(a + [last]) == Flatten(a) + last
  {
    FlattenAppend(a, [last]);
    assert Flatten([last]) == last + Flatten<T>([]);
  }

  /**
   Whether a fault strikes here: a process dying, a call failing. It can only where faults are
   possible at all; beyond that nothing is known about it.
   */
  method Strikes(possible: bool) returns (fault: bool)
    ensures fault ==> possible
  {
    fault := *;
    if !possible {
      fault := false;
    }
  }

  ghost predicate Distinct<T>(s: seq<T>) {
    forall i, j :: 0 <= i < j < |s| ==> s[i] != s[j]
  }
}
