/**
 What the sink holds: one file per page, or one row per merge key.
 */
module SinkContents {
  import opened Rows
  import opened StateStore
  import opened Upsert
  import opened Sinks
  import opened Protocol
  import opened CrashEquivalence

  // ------------------------------------------------------------ What the sink holds

  /** The rows of the accepted pages below `h`, in traversal order. */
  function AcceptedRows(p: Plan, h: nat): seq<Row> {
    if h == 0 then []
    else AcceptedRows(p, h - 1) + if Writes(p, h - 1) then p.rowsAt(h - 1) else []
  }

  ghost predicate IsPageBelow(p: Plan, h: nat, uid: UnitId) {
    exists k: nat :: k < h && p.unitAt(k) == uid
  }

  lemma {:induction false} IdealFilesArePages(p: Plan, h: nat, uid: UnitId)
    requires IsBackend(p.backend, p.sink0) && p.sink0 == Files(map[])
    ensures Ideal(p, h).Files? && (uid in Ideal(p, h).files ==> IsPageBelow(p, h, uid))
  {
    if h > 0 {
      IdealFilesArePages(p, h - 1, uid);
      if Writes(p, h - 1) {
        IdealSnoc(p, h);
      }
      if uid in Ideal(p, h).files && uid !in Ideal(p, h - 1).files {
        assert p.unitAt(h - 1) == uid;
      }
    }
  }

  lemma {:induction false} IdealFileOf(p: Plan, h: nat, k: nat)
    requires ValidPlan(p) && p.sink0 == Files(map[]) && (p.resumes ==> h <= p.last + 1) && k < h
    ensures Ideal(p, h).Files? && (p.unitAt(k) in Ideal(p, h).files <==> Writes(p, k))
    ensures Writes(p, k) ==> Ideal(p, h).files[p.unitAt(k)] == p.rowsAt(k)
  {
    assert InRange(p, k) && InRange(p, h - 1);
    if Writes(p, h - 1) {
      IdealSnoc(p, h);
    }
    IdealFilesArePages(p, h - 1, p.unitAt(k));
    if k < h - 1 {
      IdealFileOf(p, h - 1, k);
    } else {
      forall j: nat | j < k ensures p.unitAt(j) != p.unitAt(k) {
        assert InRange(p, j);
      }
      assert !IsPageBelow(p, k, p.unitAt(k));
    }
  }

  /** A file sink holds exactly one file per accepted page with data, with that page's rows. */
  lemma {:induction false} IdealFiles(p: Plan, h: nat)
    requires ValidPlan(p) && p.sink0 == Files(map[]) && (p.resumes ==> h <= p.last + 1)
    ensures Ideal(p, h).Files?
    ensures forall k: nat :: k < h ==> (p.unitAt(k) in Ideal(p, h).files <==> Writes(p, k))
    ensures forall k: nat :: k < h && Writes(p, k) ==> Ideal(p, h).files[p.unitAt(k)] == p.rowsAt(k)
    ensures forall uid :: uid in Ideal(p, h).files ==> IsPageBelow(p, h, uid)
  {
    IdealFilesArePages(p, h, p.unitAt(0));
    forall k: nat | k < h
      ensures p.unitAt(k) in Ideal(p, h).files <==> Writes(p, k)
      ensures Writes(p, k) ==> Ideal(p, h).files[p.unitAt(k)] == p.rowsAt(k)
    {
      IdealFileOf(p, h, k);
    }
    forall uid | uid in Ideal(p, h).files ensures IsPageBelow(p, h, uid) {
      IdealFilesArePages(p, h, uid);
    }
  }

  /** Every accepted page below h is taken and none of its rows has a NULL merge key. */
  ghost predicate KeyedPages(p: Plan, h: nat)
    requires !p.sink0.Files?
  {
    forall k: nat :: k < h && Writes(p, k) ==> !Refused(p, k) && NonNullKeys(p.rowsAt(k), p.sink0.keys)
  }

  /** A DuckDB table holds, for every key, the last accepted row in traversal order, and no key twice. */
  lemma {:induction false} IdealDuck(p: Plan, h: nat)
    requires IsBackend(p.backend, p.sink0) && p.sink0.Duck? && KeyedPages(p, h)
    ensures var keys := p.sink0.keys;
            && SameShape(Ideal(p, h), p.sink0)
            && Index(Ideal(p, h).rows, keys) == Index(p.sink0.rows, keys) + Index(AcceptedRows(p, h), keys)
            && (KeyUnique(p.sink0.rows, keys) ==> KeyUnique(Ideal(p, h).rows, keys))
  {
    if h == 0 {
      assert Index(p.sink0.rows, p.sink0.keys) + map[] == Index(p.sink0.rows, p.sink0.keys);
    } else {
      IdealDuck(p, h - 1);
      var keys, before, batch := p.sink0.keys, AcceptedRows(p, h - 1), p.rowsAt(h - 1);
      if Writes(p, h - 1) {
        var sink := Ideal(p, h - 1);
        IdealSnoc(p, h);
        TakesPage(p, sink, h - 1);
        DuckPutOverrides(sink, p.unitAt(h - 1), batch);
        IndexAppend(before, batch, keys);
        OverrideAssociates(Index(p.sink0.rows, keys), Index(before, keys), Index(batch, keys));
      } else {
        assert AcceptedRows(p, h) == before;
      }
    }
  }

  /** Every accepted page below h is taken and has exactly the table's columns. */
  ghost predicate FullPages(p: Plan, h: nat)
    requires !p.sink0.Files?
  {
    forall k: nat :: k < h && Writes(p, k) ==> !Refused(p, k) && ColumnsOf(p.rowsAt(k)) == p.sink0.columns
  }

  /** So does a Postgres table. */
  lemma {:induction false} IdealPostgres(p: Plan, h: nat)
    requires ValidPages(p) && p.sink0.Postgres? && FullPages(p, h)
    requires WellKeyed(p.sink0)
    ensures var keys := p.sink0.keys;
            && SameShape(Ideal(p, h), p.sink0)
            && Ideal(p, h).table == p.sink0.table + Index(AcceptedRows(p, h), keys)
            && WellKeyed(Ideal(p, h))
  {
    if h == 0 {
      assert p.sink0.table + map[] == p.sink0.table;
    } else {
      IdealPostgres(p, h - 1);
      var keys, before, batch := p.sink0.keys, AcceptedRows(p, h - 1), p.rowsAt(h - 1);
      if Writes(p, h - 1) {
        PostgresSnoc(p, h);
        IndexAppend(before, batch, keys);
        OverrideAssociates(p.sink0.table, Index(before, keys), Index(batch, keys));
      } else {
        assert AcceptedRows(p, h) == before;
      }
    }
  }

  /** One more page overrides the table by its rows. */
  lemma PostgresSnoc(p: Plan, h: nat)
    requires ValidPages(p) && p.sink0.Postgres? && FullPages(p, h) && h > 0 && Writes(p, h - 1)
    requires SameShape(Ideal(p, h - 1), p.sink0) && WellKeyed(Ideal(p, h - 1))
    ensures SameShape(Ideal(p, h), p.sink0) && WellKeyed(Ideal(p, h))
    ensures Ideal(p, h).table == Ideal(p, h - 1).table + Index(p.rowsAt(h - 1), p.sink0.keys)
  {
    IdealSnoc(p, h);
    TakesPage(p, Ideal(p, h - 1), h - 1);
    PostgresPutOverrides(Ideal(p, h - 1), p.unitAt(h - 1), p.rowsAt(h - 1));
  }

  lemma {:induction false} ReplayUnique(p: Plan, log: seq<nat>)
    requires IsBackend(p.backend, p.sink0) && p.sink0.Duck? && KeyUnique(p.sink0.rows, p.sink0.keys)
    requires forall k :: k in log ==> NonNullKeys(p.rowsAt(k), p.sink0.keys)
    ensures SameShape(Replay(p, log), p.sink0) && KeyUnique(Replay(p, log).rows, p.sink0.keys)
  {
    if log != [] {
      var front, k := log[..|log| - 1], log[|log| - 1];
      ReplayUnique(p, front);
      ReplaySnoc(p, log);
      assert k in log;
      DuckWriteKeepsUnique(Replay(p, front).rows, p.rowsAt(k), p.sink0.keys);
    }
  }

  /** In every state of every schedule, requeues included, a DuckDB table has at most one row per key. */
  lemma KeysStayUnique(p: Plan, labels: seq<Label>)
    requires IsBackend(p.backend, p.sink0) && p.sink0.Duck? && KeyUnique(p.sink0.rows, p.sink0.keys) && AllRepeatable(p)
    requires Exec(p, Init(p), labels).Some?
    ensures var sink := Exec(p, Init(p), labels).value.sink; sink.Duck? && KeyUnique(sink.rows, p.sink0.keys)
  {
    ReplayExec(p, Init(p), labels);
    var w := Exec(p, Init(p), labels).value;
    forall k | k in w.log ensures NonNullKeys(p.rowsAt(k), p.sink0.keys) {
      assert Writes(p, k) && Repeatable(p, k);
    }
    ReplayUnique(p, w.log);
  }
}
