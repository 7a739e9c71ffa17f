/** No gaps and no duplicates: what a returned schedule leaves in the sink, in terms of the source. */
module Completeness {
  import opened Rows
  import opened StateStore
  import opened Upsert
  import opened Sinks
  import opened Protocol
  import opened RestSource
  import opened Runs
  import opened CrashEquivalence
  import opened Recovery
  import opened SinkContents

  /** The first `h` pages are those of the table, and accepted. */
  ghost predicate AcceptsTable(p: Plan, table: seq<Row>, size: int, h: nat)
    requires size >= 1
  {
    forall k: nat :: k < h ==> VerdictAt(p, k) == Accept && p.rowsAt(k) == AsBatch(TablePage(table, size, k))
  }

  lemma PlanAcceptsTable(cfg: Config, table: seq<Row>, last: nat)
    requires ServesTable(cfg, table)
    requires forall k: nat :: k <= last ==> VerdictAt(PlanOf(cfg, [], last), k) == Accept
    ensures AcceptsTable(PlanOf(cfg, [], last), table, cfg.pagination.size, last + 1)
  {
    forall k: nat | k <= last
      ensures PlanOf(cfg, [], last).rowsAt(k) == AsBatch(TablePage(table, cfg.pagination.size, k))
    {
      PageIsServed(cfg, table, k);
    }
  }

  /** The rows of the first `k` pages, each page as one record batch. */
  function PagesUpTo(table: seq<Row>, size: int, k: nat): seq<Row>
    requires size >= 1
  {
    if k == 0 then [] else PagesUpTo(table, size, k - 1) + AsBatch(TablePage(table, size, k - 1))
  }

  /** Accepted pages, put together in order, are the pages of the table put together. */
  lemma {:induction false} AcceptedTablePages(p: Plan, table: seq<Row>, size: int, h: nat)
    requires size >= 1 && AcceptsTable(p, table, size, h)
    ensures AcceptedRows(p, h) == PagesUpTo(table, size, h)
  {
    if h > 0 {
      AcceptedTablePages(p, table, size, h - 1);
      var before, batch := AcceptedRows(p, h - 1), AsBatch(TablePage(table, size, h - 1));
      assert Writes(p, h - 1) <==> batch != [];
      assert AcceptedRows(p, h) == before + batch;
    }
  }

  lemma PagesReachTheEnd(length: nat, size: nat)
    requires size >= 1
    ensures (length / size + 1) * size > length
  {
    assert length == (length / size) * size + length % size;
    assert (length / size + 1) * size == (length / size) * size + size;
  }

  /** The record whose columns record i is collected with: the first one of its page. */
  function FirstOfPage(i: nat, size: nat): (first: nat)
    requires size >= 1
    ensures first <= i
  {
    if i < size then 0 else size + FirstOfPage(i - size, size)
  }

  lemma {:induction false} FirstOfPageIs(k: nat, j: nat, size: nat)
    requires j < size
    ensures FirstOfPage(k * size + j, size) == k * size
  {
    if k > 0 {
      FirstOfPageIs(k - 1, j, size);
      assert (k - 1) * size + size == k * size;
    }
  }

  ghost predicate RowHolds(row: Row, table: seq<Row>, i: nat, size: nat)
    requires size >= 1
  {
    i < |table| && HoldsRecord(row, table[i], table[FirstOfPage(i, size)])
  }

  /** Every row holds what its record has in the columns of the first record of its page. */
  ghost predicate HoldsTable(rows: seq<Row>, table: seq<Row>, size: nat)
    requires size >= 1
  {
    forall i :: 0 <= i < |rows| ==> RowHolds(rows[i], table, i, size)
  }

  lemma {:induction false} PagesLength(table: seq<Row>, size: nat, k: nat)
    requires size >= 1
    ensures |PagesUpTo(table, size, k)| == if k * size <= |table| then k * size else |table|
  {
    if k > 0 {
      PagesLength(table, size, k - 1);
      PageLength(table, size, (k - 1) * size);
      assert k * size == (k - 1) * size + size;
    }
  }

  lemma PageLength(table: seq<Row>, size: nat, from: nat)
    requires size >= 1
    ensures (if from <= |table| then from else |table|) + |Slice(table, from, size)|
            == if from + size <= |table| then from + size else |table|
  {
  }

  lemma RowOfPage(table: seq<Row>, size: nat, k: nat, j: nat)
    requires size >= 1 && j < |TablePage(table, size, k)|
    ensures RowHolds(AsBatch(TablePage(table, size, k))[j], table, k * size + j, size)
  {
    var page := TablePage(table, size, k);
    AsBatchHolds(page);
    FirstOfPageIs(k, j, size);
    FirstOfPageIs(k, 0, size);
    assert page[0] == table[k * size] && page[j] == table[k * size + j];
  }

  lemma {:induction false} RowOfPages(table: seq<Row>, size: nat, k: nat, i: nat)
    requires size >= 1 && i < |PagesUpTo(table, size, k)|
    ensures RowHolds(PagesUpTo(table, size, k)[i], table, i, size)
  {
    var before := PagesUpTo(table, size, k - 1);
    if i < |before| {
      RowOfPages(table, size, k - 1, i);
      assert PagesUpTo(table, size, k)[i] == before[i];
    } else {
      RowOfLastPage(table, size, k - 1, i);
    }
  }

  lemma RowOfLastPage(table: seq<Row>, size: nat, k: nat, i: nat)
    requires size >= 1 && |PagesUpTo(table, size, k)| <= i < |PagesUpTo(table, size, k + 1)|
    ensures RowHolds(PagesUpTo(table, size, k + 1)[i], table, i, size)
  {
    StartsAt(table, size, k, i);
    var j := i - k * size;
    RowOfPage(table, size, k, j);
    assert k * size + j == i;
  }

  /** A page that has a row starts where its number says. */
  lemma StartsAt(table: seq<Row>, size: nat, k: nat, i: nat)
    requires size >= 1 && |PagesUpTo(table, size, k)| <= i < |PagesUpTo(table, size, k + 1)|
    ensures |PagesUpTo(table, size, k)| == k * size && i - k * size < |TablePage(table, size, k)|
    ensures PagesUpTo(table, size, k + 1)[i] == AsBatch(TablePage(table, size, k))[i - k * size]
  {
    PagesLength(table, size, k);
    assert TablePage(table, size, k) != [];
  }

  lemma PagesHoldTable(table: seq<Row>, size: nat, k: nat)
    requires size >= 1
    ensures HoldsTable(PagesUpTo(table, size, k), table, size)
  {
    forall i | 0 <= i < |PagesUpTo(table, size, k)| ensures RowHolds(PagesUpTo(table, size, k)[i], table, i, size) {
      RowOfPages(table, size, k, i);
    }
  }

  /** Every record has the columns of the first one of its page. */
  ghost predicate PagesRectangular(table: seq<Row>, size: nat)
    requires size >= 1
  {
    forall i: nat :: i < |table| ==> table[i].cells.Keys == table[FirstOfPage(i, size)].cells.Keys
  }

  lemma HoldsTableIff(rows: seq<Row>, table: seq<Row>, size: nat)
    requires size >= 1 && |rows| == |table| && HoldsTable(rows, table, size)
    ensures rows == table <==> PagesRectangular(table, size)
  {
    if PagesRectangular(table, size) {
      forall i: nat | i < |rows| ensures rows[i] == table[i] {
        assert rows[i].cells == table[i].cells;
      }
    }
  }

  /** Pages of the table that were all accepted put its records together again. */
  lemma AcceptedPagesAreTheTable(p: Plan, table: seq<Row>, size: int, last: nat)
    requires size >= 1 && last == |table| / size && AcceptsTable(p, table, size, last + 1)
    ensures var rows := AcceptedRows(p, last + 1);
            && |rows| == |table| && HoldsTable(rows, table, size) && (rows == table <==> PagesRectangular(table, size))
  {
    AcceptedTablePages(p, table, size, last + 1);
    PagesHoldTable(table, size, last + 1);
    PagesLength(table, size, last + 1);
    PagesReachTheEnd(|table|, size);
    HoldsTableIff(AcceptedRows(p, last + 1), table, size);
  }

  /**
   With nothing quarantined the accepted rows are the records of the table one by one, each in the columns
   of the first record of its page; they are the table itself exactly when all records have these.
   */
  lemma AcceptedRowsAreTheTable(cfg: Config, table: seq<Row>, last: nat)
    requires ServesTable(cfg, table) && last == |table| / cfg.pagination.size
    requires forall k: nat :: k <= last ==> VerdictAt(PlanOf(cfg, [], last), k) == Accept
    ensures var rows := AcceptedRows(PlanOf(cfg, [], last), last + 1);
            && |rows| == |table| && HoldsTable(rows, table, cfg.pagination.size)
            && (rows == table <==> PagesRectangular(table, cfg.pagination.size))
  {
    PlanAcceptsTable(cfg, table, last);
    AcceptedPagesAreTheTable(PlanOf(cfg, [], last), table, cfg.pagination.size, last);
  }

  /** One file per page with data that was not quarantined, with that page's rows, and no other file. */
  ghost predicate HoldsPages(p: Plan, w: World) {
    && w.sink.Files?
    && (forall k: nat :: k <= p.last ==> Settled(p, w, k))
    && (forall k: nat :: k <= p.last ==>
          (p.unitAt(k) in w.sink.files <==> p.rowsAt(k) != [] && !PageQuarantined(p, w, k)))
    && (forall k: nat :: k <= p.last && p.unitAt(k) in w.sink.files ==> w.sink.files[p.unitAt(k)] == p.rowsAt(k))
    && (forall uid :: uid in w.sink.files ==> IsPageBelow(p, p.last + 1, uid))
  }

  /** After any schedule in which a run returned, every page is done or quarantined and filed once. */
  lemma FinishedHoldsPages(p: Plan, labels: seq<Label>)
    requires ValidPlan(p) && p.sink0 == Files(map[]) && Returns(p, labels)
    ensures HoldsPages(p, Exec(p, Init(p), labels).value)
  {
    var w := Exec(p, Init(p), labels).value;
    SinkIsIdealIff(p, labels);
    ReturnsIffNothingRefused(p);
    IdealFiles(p, p.last + 1);
    forall k: nat | k <= p.last
      ensures Settled(p, w, k)
      ensures Writes(p, k) <==> p.rowsAt(k) != [] && !PageQuarantined(p, w, k)
    {
      assert !Refused(p, k);
    }
  }

  /** Offset and page mode: the files are the pages of the table, 0 to |table| / size. */
  lemma FilesHoldTheTable(cfg: Config, table: seq<Row>, last: nat, labels: seq<Label>)
    requires IsBackend(cfg.backend, cfg.sink0)
    requires ServesTable(cfg, table) && last == |table| / cfg.pagination.size && cfg.sink0 == Files(map[])
    requires Returns(PlanOf(cfg, [], last), labels)
    ensures var p := PlanOf(cfg, [], last);
            && HoldsPages(p, Exec(p, Init(p), labels).value)
            && forall k: nat :: k <= last ==> HoldsRecords(p.rowsAt(k), TablePage(table, cfg.pagination.size, k))
  {
    TablePlanIsServed(cfg, table);
    forall k: nat | k <= last
      ensures HoldsRecords(PlanOf(cfg, [], last).rowsAt(k), TablePage(table, cfg.pagination.size, k))
    {
      PageIsServed(cfg, table, k);
      AsBatchHolds(TablePage(table, cfg.pagination.size, k));
    }
    FinishedHoldsPages(PlanOf(cfg, [], last), labels);
  }

  // ------------------------------------------------------------ Cursor and link mode

  /** A traversal as the program sees it. */
  function Traversal(cfg: Config, chain: seq<Option<string>>): Plan
    requires |chain| > 0
  {
    PlanOf(cfg, chain, EndOf(chain))
  }

  /** The files are the pages of the traversal, as far as the program sees it. */
  lemma FilesHoldTheTraversal(cfg: Config, chain: seq<Option<string>>, labels: seq<Label>)
    requires IsBackend(cfg.backend, cfg.sink0)
    requires Resumes(cfg.pagination.mode) && |chain| > 0 && cfg.sink0 == Files(map[])
    requires forall i, j :: 0 <= i < j <= EndOf(chain) ==> CursorText(chain[i]) != CursorText(chain[j])
    requires Returns(Traversal(cfg, chain), labels)
    ensures var p := Traversal(cfg, chain);
            && HoldsPages(p, Exec(p, Init(p), labels).value)
            && forall k: nat :: k <= EndOf(chain) ==> HoldsRecords(p.rowsAt(k), cfg.server(ByCursor(chain[k])).rows)
  {
    forall k: nat | k <= EndOf(chain)
      ensures HoldsRecords(Traversal(cfg, chain).rowsAt(k), cfg.server(ByCursor(chain[k])).rows)
    {
      AsBatchHolds(cfg.server(ByCursor(chain[k])).rows);
    }
    ChainPlanIsValid(cfg, chain, EndOf(chain));
    FinishedHoldsPages(Traversal(cfg, chain), labels);
  }

  /** The rows of a page of a traversal. */
  function PageRows(cfg: Config, chain: seq<Option<string>>, k: nat): seq<Row> {
    FetchOf(cfg, PayloadAt(cfg, chain, k)).rows
  }

  predicate PageAccepted(cfg: Config, chain: seq<Option<string>>, k: nat) {
    PageRows(cfg, chain, k) == [] || JudgeOf(cfg, PageRows(cfg, chain, k)) == Accept
  }

  /** A gate blocks the page, or the database rejects it. */
  predicate PageRefused(cfg: Config, chain: seq<Option<string>>, k: nat) {
    var rows := PageRows(cfg, chain, k);
    rows != [] && (JudgeOf(cfg, rows) == Block || (JudgeOf(cfg, rows) == Accept && !cfg.backend.takes(rows)))
  }

  /** A schedule of runs that returned after every page of the traversal had been fetched. */
  ghost predicate CollectedBy(cfg: Config, chain: seq<Option<string>>, labels: seq<Label>)
    requires |chain| > 0
  {
    var p := Traversal(cfg, chain);
    Returns(p, labels) && forall k: nat :: k < |chain| ==> k in PagesAt(p, Init(p), labels, Fetches)
  }

  ghost predicate CanBeCollected(cfg: Config, chain: seq<Option<string>>)
    requires |chain| > 0
  {
    exists labels :: CollectedBy(cfg, chain, labels)
  }

  /** The page, if it has one, whose cursor reads as the first page's missing one. */
  ghost predicate HandsOutNone(chain: seq<Option<string>>) {
    exists k :: 0 < k < |chain| && chain[k] == Some("None")
  }

  ghost predicate HandsOutTheSentinel(chain: seq<Option<string>>) {
    exists k :: 0 < k < |chain| && chain[k] == Some(SOURCE_EXHAUSTED)
  }

  lemma EndIsLastIff(chain: seq<Option<string>>)
    requires |chain| > 0
    ensures EndOf(chain) == |chain| - 1 <==> !HandsOutTheSentinel(chain)
  {
    if HandsOutTheSentinel(chain) {
      var k :| 0 < k < |chain| && chain[k] == Some(SOURCE_EXHAUSTED);
    }
  }

  lemma PlanRefuses(cfg: Config, chain: seq<Option<string>>, k: nat)
    requires |chain| > 0 && k <= EndOf(chain)
    ensures Refused(Traversal(cfg, chain), k) <==> PageRefused(cfg, chain, k)
    ensures VerdictAt(Traversal(cfg, chain), k) == Accept <==> PageAccepted(cfg, chain, k)
  {
    var p, rows := Traversal(cfg, chain), PageRows(cfg, chain, k);
    assert p.rowsAt(k) == rows;
    assert p.judge(rows) == JudgeOf(cfg, rows);
  }

  /** The only units that can coincide are that of the first page and that of a cursor "None". */
  lemma SameUnitIff(cfg: Config, chain: seq<Option<string>>, i: nat, j: nat)
    requires Traverses(cfg, chain) && i < j < |chain|
    ensures UnitFor(cfg, PayloadAt(cfg, chain, i)) == UnitFor(cfg, PayloadAt(cfg, chain, j)) <==>
            i == 0 && chain[j] == Some("None")
  {
    CursorsDiffer(cfg, chain, i, j);
    assert PayloadAt(cfg, chain, i) == ByCursor(chain[i]) && PayloadAt(cfg, chain, j) == ByCursor(chain[j]);
  }

  lemma EclipsedAt(cfg: Config, chain: seq<Option<string>>, i: nat, j: nat)
    requires Traverses(cfg, chain) && EndOf(chain) == |chain| - 1 && i < j < |chain|
    ensures Eclipsed(Traversal(cfg, chain), i, j) <==>
            i == 0 && PageAccepted(cfg, chain, 0) && chain[j] == Some("None")
  {
    SameUnitIff(cfg, chain, i, j);
    PlanRefuses(cfg, chain, i);
  }

  lemma EclipsedIff(cfg: Config, chain: seq<Option<string>>)
    requires Traverses(cfg, chain) && EndOf(chain) == |chain| - 1
    ensures NoneEclipsed(Traversal(cfg, chain)) <==> !(PageAccepted(cfg, chain, 0) && HandsOutNone(chain))
  {
    var p := Traversal(cfg, chain);
    if PageAccepted(cfg, chain, 0) && HandsOutNone(chain) {
      var j: nat :| 0 < j < |chain| && chain[j] == Some("None");
      EclipsedAt(cfg, chain, 0, j);
    } else {
      forall i: nat, j: nat ensures !Eclipsed(p, i, j) {
        if i < j < |chain| {
          EclipsedAt(cfg, chain, i, j);
        }
      }
    }
  }

  /**
   A finite traversal can be collected whole exactly when no page is refused, no cursor is the
   reserved end-of-traversal text, and no cursor is the text "None", which is what the missing cursor
   of the first page reads as; the last only matters when the first page is accepted.
   */
  lemma CollectedIff(cfg: Config, chain: seq<Option<string>>)
    requires IsBackend(cfg.backend, cfg.sink0)
    requires Traverses(cfg, chain)
    ensures CanBeCollected(cfg, chain) <==>
            && (forall k: nat :: k < |chain| ==> !PageRefused(cfg, chain, k))
            && !HandsOutTheSentinel(chain)
            && !(PageAccepted(cfg, chain, 0) && HandsOutNone(chain))
  {
    var p := Traversal(cfg, chain);
    EndIsLastIff(chain);
    ReturnsIffKeysDiffer(p);
    forall k: nat | k <= EndOf(chain) ensures Refused(p, k) <==> PageRefused(cfg, chain, k) {
      PlanRefuses(cfg, chain, k);
    }
    if HandsOutTheSentinel(chain) {
      forall labels ensures !CollectedBy(cfg, chain, labels) {
        if CollectedBy(cfg, chain, labels) {
          PagesInRange(p, Init(p), labels, Fetches, |chain| - 1);
        }
      }
    } else {
      EclipsedIff(cfg, chain);
      if CanReturn(p) {
        var labels :| Returns(p, labels) && FetchesAll(p, labels);
        assert CollectedBy(cfg, chain, labels);
      }
    }
  }

  /** No run works on a page past the end of the traversal it sees. */
  lemma {:induction false} PagesInRange(p: Plan, w: World, labels: seq<Label>, kind: Kind, k: nat)
    requires p.resumes && (Alive(w.proc) ==> w.proc.page <= p.last) && k in PagesAt(p, w, labels, kind)
    ensures k <= p.last
    decreases |labels|
  {
    var w' := Next(p, w, labels[0]).value;
    if k in PagesAt(p, w', labels[1..], kind) {
      PagesInRange(p, w', labels[1..], kind, k);
    }
  }

  /** A server that hands out the cursor "None" after an accepted first page is never collected. */
  lemma CursorNamedNoneIsNeverCollected(cfg: Config, chain: seq<Option<string>>)
    requires IsBackend(cfg.backend, cfg.sink0)
    requires Traverses(cfg, chain) && PageAccepted(cfg, chain, 0) && HandsOutNone(chain)
    ensures !CanBeCollected(cfg, chain)
    ensures !HandsOutTheSentinel(chain) ==> !CanReturn(Traversal(cfg, chain))
  {
    CollectedIff(cfg, chain);
    EndIsLastIff(chain);
    if !HandsOutTheSentinel(chain) {
      EclipsedIff(cfg, chain);
      ReturnsIffKeysDiffer(Traversal(cfg, chain));
    }
  }

  /** The reserved text as a cursor: runs return, but no schedule fetches the page it stands for. */
  lemma ReservedCursorCutsShort(cfg: Config, chain: seq<Option<string>>, labels: seq<Label>)
    requires IsBackend(cfg.backend, cfg.sink0)
    requires Traverses(cfg, chain) && EndOf(chain) + 1 < |chain|
    ensures EndOf(chain) + 1 !in PagesAt(Traversal(cfg, chain), Init(Traversal(cfg, chain)), labels, Fetches)
    ensures chain[EndOf(chain) + 1] == Some(SOURCE_EXHAUSTED) && !CanBeCollected(cfg, chain)
  {
    var p := Traversal(cfg, chain);
    if EndOf(chain) + 1 in PagesAt(p, Init(p), labels, Fetches) {
      PagesInRange(p, Init(p), labels, Fetches, EndOf(chain) + 1);
    }
    CollectedIff(cfg, chain);
  }

  // ------------------------------------------------------------ Keyed tables

  /** No accepted row has a NULL merge key. */
  ghost predicate KeysGiven(p: Plan)
    requires !p.sink0.Files?
  {
    forall k: nat :: Writes(p, k) ==> NonNullKeys(p.rowsAt(k), p.sink0.keys)
  }

  /** Once a run returned, a DuckDB table is the accepted rows upserted once, in page order. */
  lemma FinishedDuck(p: Plan, labels: seq<Label>)
    requires ValidPlan(p) && p.sink0.Duck? && KeysGiven(p) && Returns(p, labels)
    ensures var sink, keys := Exec(p, Init(p), labels).value.sink, p.sink0.keys;
            && SameShape(sink, p.sink0)
            && Index(sink.rows, keys) == Index(p.sink0.rows, keys) + Index(AcceptedRows(p, p.last + 1), keys)
            && (KeyUnique(p.sink0.rows, keys) ==> KeyUnique(sink.rows, keys))
  {
    CrashScheduleEquivalence(p, labels, labels);
    ReturnsIffNothingRefused(p);
    forall k: nat | k < p.last + 1 && Writes(p, k) ensures !Refused(p, k) {
    }
    IdealDuck(p, p.last + 1);
  }

  /** So is a Postgres table, with pages of exactly its columns. */
  lemma FinishedPostgres(p: Plan, labels: seq<Label>)
    requires ValidPlan(p) && p.sink0.Postgres? && Returns(p, labels)
    requires forall k: nat :: Writes(p, k) ==> ColumnsOf(p.rowsAt(k)) == p.sink0.columns
    requires WellKeyed(p.sink0)
    ensures var sink := Exec(p, Init(p), labels).value.sink;
            && SameShape(sink, p.sink0)
            && sink.table == p.sink0.table + Index(AcceptedRows(p, p.last + 1), p.sink0.keys)
  {
    CrashScheduleEquivalence(p, labels, labels);
    ReturnsIffNothingRefused(p);
    forall k: nat | k < p.last + 1 && Writes(p, k) ensures !Refused(p, k) {
    }
    IdealPostgres(p, p.last + 1);
  }

  /**
   Offset and page mode over a table without NULL keys, nothing quarantined: a keyed sink with the
   same columns is the whole table upserted once, whatever happened on the way.
   */
  lemma TableSinkHoldsTheTable(cfg: Config, table: seq<Row>, last: nat, labels: seq<Label>)
    requires IsBackend(cfg.backend, cfg.sink0)
    requires ServesTable(cfg, table) && last == |table| / cfg.pagination.size && !cfg.sink0.Files?
    requires NonNullKeys(table, cfg.sink0.keys)
    requires forall i :: 0 <= i < |table| ==> HasColumns(table[i], cfg.sink0.columns)
    requires WellKeyed(cfg.sink0)
    requires Returns(PlanOf(cfg, [], last), labels)
    requires var p := PlanOf(cfg, [], last);
             forall k: nat :: k <= last ==> !PageQuarantined(p, Exec(p, Init(p), labels).value, k)
    ensures var p := PlanOf(cfg, [], last);
            var sink := Exec(p, Init(p), labels).value.sink;
            SameShape(sink, cfg.sink0) && TableOf(sink) == TableOf(cfg.sink0) + Index(table, cfg.sink0.keys)
  {
    var p := PlanOf(cfg, [], last);
    TablePlanIsServed(cfg, table);
    SinkIsIdealIff(p, labels);
    ReturnsIffNothingRefused(p);
    forall k: nat | k <= last ensures VerdictAt(p, k) == Accept {
      assert !Refused(p, k);
    }
    AcceptedRowsAreTheTable(cfg, table, last);
    AllRectangular(table, cfg.pagination.size, cfg.sink0.columns);
    forall k: nat | Writes(p, k)
      ensures NonNullKeys(p.rowsAt(k), cfg.sink0.keys) && ColumnsOf(p.rowsAt(k)) == cfg.sink0.columns
    {
      assert k <= last;
      PageIsServed(cfg, table, k);
      PageIsRectangular(table, cfg.pagination.size, k, cfg.sink0.columns);
      PageOfTable(table, cfg.pagination.size, k, cfg.sink0.keys, cfg.sink0.columns);
    }
    if cfg.sink0.Duck? {
      FinishedDuck(p, labels);
    } else {
      FinishedPostgres(p, labels);
    }
  }

  lemma AllRectangular(table: seq<Row>, size: nat, columns: set<string>)
    requires size >= 1 && forall i :: 0 <= i < |table| ==> HasColumns(table[i], columns)
    ensures PagesRectangular(table, size)
  {
  }

  lemma PageIsRectangular(table: seq<Row>, size: int, k: nat, columns: set<string>)
    requires size >= 1 && forall i :: 0 <= i < |table| ==> HasColumns(table[i], columns)
    ensures AsBatch(TablePage(table, size, k)) == TablePage(table, size, k)
  {
    var page := TablePage(table, size, k);
    forall i | 0 <= i < |page| ensures page[i].cells.Keys == columns {
      assert page[i] == table[k * size + i];
    }
    AsBatchIsRecordsIff(page);
  }

  lemma PageOfTable(table: seq<Row>, size: int, k: nat, keys: seq<string>, columns: set<string>)
    requires size >= 1 && NonNullKeys(table, keys)
    requires forall i :: 0 <= i < |table| ==> HasColumns(table[i], columns)
    ensures var page := TablePage(table, size, k); page != [] ==> NonNullKeys(page, keys) && ColumnsOf(page) == columns
  {
    if TablePage(table, size, k) != [] {
      SliceOfTable(table, k * size, size, keys, columns);
    }
  }

  lemma SliceOfTable(table: seq<Row>, from: nat, size: nat, keys: seq<string>, columns: set<string>)
    requires NonNullKeys(table, keys) && (forall i :: 0 <= i < |table| ==> HasColumns(table[i], columns))
    requires Slice(table, from, size) != []
    ensures NonNullKeys(Slice(table, from, size), keys) && ColumnsOf(Slice(table, from, size)) == columns
  {
    var rows := Slice(table, from, size);
    forall i | 0 <= i < |rows| ensures !HasNull(KeyOf(rows[i], keys)) {
      assert rows[i] == table[from + i];
    }
    assert rows[0] == table[from + 0] && HasColumns(table[from], columns);
  }

  // ------------------------------------------------------------ Requeued pages

  /** Landing any number of times overrides the table by the batch once. */
  lemma {:induction false} LandOverrides(b: Backend, sink: Sink, uid: UnitId, batch: seq<Row>, times: nat)
    requires IsBackend(b, sink) && !sink.Files? && Takes(sink, batch) && NonNullKeys(batch, sink.keys)
    requires Rectangular(batch) && ColumnsOf(batch) == sink.columns && WellKeyed(sink)
    ensures var after := Land(b, sink, uid, batch, times);
            && SameShape(after, sink) && WellKeyed(after)
            && TableOf(after) == if times == 0 then TableOf(sink) else TableOf(sink) + Index(batch, sink.keys)
  {
    if times > 0 {
      LandOverrides(b, sink, uid, batch, times - 1);
      var before := Land(b, sink, uid, batch, times - 1);
      assert Put(before, uid, batch) == b.put(before, uid, batch);
      PutOverrides(before, uid, batch);
      OverrideTwice(TableOf(sink), Index(batch, sink.keys));
    }
  }

  lemma PutOverrides(sink: Sink, uid: UnitId, batch: seq<Row>)
    requires !sink.Files? && Takes(sink, batch) && NonNullKeys(batch, sink.keys)
    requires Rectangular(batch) && ColumnsOf(batch) == sink.columns && WellKeyed(sink)
    ensures var after := Put(sink, uid, batch);
            && SameShape(after, sink) && WellKeyed(after)
            && TableOf(after) == TableOf(sink) + Index(batch, sink.keys)
  {
    if sink.Duck? {
      DuckPutOverrides(sink, uid, batch);
    } else {
      PostgresPutOverrides(sink, uid, batch);
    }
  }

  /** Overriding `a + b` by entries that `b` has a value for changes nothing when these are its values. */
  lemma OverriddenIff<K, V>(a: map<K, V>, b: map<K, V>, c: map<K, V>)
    requires c.Keys <= b.Keys
    ensures (a + b) + c == a + b <==> forall k :: k in c ==> b[k] == c[k]
  {
    if (a + b) + c == a + b {
      forall k | k in c ensures b[k] == c[k] {
        assert ((a + b) + c)[k] == c[k] && (a + b)[k] == b[k];
      }
    }
  }

  /** Every merge key of an accepted page is one of the accepted rows'. */
  lemma {:induction false} AcceptedHasPage(p: Plan, h: nat, k: nat, keys: seq<string>)
    requires k < h && Writes(p, k)
    ensures Index(p.rowsAt(k), keys).Keys <= Index(AcceptedRows(p, h), keys).Keys
  {
    if Writes(p, h - 1) {
      IndexAppend(AcceptedRows(p, h - 1), p.rowsAt(h - 1), keys);
    } else {
      assert AcceptedRows(p, h) == AcceptedRows(p, h - 1);
    }
    if k < h - 1 {
      AcceptedHasPage(p, h - 1, k, keys);
    }
  }

  /**
   Offset and page mode, keyed sink: collecting a requeued page again leaves the table as it was
   exactly when, for each of its keys, the last accepted row in page order is the one it has itself.
   */
  lemma RequeueKeepsTableIff(p: Plan, labels: seq<Label>, k: nat, run: seq<Label>)
    requires ValidPlan(p) && !p.resumes && Returns(p, labels) && Writes(p, k)
    requires !p.sink0.Files? && KeysGiven(p)
    requires forall j: nat :: Writes(p, j) ==> ColumnsOf(p.rowsAt(j)) == p.sink0.columns
    requires WellKeyed(p.sink0)
    requires RunsToEnd(p, Requeued(p, Exec(p, Init(p), labels).value, k), run)
    ensures var before := Exec(p, Init(p), labels).value.sink;
            var after := Exec(p, Requeued(p, Exec(p, Init(p), labels).value, k), run).value.sink;
            var page, last := Index(p.rowsAt(k), p.sink0.keys), Index(AcceptedRows(p, p.last + 1), p.sink0.keys);
            && SameShape(before, p.sink0) && SameShape(after, p.sink0)
            && TableOf(after) == TableOf(before) + page && page.Keys <= last.Keys
            && (TableOf(after) == TableOf(before) <==> forall key :: key in page ==> last[key] == page[key])
  {
    var times := RequeueWritesAgain(p, labels, k, run);
    SinkIsIdealIff(p, labels);
    ReturnsIffNothingRefused(p);
    assert k <= p.last && !Refused(p, k);
    FinishedKeyed(p, labels);
    LandedAgain(p, Exec(p, Init(p), labels).value.sink, k, times);
  }

  /** A page written again over the table that all accepted pages left. */
  lemma LandedAgain(p: Plan, before: Sink, k: nat, times: nat)
    requires ValidPages(p) && k <= p.last && Writes(p, k) && !Refused(p, k) && times >= 1
    requires !p.sink0.Files? && NonNullKeys(p.rowsAt(k), p.sink0.keys) && ColumnsOf(p.rowsAt(k)) == p.sink0.columns
    requires SameShape(before, p.sink0) && WellKeyed(before)
    requires TableOf(before) == TableOf(p.sink0) + Index(AcceptedRows(p, p.last + 1), p.sink0.keys)
    ensures var after := Land(p.backend, before, p.unitAt(k), p.rowsAt(k), times);
            var page, last := Index(p.rowsAt(k), p.sink0.keys), Index(AcceptedRows(p, p.last + 1), p.sink0.keys);
            && SameShape(after, p.sink0) && TableOf(after) == TableOf(before) + page && page.Keys <= last.Keys
            && (TableOf(after) == TableOf(before) <==> forall key :: key in page ==> last[key] == page[key])
  {
    var keys := p.sink0.keys;
    TakesPage(p, before, k);
    BackendOfShape(p, before);
    LandOverrides(p.backend, before, p.unitAt(k), p.rowsAt(k), times);
    AcceptedHasPage(p, p.last + 1, k, keys);
    OverriddenIff(TableOf(p.sink0), Index(AcceptedRows(p, p.last + 1), keys), Index(p.rowsAt(k), keys));
  }

  lemma BackendOfShape(p: Plan, sink: Sink)
    requires IsBackend(p.backend, p.sink0) && SameShape(sink, p.sink0)
    ensures IsBackend(p.backend, sink)
  {
    forall batch ensures p.backend.takes(batch) == Takes(sink, batch) {
      SameShapeTakes(sink, p.sink0, batch);
      assert Takes(p.sink0, batch) == p.backend.takes(batch);
    }
  }

  lemma FinishedKeyed(p: Plan, labels: seq<Label>)
    requires ValidPlan(p) && !p.sink0.Files? && KeysGiven(p) && Returns(p, labels)
    requires forall k: nat :: Writes(p, k) ==> ColumnsOf(p.rowsAt(k)) == p.sink0.columns
    requires WellKeyed(p.sink0)
    ensures var sink := Exec(p, Init(p), labels).value.sink;
            && SameShape(sink, p.sink0) && WellKeyed(sink)
            && TableOf(sink) == TableOf(p.sink0) + Index(AcceptedRows(p, p.last + 1), p.sink0.keys)
  {
    if p.sink0.Duck? {
      FinishedDuck(p, labels);
    } else {
      CrashScheduleEquivalence(p, labels, labels);
      ReturnsIffNothingRefused(p);
      forall k: nat | k < p.last + 1 && Writes(p, k) ensures !Refused(p, k) {
      }
      IdealPostgres(p, p.last + 1);
    }
  }

  /** With one file per unit a requeue never changes the sink. */
  lemma RequeueKeepsFiles(p: Plan, labels: seq<Label>, k: nat, run: seq<Label>)
    requires ValidPlan(p) && !p.resumes && Returns(p, labels) && Writes(p, k)
    requires p.sink0 == Files(map[])
    requires RunsToEnd(p, Requeued(p, Exec(p, Init(p), labels).value, k), run)
    ensures Exec(p, Requeued(p, Exec(p, Init(p), labels).value, k), run).value.sink
            == Exec(p, Init(p), labels).value.sink
  {
    var times := RequeueWritesAgain(p, labels, k, run);
    var w := Exec(p, Init(p), labels).value;
    FinishedHoldsPages(p, labels);
    SinkIsIdealIff(p, labels);
    assert k <= p.last && PageDone(p, w, k) && !PageQuarantined(p, w, k);
    BackendOfShape(p, w.sink);
    LandSameFile(p.backend, w.sink, p.unitAt(k), p.rowsAt(k), times);
  }

  lemma {:induction false} LandSameFile(b: Backend, sink: Sink, uid: UnitId, batch: seq<Row>, times: nat)
    requires sink.Files? && IsBackend(b, sink) && uid in sink.files && sink.files[uid] == batch
    ensures Land(b, sink, uid, batch, times) == sink
  {
    if times > 0 {
      LandSameFile(b, sink, uid, batch, times - 1);
      assert Put(sink, uid, batch) == b.put(sink, uid, batch);
      assert sink.files[uid := batch] == sink.files;
    }
  }
}
