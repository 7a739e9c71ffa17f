/** The paginated REST source: unit generators, fetch, and the plans its four modes give rise to. */
module RestSource {
  import opened Rows
  import opened StateStore
  import opened Sinks
  import opened Protocol

  datatype Mode = Offset | Page | Cursor | Link

  datatype Pagination = Pagination(mode: Mode, size: int, startPage: int)

  /** What a request carries, and what the unit's payload stores to rebuild it. */
  datatype Payload =
    | ByOffset(offset: int, limit: int)
    | ByPage(page: int, perPage: int)
    | ByCursor(cursor: Option<string>)

  /** A response: its records and the next cursor as found in the body or the Link header. */
  datatype Response = Response(rows: seq<Row>, next: Option<string>)

  datatype UnitSpec = UnitSpec(uid: UnitId, payload: Payload)

  /** An empty `rows` stands for batch=None. */
  datatype FetchResult = FetchResult(rows: seq<Row>, exhausted: bool, nextCursor: Option<string>)

  /**
   One configured pipeline over a fixed server. The gates are predicates of a page's rows, and so is the
   schema a record batch gets; `blocksDrift` is the policy "block" for a schema that has changed.
   */
  datatype Config = Config(
    pipeline: string,
    url: string,
    pagination: Pagination,
    server: Payload -> Response,
    schemaOf: seq<Row> -> Schema,
    blocksDrift: bool,
    contract: seq<Row> -> Verdict,
    validation: seq<Row> -> Verdict,
    backend: Backend,
    sink0: Sink)

  predicate Resumes(mode: Mode) {
    mode.Cursor? || mode.Link?
  }

  /** The text a cursor has inside its unit key: the first page, without one, reads "None". */
  function CursorText(cursor: Option<string>): string {
    match cursor
    case None => "None"
    case Some(c) => c
  }

  function UnitFor(cfg: Config, payload: Payload): UnitId {
    UnitId(cfg.pipeline, cfg.url,
           match payload
           case ByOffset(offset, limit) => OffsetKey(offset, limit)
           case ByPage(page, perPage) => PageKey(page, perPage)
           case ByCursor(cursor) => CursorKey(CursorText(cursor)))
  }

  /** In cursor mode an empty string means the same as no cursor at all. */
  function NextCursor(mode: Mode, found: Option<string>): Option<string> {
    if mode.Cursor? && found == Some("") then None else found
  }

  /** Records as a record batch: the columns of the first record, NULL where a record lacks one. */
  function AsBatch(records: seq<Row>): (batch: seq<Row>)
    ensures |batch| == |records| && Rectangular(batch)
  {
    seq(|records|, i requires 0 <= i < |records| =>
          Row(map c | c in records[0].cells.Keys :: Cell(records[i], c)))
  }

  /** The row holds what the record has in the columns of another one, NULL where it lacks one. */
  ghost predicate HoldsRecord(row: Row, record: Row, other: Row) {
    && row.cells.Keys == other.cells.Keys
    && forall c :: c in row.cells ==> row.cells[c] == if c in record.cells then record.cells[c] else Null
  }

  /** Row i holds record i, in the columns of the first record. */
  ghost predicate HoldsRecords(batch: seq<Row>, records: seq<Row>) {
    |batch| == |records| && forall i :: 0 <= i < |batch| ==> HoldsRecord(batch[i], records[i], records[0])
  }

  lemma AsBatchHolds(records: seq<Row>)
    ensures HoldsRecords(AsBatch(records), records)
  {
  }

  /** Only one batch does, and it is the records themselves exactly when all have the columns of the first. */
  lemma AsBatchIsRecordsIff(records: seq<Row>)
    ensures AsBatch(records) == records <==> Rectangular(records)
  {
    AsBatchHolds(records);
    if Rectangular(records) {
      forall i | 0 <= i < |records| ensures AsBatch(records)[i] == records[i] {
        assert AsBatch(records)[i].cells == records[i].cells;
      }
    }
  }

  function FetchOf(cfg: Config, payload: Payload): FetchResult {
    var response := cfg.server(payload);
    var batch := AsBatch(response.rows);
    if Resumes(cfg.pagination.mode) then
      var next := NextCursor(cfg.pagination.mode, response.next);
      FetchResult(batch, next.None?, next)
    else
      FetchResult(batch, |response.rows| < cfg.pagination.size, None)
  }

  /** The gates in order: the contract, then validation. */
  function JudgeOf(cfg: Config, rows: seq<Row>): Verdict {
    if cfg.contract(rows) != Accept then cfg.contract(rows)
    else cfg.validation(rows)
  }

  /** The response to a request hands out this next cursor; in cursor mode an empty text is none. */
  ghost predicate Continues(cfg: Config, payload: Payload, next: Option<string>) {
    var found := cfg.server(payload).next;
    match next
    case Some(c) => found == Some(c) && (cfg.pagination.mode.Cursor? ==> c != "")
    case None => found.None? || (cfg.pagination.mode.Cursor? && found == Some(""))
  }

  lemma FetchContinues(cfg: Config, payload: Payload, next: Option<string>)
    requires Resumes(cfg.pagination.mode)
    ensures FetchOf(cfg, payload).nextCursor == next <==> Continues(cfg, payload, next)
  {
  }

  /**
   The unit of a request is that of another one only if pipeline, source and request are the same, or if
   they ask for the first page and for the cursor named None.
   */
  lemma SameUnitForIff(a: Config, x: Payload, b: Config, y: Payload)
    ensures UnitFor(a, x) == UnitFor(b, y) <==>
            && a.pipeline == b.pipeline && a.url == b.url
            && (x == y || (x.ByCursor? && y.ByCursor? && {x.cursor, y.cursor} == {None, Some("None")}))
  {
    if x.ByCursor? && y.ByCursor? {
      assert {x.cursor, y.cursor} == {None, Some("None")} ==>
          (x.cursor == None && y.cursor == Some("None")) || (x.cursor == Some("None") && y.cursor == None) by {
        assert x.cursor in {x.cursor, y.cursor} && y.cursor in {x.cursor, y.cursor};
        assert None in {None, Some("None")} && Some("None") in {None, Some("None")};
      }
    }
  }

  class Source {
    const cfg: Config
    var pendingCursor: Option<string>
    var cursorExhausted: bool
    var counter: int      // what itertools.count yields next
    var suspended: bool   // the generator has yielded and waits to be resumed

    constructor (cfg: Config, initialCursor: Option<string>)
      ensures this.cfg == cfg && pendingCursor == initialCursor && !cursorExhausted && !suspended
      ensures counter == if cfg.pagination.mode.Page? then cfg.pagination.startPage else 0
    {
      this.cfg := cfg;
      pendingCursor, cursorExhausted, suspended := initialCursor, false, false;
      counter := if cfg.pagination.mode.Page? then cfg.pagination.startPage else 0;
    }

    /** The payload the generator yields when it is resumed now; None when it ends. */
    function Upcoming(): Option<Payload>
      reads this
    {
      match cfg.pagination.mode
      case Offset => Some(ByOffset(counter, cfg.pagination.size))
      case Page => Some(ByPage(counter, cfg.pagination.size))
      case _ =>
        if suspended && cursorExhausted then None
        else if pendingCursor == Some(SOURCE_EXHAUSTED) then None
        else Some(ByCursor(pendingCursor))
    }

    method NextUnit() returns (unit: Option<UnitSpec>)
      modifies this`counter, this`suspended
      ensures unit == match old(Upcoming())
                      case None => None
                      case Some(payload) => Some(UnitSpec(UnitFor(cfg, payload), payload))
      ensures unit.Some? ==> suspended
      ensures counter == old(counter) + (if cfg.pagination.mode.Offset? then cfg.pagination.size else 1)
              || Resumes(cfg.pagination.mode)
    {
      var payload: Payload;
      match cfg.pagination.mode {
        case Offset =>
          payload := ByOffset(counter, cfg.pagination.size);
          counter := counter + cfg.pagination.size;
        case Page =>
          payload := ByPage(counter, cfg.pagination.size);
          counter := counter + 1;
        case _ =>
          if suspended && cursorExhausted {
            return None;
          }
          if pendingCursor == Some(SOURCE_EXHAUSTED) {
            return None;
          }
          payload := ByCursor(pendingCursor);
      }
      suspended := true;
      unit := Some(UnitSpec(UnitFor(cfg, payload), payload));
    }

    /** A fetch that succeeded. Only cursor and link mode keep anything from the response. */
    method Fetch(unit: UnitSpec) returns (result: FetchResult)
      modifies this`pendingCursor, this`cursorExhausted
      ensures result == FetchOf(cfg, unit.payload)
      ensures HoldsRecords(result.rows, cfg.server(unit.payload).rows)
      ensures if Resumes(cfg.pagination.mode)
              then Continues(cfg, unit.payload, result.nextCursor) && (result.exhausted <==> result.nextCursor.None?)
              else result.nextCursor.None?
                   && (result.exhausted <==> |cfg.server(unit.payload).rows| < cfg.pagination.size)
      ensures if Resumes(cfg.pagination.mode)
              then pendingCursor == result.nextCursor && cursorExhausted == result.nextCursor.None?
              else pendingCursor == old(pendingCursor) && cursorExhausted == old(cursorExhausted)
    {
      var response := cfg.server(unit.payload);
      var batch := AsBatch(response.rows);
      AsBatchHolds(response.rows);
      if Resumes(cfg.pagination.mode) {
        var next := NextCursor(cfg.pagination.mode, response.next);
        pendingCursor := next;
        cursorExhausted := next.None?;
        return FetchResult(batch, next.None?, next);
      }
      result := FetchResult(batch, |response.rows| < cfg.pagination.size, None);
    }
  }

  // ------------------------------------------------------------------ Plans

  /** What itertools.count(0, size) yields at a position. */
  function OffsetAt(k: nat, size: int): int {
    if k == 0 then 0 else OffsetAt(k - 1, size) + size
  }

  lemma {:induction false} OffsetsGrow(i: nat, j: nat, size: int)
    requires size >= 1 && i < j
    ensures OffsetAt(i, size) < OffsetAt(j, size)
  {
    if i < j - 1 {
      OffsetsGrow(i, j - 1, size);
    }
  }

  /** The payload of the page at a position; `chain` lists the cursors of a traversal in order. */
  function PayloadAt(cfg: Config, chain: seq<Option<string>>, k: nat): Payload {
    match cfg.pagination.mode
    case Offset => ByOffset(OffsetAt(k, cfg.pagination.size), cfg.pagination.size)
    case Page => ByPage(cfg.pagination.startPage + k, cfg.pagination.size)
    case _ => ByCursor(if k < |chain| then chain[k] else None)
  }

  /** The plan of a configuration whose exhausted page is number `last`. */
  function PlanOf(cfg: Config, chain: seq<Option<string>>, last: nat): Plan {
    Plan(
      Resumes(cfg.pagination.mode),
      last,
      (k: nat) => UnitFor(cfg, PayloadAt(cfg, chain, k)),
      (k: nat) => if k > last then [] else FetchOf(cfg, PayloadAt(cfg, chain, k)).rows,
      (rows: seq<Row>) => JudgeOf(cfg, rows),
      cfg.schemaOf,
      cfg.blocksDrift,
      cfg.backend,
      cfg.sink0)
  }

  /**
   The server behaves as the plan says: contents past the end, exhaustion, and next cursors. In
   cursor and link mode the traversal ends at a page without a next cursor, or at one whose next
   cursor is the reserved text, which the generator takes for the end.
   */
  ghost predicate Served(cfg: Config, chain: seq<Option<string>>, last: nat) {
    && (Resumes(cfg.pagination.mode) ==>
          && |chain| > last && chain[0] == None
          && (forall k: nat :: k <= last ==> FetchOf(cfg, PayloadAt(cfg, chain, k)).nextCursor == Following(chain, k))
          && (forall k: nat :: 0 < k <= last ==> chain[k].Some? && chain[k] != Some(SOURCE_EXHAUSTED))
          && (|chain| > last + 1 ==> chain[last + 1] == Some(SOURCE_EXHAUSTED)))
    && (!Resumes(cfg.pagination.mode) ==>
          && (forall k: nat :: k > last ==> FetchOf(cfg, PayloadAt(cfg, chain, k)).rows == [])
          && (forall k: nat :: FetchOf(cfg, PayloadAt(cfg, chain, k)).exhausted <==> k >= last))
  }

  function Following(chain: seq<Option<string>>, k: nat): Option<string> {
    if k + 1 < |chain| then chain[k + 1] else None
  }

  /** A finite traversal: the cursors a server hands out one after the other, until it hands out none. */
  ghost predicate Traverses(cfg: Config, chain: seq<Option<string>>) {
    && Resumes(cfg.pagination.mode) && |chain| > 0 && chain[0] == None
    && (forall k: nat :: 0 < k < |chain| ==> chain[k].Some?)
    && forall k: nat :: k < |chain| ==>
         Continues(cfg, ByCursor(chain[k]), if k + 1 < |chain| then chain[k + 1] else None)
  }

  lemma TraversalContinues(cfg: Config, chain: seq<Option<string>>, k: nat)
    requires Traverses(cfg, chain) && k < |chain|
    ensures FetchOf(cfg, PayloadAt(cfg, chain, k)).nextCursor == Following(chain, k)
  {
    var next := Following(chain, k);
    assert Continues(cfg, ByCursor(chain[k]), next);
    FetchContinues(cfg, ByCursor(chain[k]), next);
  }

  /** The last page of a traversal the program gets to: the reserved text as a cursor ends it early. */
  function EndOf(chain: seq<Option<string>>): (end: nat)
    requires |chain| > 0
    ensures end < |chain| && (end + 1 < |chain| ==> chain[end + 1] == Some(SOURCE_EXHAUSTED))
    ensures forall k :: 0 < k <= end ==> chain[k] != Some(SOURCE_EXHAUSTED)
  {
    if |chain| == 1 || chain[1] == Some(SOURCE_EXHAUSTED) then 0 else 1 + EndOf(chain[1..])
  }

  /** What the program sees of a traversal is served. */
  lemma TraversalIsServed(cfg: Config, chain: seq<Option<string>>)
    requires Traverses(cfg, chain)
    ensures Served(cfg, chain, EndOf(chain))
  {
    forall k: nat | k < |chain| ensures FetchOf(cfg, PayloadAt(cfg, chain, k)).nextCursor == Following(chain, k) {
      TraversalContinues(cfg, chain, k);
    }
  }

  /** A cursor handed out twice would lead round and round, so a finite traversal has each once. */
  lemma {:induction false} CursorsDiffer(cfg: Config, chain: seq<Option<string>>, i: nat, j: nat)
    requires Traverses(cfg, chain) && i < j < |chain|
    ensures chain[i] != chain[j]
    decreases |chain| - j
  {
    if chain[i] == chain[j] {
      TraversalContinues(cfg, chain, i);
      TraversalContinues(cfg, chain, j);
      assert PayloadAt(cfg, chain, i) == PayloadAt(cfg, chain, j);
      assert Following(chain, i) == Following(chain, j);
      if j + 1 < |chain| {
        CursorsDiffer(cfg, chain, i + 1, j + 1);
      }
    }
  }

  /** Cursor and link mode: a traversal whose cursors have different texts is a valid plan. */
  lemma ChainPlanIsValid(cfg: Config, chain: seq<Option<string>>, last: nat)
    requires Resumes(cfg.pagination.mode) && |chain| > last && IsBackend(cfg.backend, cfg.sink0)
    requires forall i, j :: 0 <= i < j <= last ==> CursorText(chain[i]) != CursorText(chain[j])
    ensures ValidPlan(PlanOf(cfg, chain, last))
  {
  }

  /**
   A server over a fixed table: it answers an offset with at most `limit` records from there on, and a page
   number with the records of that page, counted from the start page.
   */
  ghost predicate ServesTable(cfg: Config, table: seq<Row>) {
    var size := cfg.pagination.size;
    && !Resumes(cfg.pagination.mode) && size >= 1
    && (cfg.pagination.mode.Offset? ==>
          forall offset: nat :: cfg.server(ByOffset(offset, size)).rows == Slice(table, offset, size))
    && (cfg.pagination.mode.Page? ==>
          forall page :: page >= cfg.pagination.startPage ==>
            cfg.server(ByPage(page, size)).rows == TablePage(table, size, page - cfg.pagination.startPage))
  }

  lemma {:induction false} OffsetsAre(k: nat, size: nat)
    ensures OffsetAt(k, size) == k * size
  {
    if k > 0 {
      OffsetsAre(k - 1, size);
      assert (k - 1) * size + size == k * size;
    }
  }

  /** Page k is the records from k * size on, as one record batch. */
  lemma PageIsServed(cfg: Config, table: seq<Row>, k: nat)
    requires ServesTable(cfg, table)
    ensures FetchOf(cfg, PayloadAt(cfg, [], k)).rows == AsBatch(TablePage(table, cfg.pagination.size, k))
    ensures FetchOf(cfg, PayloadAt(cfg, [], k)).exhausted <==>
            |TablePage(table, cfg.pagination.size, k)| < cfg.pagination.size
  {
    OffsetsAre(k, cfg.pagination.size);
  }

  /** At most `size` rows from a position on. */
  function Slice(table: seq<Row>, from: nat, size: nat): seq<Row> {
    if from >= |table| then []
    else if from + size <= |table| then table[from..from + size]
    else table[from..]
  }

  function TablePage(table: seq<Row>, size: int, k: nat): seq<Row>
    requires size >= 1
  {
    Slice(table, k * size, size)
  }

  lemma {:induction false} ProductOrder(a: nat, b: nat, c: nat)
    requires c >= 1
    ensures a < b ==> a * c + c <= b * c
    decreases b
  {
    if a < b {
      ProductOrder(a, b - 1, c);
      assert (b - 1) * c + c == b * c;
    }
  }

  lemma QuotientBounds(n: nat, d: nat)
    requires d >= 1
    ensures (n / d) * d <= n < (n / d) * d + d
  {
    assert n == d * (n / d) + n % d;
  }

  lemma PageArithmetic(n: nat, size: nat, k: nat)
    requires size >= 1
    ensures k * size + size > n <==> k >= n / size
    ensures k > n / size ==> k * size > n
  {
    var q := n / size;
    QuotientBounds(n, size);
    if k < q {
      ProductOrder(k, q, size);
    } else if q < k {
      ProductOrder(q, k, size);
    }
  }

  lemma SliceIsShort(table: seq<Row>, from: nat, size: nat)
    requires size >= 1
    ensures |Slice(table, from, size)| < size <==> from + size > |table|
    ensures Slice(table, from, size) == [] <==> from >= |table|
  {
  }

  /** Page k is short, and so reports exhaustion, exactly from page |table| / size on. */
  lemma TablePageShort(table: seq<Row>, size: int, k: nat)
    requires size >= 1
    ensures |TablePage(table, size, k)| < size <==> k >= |table| / size
    ensures k > |table| / size ==> TablePage(table, size, k) == []
  {
    PageArithmetic(|table|, size, k);
    SliceIsShort(table, k * size, size);
  }

  lemma TablePlanIsServed(cfg: Config, table: seq<Row>)
    requires ServesTable(cfg, table)
    ensures Served(cfg, [], |table| / cfg.pagination.size)
    ensures IsBackend(cfg.backend, cfg.sink0) ==> ValidPlan(PlanOf(cfg, [], |table| / cfg.pagination.size))
  {
    var size, last := cfg.pagination.size, |table| / cfg.pagination.size;
    forall k: nat
      ensures FetchOf(cfg, PayloadAt(cfg, [], k)).exhausted <==> k >= last
      ensures k > last ==> FetchOf(cfg, PayloadAt(cfg, [], k)).rows == []
    {
      PageIsServed(cfg, table, k);
      TablePageShort(table, size, k);
    }
    var p := PlanOf(cfg, [], last);
    forall i: nat, j: nat | i != j ensures p.unitAt(i) != p.unitAt(j) {
      OffsetsGrow(if i < j then i else j, if i < j then j else i, size);
    }
  }

  function TablePages(table: seq<Row>, size: int, k: nat): seq<seq<Row>>
    requires size >= 1
  {
    if k == 0 then [] else TablePages(table, size, k - 1) + [TablePage(table, size, k - 1)]
  }

  /** The first k pages of a table put together are its first k * size rows. */
  lemma {:induction false} PagesCoverTable(table: seq<Row>, size: int, k: nat)
    requires size >= 1
    ensures Flatten(TablePages(table, size, k)) == if k * size <= |table| then table[..k * size] else table
  {
    if k > 0 {
      PagesCoverTable(table, size, k - 1);
      FlattenSnoc(TablePages(table, size, k - 1), TablePage(table, size, k - 1));
      assert (k - 1) * size + size == k * size;
    }
  }
}
