# Verified model of the arsenal data tools

This project models the parts of the arsenal monorepo on which its promise rests: interrupted, rerun,
no duplicates, no gaps. `dafny verify dfyconfig.toml` checks all of it.

- **Collection** (`Protocol`, `Runs`, `CrashEquivalence`, `Recovery`, `SchemaDrift`, `SinkContents`,
  `Completeness`, `RestSource`, `Runner`, `StateStore`, `Sinks`, `Upsert`). The pugio runner is a state
  machine over durable state (unit status, cursor, the schema stored last, sink) and volatile state (the
  position of the unit generator, and whether this run has stored a schema).
  Every commit, sink write and fetch is one step; a crash, a failed call, a rerun or an operator's
  requeue may come between any two. A sink is a directory of files, a DuckDB table (a list of rows,
  changed by DELETE and INSERT) or a Postgres table (changed row by row by ON CONFLICT), and a write
  may land several times. The imperative runner in `Runner` is proved to take exactly such steps.
- **Incremental transforms** (`Incremental`, `Reruns`, `Recompute`, `ByUnit`, `MergeQuery`, `ByKey`,
  `ByKeyHistory`). A journal and an output directory, both durable, updated by runs cut off anywhere,
  against recomputation from all files, each of which has columns of its own and is read by name; and
  the by_key merge query with its precedence column.
- **The steps-to-SQL compiler** (`Transform`, `Transpiler`, `Compilation`, `RowLocal`, `RowMeaning`,
  `Acceptance`). A query is a chain of numbered CTEs and a final SELECT; an evaluator over named
  relations that knows only SELECT is compared with folding the map and the steps over a table, with
  what the transform makes of rows one by one, and with the columns its input must have.
- **The workflow scheduler** (`Workflow`, `Planning`, `PlanProofs`, `Execution`).
- **Concurrency and small algorithms** (`ParquetPublish`, `FileLock`, `DirectorySwap`, `Compaction`,
  `TokenBucket`, `Lookahead`, `KeyRanges`, `Quoting`).

`Rows` holds the shared vocabulary: rows, keys, and the key-to-row map of a table.

## What holds only under a condition

For each of these the model keeps what the code does and proves exactly when the promise is met.

- A DuckDB write repeated is the same as a write done once if and only if no row of the batch has a
  NULL in its merge key (`Upsert.DuckWriteIdempotentIff`). So an interrupted collection ends like a
  clean one if and only if no page with such a row landed twice in a DuckDB table
  (`CrashEquivalence.InterruptedEqualsCleanIff`), and for such a page there is a schedule that does land
  it twice: a write reported as failed after it landed is tried again (`CrashEquivalence.AllSchedulesAgreeIff`).
- Postgres rejects a batch with a NULL merge key (`Upsert.PgRejectsNullKeys`), and then no schedule
  ever returns, as with a page a gate blocks (`CrashEquivalence.ReturnsIffNothingRefused`).
- A cursor traversal can be collected whole if and only if no page is refused, no cursor is the text
  reserved for the end of a traversal, and no cursor is the text `None` after an accepted first page,
  whose missing cursor reads as `None` too (`Completeness.CollectedIff`). A traversal that hands out
  the reserved text is taken to have ended there, and the run reports success.
- The rows collected from a table are the table itself if and only if the records of each page have the
  columns of its first one: that record decides the columns of its page, a field it lacks is dropped, and a
  field another record lacks reads NULL (`RestSource.AsBatchIsRecordsIff`, `Completeness.AcceptedRowsAreTheTable`).
- Two requests of one source are the same unit if and only if they are the same request, or one asks for
  the cursor `None` and the other for the first page (`RestSource.SameUnitForIff`).
- A requeued page is collected again if and only if the position is not persisted or the page is at
  or past the stored cursor; behind it a requeue has no effect (`Recovery.RequeuedPageIsFetchedIff`).
- Collecting a requeued page again leaves a keyed table as it was if and only if, for each of its keys,
  the last accepted row in page order is the page's own (`Completeness.RequeueKeepsTableIff`).
- With `schema_drift: block` an interrupted collection can still be completed if and only if the first
  page with data that the next run fetches has the schema stored last (`SchemaDrift.CanStillReturnIff`):
  a clean run compares no other page. No interruption can block a collection if and only if all pages
  that a run may come to first have one schema (`SchemaDrift.NeverBlockedIff`).
- A rerun builds on what is there if and only if the spec is the stored one, the output is there or
  nothing is journaled, and every journaled file is listed with its journaled signature
  (`Incremental.ResetIff`). It then loses nothing, and changes nothing when there is nothing new
  (`Reruns.RerunChangesNothing`); otherwise nothing of what was there matters (`Reruns.DisturbedStartsOver`).
- by_unit agrees with recomputing if and only if the parts that were published but not journaled, less
  what a reset or the same batch made again has taken away, mean no rows
  (`ByUnit.ByUnitEqualsRecomputeIff`). Where recomputing is accepted, a by_unit run is rejected if and
  only if a column the transform needs is in none of the pending files: a file without an optional column
  is rejected on its own and accepted beside one that has it (`Recompute.RejectedOnItsOwn`).
- A by_key output is key-unique if and only if it was merged onto an old part or the batch is
  key-unique: a first batch is stored as it is (`ByKey.OutputIsUniqueIff`).
- Compaction conserves the rows, a missing column reading NULL, if and only if its file name is not
  that of a preserved file with rows (`Compaction.CompactionConservesRowsIff`).
- A lock becomes stale if and only if its owner dies or fails between creating and unlinking the
  file, and is then never acquired again (`FileLock.BecomesStaleIff`, `FileLock.StaleLockIsNeverTaken`).
- Compaction and promotion each keep a backup of their own. A run goes through if and only if no backup
  of its own kind is left over (`DirectorySwap.GoesThroughIff`); a left-over one blocks its own kind until
  it is cleared by hand, and the other kind goes on (`DirectorySwap.StaleBackupBlocks`). A process that
  dies leaves the shared lock file as well, and until that is removed no run of either kind begins
  (`DirectorySwap.DeadRunBlocksAll`).
- Ranges of keys fetch every row of a table exactly once if and only if no row has a NULL key
  (`KeyRanges.RangesFetchEachRowOnceIff`).
- A quoted token reads back if and only if no further quote follows it (`Quoting.QuoteRoundTrip`).

In offset and page mode a rerun after completion fetches one page more than there are, an empty one,
which is then done as well, so the next rerun fetches the page after it (`Recovery.RerunFetchesOnePage`).

## Model

| member | source | states |
|---|---|---|
| CrashEquivalence.CrashScheduleEquivalence | packages/pugio/src/pugio/runner.py:182-331 | files, Postgres, and DuckDB when no accepted row has a NULL merge key: any finite schedule of crashes, failures and reruns that returns leaves the same sink and verdicts as any other one that returns, a crash-free run among them |
| CrashEquivalence.InterruptedEqualsCleanIff | packages/pugio/src/pugio/runner.py:182-331 | for every schedule that returned, whatever the sink: its sink is that of any clean run if and only if no page with a NULL merge key landed in a DuckDB table more than once |
| CrashEquivalence.CleanRunIsIdeal | packages/pugio/src/pugio/runner.py:182-331 | a clean run, NULL merge keys or not, writes every accepted page with data exactly once, in page order |
| CrashEquivalence.AllSchedulesAgreeIff | packages/pugio/src/pugio/runner.py:274-288 | any two schedules that return leave the same sink if and only if no accepted page has a NULL merge key in a DuckDB table: for any such page there is a schedule that keeps its rows twice |
| CrashEquivalence.CompletedIsCollected | packages/pugio/src/pugio/runner.py:182-331 | a run that returned judged every page once: done if and only if accepted, quarantined if and only if judged so, exactly the accepted pages with data written, in page order but for repeats right after one another, and no page was refused by a gate or the database |
| CrashEquivalence.ReturnsIffNothingRefused | packages/pugio/src/pugio/runner.py:204-288 | some schedule returns if and only if no page is blocked by contract or validation and no accepted one is rejected by the database, and then a clean run does; schema drift does not hinder a first run |
| Runs.FaultFreeRunCompletes | packages/pugio/src/pugio/runner.py:182-331 | from every reachable state, requeues included, a run that meets no fault, no refused page and no drift in the one page it compares gets to the end |
| SchemaDrift.CanStillReturnIff | packages/pugio/src/pugio/runner.py:195-208 | after any interruption, whatever was cut off where, some schedule still returns if and only if no page is refused and the first page with data that the next run fetches, if there is one, has the schema stored last or a changed schema is not to block |
| SchemaDrift.BarredForever | packages/pugio/src/pugio/runner.py:195-208 | where that page has another schema no run ever gets past it, whatever follows but a requeue |
| SchemaDrift.NeverBlockedIff | packages/pugio/src/pugio/runner.py:195-208 | no interruption at all can block a collection if and only if all pages that some run may come to as its first one with data share one schema: in cursor and link mode those after an accepted page, in offset and page mode those before which every page is accepted |
| SchemaDrift.RequeueLiftsIff | packages/arsenal-core/src/arsenal_core/state/store.py:230-242 | requeueing an earlier done page with data lifts the block if and only if the position is not persisted and that page has the schema stored last |
| Runs.RankStep | packages/pugio/src/pugio/runner.py:182-331 | every step of a run, failing or not, brings it closer to its end |
| Runs.RunIsBounded | packages/pugio/src/pugio/runner.py:182-331 | every run ends within a number of steps proportional to the pages left, whatever fails |
| Runs.ResumeIsBounded | packages/pugio/src/pugio/sources/rest.py:129-151 | in cursor and link mode that number counts only the pages from the stored cursor on |
| Recovery.CursorFrontier | packages/pugio/src/pugio/runner.py:306-322 | in every reachable state the stored cursor names a page that is not done, all pages before it are done or quarantined, and a finished traversal yields no unit |
| Recovery.ResumeNeverSkips | packages/pugio/src/pugio/runner.py:184-186 | in cursor and link mode the skip branch, which would loop forever, is never taken, not even after a requeue |
| Recovery.StuckForever | packages/arsenal-core/src/arsenal_core/state/store.py:183-194 | had done and cursor been two commits: a done page the cursor has not passed is never passed again, whatever follows |
| Recovery.SplitCommitNeverEnds | packages/arsenal-core/src/arsenal_core/state/store.py:183-194 | had done and cursor been two commits: a crash between them, at any page of any schedule, leaves a state from which no rerun ever returns |
| Recovery.CollisionNeverCompletes | packages/pugio/src/pugio/sources/rest.py:141-149 | when an accepted page shares its unit key with a later page no schedule gets past the later one |
| Recovery.RefusalNeverPassed | packages/pugio/src/pugio/runner.py:204-288 | no schedule gets past a page that a gate blocks or the database rejects |
| Recovery.ReturnsIffKeysDiffer | packages/pugio/src/pugio/sources/rest.py:141-149 | in cursor and link mode some schedule returns, fetching every page, if and only if no page is refused and none has the unit key of an earlier accepted page |
| Runs.RunFetches | packages/pugio/src/pugio/runner.py:182-203 | a run that returns fetches exactly the pages it did not find done up to where it stops, and skips exactly the done ones |
| Runs.FetchedPagesAreWritten | packages/pugio/src/pugio/runner.py:274-288 | it writes exactly the fetched pages that are accepted and not empty |
| Runs.FetchedPagesAreSetAside | packages/pugio/src/pugio/runner.py:216-273 | it quarantines exactly the fetched pages that are judged so |
| Runs.CountsArePages | packages/pugio/src/pugio/runner.py:178-203 | a run takes each counted step at most once per page, so its counters count pages |
| Runs.ReportIsExact | packages/pugio/src/pugio/runner.py:332-332 | the report of a run that returns: fetched, written, skipped and quarantined are the sizes of the sets of pages that were not done, accepted with data, done, and quarantined |
| Runs.AttemptsCountFailures | packages/arsenal-core/src/arsenal_core/state/store.py:145-219 | over any schedule, requeues included, the attempts stored for a unit are the failures recorded for it: running, done, skipping, quarantine and requeue count none |
| Recovery.RequeuedPageIsFetchedIff | packages/arsenal-core/src/arsenal_core/state/store.py:230-242 | a requeued page is fetched by the next run that returns if and only if the position is not persisted or the page is at or past the cursor |
| Recovery.RequeueWritesAgain | packages/arsenal-core/src/arsenal_core/state/store.py:230-242 | offset and page mode: the next run that returns writes a requeued page again, after all others, and nothing else |
| Completeness.RequeueKeepsTableIff | packages/arsenal-core/src/arsenal_core/state/store.py:230-242 | a keyed table is then overridden by that page, and stays as it was if and only if the last accepted row of each of its keys, in page order, is the page's own |
| Completeness.RequeueKeepsFiles | packages/arsenal-core/src/arsenal_core/state/store.py:230-242 | with one file per unit nothing changes |
| Recovery.RerunFetchesOnePage | packages/pugio/src/pugio/sources/rest.py:102-127 | offset and page mode, nothing quarantined: a rerun after completion fetches exactly one page, which is empty, writes none and skips the others |
| SinkContents.IdealFiles | packages/pugio/src/pugio/sinks/parquet.py:56-66 | a file sink written once in page order holds one file per accepted page with data, with that page's rows, and no other |
| SinkContents.IdealDuck | packages/pugio/src/pugio/sinks/duckdb.py:65-75 | a DuckDB table written once in page order, no merge key NULL, holds for every key the last accepted row in traversal order and no key twice |
| SinkContents.IdealPostgres | packages/pugio/src/pugio/sinks/postgres.py:150-172 | so does a Postgres table, the pages having exactly its columns |
| SinkContents.KeysStayUnique | packages/pugio/src/pugio/sinks/duckdb.py:65-75 | in every state of every schedule, crashes and requeues included, a DuckDB table without NULL merge keys has at most one row per key |
| Protocol.InvStep | packages/pugio/src/pugio/runner.py:182-331 | every step, crash and rerun keeps the invariant tying status, cursor, generator position, write history and sink together |
| Protocol.InvExec | packages/pugio/src/pugio/runner.py:182-331 | the invariant holds in every state a schedule without requeues reaches |
| Protocol.LiveStep | packages/arsenal-core/src/arsenal_core/state/store.py:230-242 | no page at or past the frontier is done, kept by every step including a requeue of any unit at any time |
| Protocol.LiveExec | packages/arsenal-core/src/arsenal_core/state/store.py:230-242 | the same over every schedule, requeues included |
| Protocol.VerdictStep | packages/pugio/src/pugio/runner.py:204-331 | a page becomes done only if accepted and quarantined only if judged so |
| Protocol.FrontierStep | packages/pugio/src/pugio/runner.py:306-330 | everything behind the frontier stays done or quarantined and the page just behind it done |
| Protocol.PassedStep | packages/pugio/src/pugio/runner.py:182-186 | the generator never gets past a page that was not dealt with |
| Protocol.ProcStep | packages/pugio/src/pugio/runner.py:6-7 | sink first, then done: a page under way is not done, and only one that is accepted and taken by the database gets past the sink |
| Protocol.LogStep | packages/pugio/src/pugio/runner.py:274-288 | pages are written in page order, with repeats only right after one another; every accepted page behind the frontier was written, and besides these at most the page due next |
| Protocol.ReplayStep | packages/pugio/src/pugio/runner.py:274-288 | in every schedule, requeues included, the sink is what writing the pages of that history one after the other gives |
| Protocol.PendingPageIsAhead | packages/pugio/src/pugio/runner.py:274-322 | a page about to be written or committed lies at or past the frontier, with only quarantined pages between |
| Sinks.PutTwiceIff | packages/pugio/src/pugio/sinks/duckdb.py:65-75 | a sink write repeated at once changes nothing, if and only if it is not a DuckDB write with a NULL merge key |
| Sinks.TakesIff | packages/pugio/src/pugio/sinks/postgres.py:123-172 | a batch is taken by a file sink always; by a DuckDB table if and only if it has the key columns and as many columns as the table; by a Postgres table if and only if it has no column the table lacks and no NULL key |
| Completeness.FinishedHoldsPages | packages/pugio/src/pugio/runner.py:182-331 | after any schedule in which a run returned every page is done or quarantined, and the files are exactly the pages with data that were not quarantined |
| Completeness.FilesHoldTheTable | packages/pugio/src/pugio/sources/rest.py:102-127 | offset and page mode over a table of L rows: the files are pages 0 to floor(L/size), quarantined ones left out, and each row of a page holds, cell by cell, the record of the table at its place |
| Completeness.FilesHoldTheTraversal | packages/pugio/src/pugio/sources/rest.py:129-151 | cursor and link mode: the files are the pages of the traversal as far as the program sees it, quarantined ones left out, each row holding the record that the server answers with for the cursor |
| Completeness.AcceptedRowsAreTheTable | packages/pugio/src/pugio/sources/rest.py:102-127 | with nothing quarantined the accepted rows in page order are as many as the table has, row i holds record i of the table in the columns of the first record of its page, and they are the table if and only if the records of each page have the same columns |
| Completeness.FinishedDuck | packages/pugio/src/pugio/sinks/duckdb.py:65-75 | however often the schedule was interrupted, a DuckDB table holds the accepted rows upserted once in page order, if none of them has a NULL merge key |
| Completeness.FinishedPostgres | packages/pugio/src/pugio/sinks/postgres.py:150-172 | so does a Postgres table, the pages having exactly its columns |
| Completeness.TableSinkHoldsTheTable | packages/pugio/src/pugio/sinks/postgres.py:150-172 | offset and page mode over a table without NULL keys, nothing quarantined: a keyed sink with the same columns is the whole table upserted once |
| Completeness.CollectedIff | packages/pugio/src/pugio/sources/rest.py:129-151 | a finite traversal can be collected whole if and only if no page is refused, no cursor is the reserved end text, and no cursor is the text None after an accepted first page |
| Completeness.ReservedCursorCutsShort | packages/pugio/src/pugio/sources/rest.py:141-142 | where a server hands out the reserved text, no schedule ever fetches the page it stands for |
| Completeness.CursorNamedNoneIsNeverCollected | packages/pugio/src/pugio/sources/rest.py:141-149 | a server that hands out the cursor None after an accepted first page has a traversal that is never collected, and that no run returns from unless the reserved text ends it first |
| RestSource.Source.NextUnit | packages/pugio/src/pugio/sources/rest.py:92-151 | the unit yielded in each mode, advancing the counter, or the end after exhaustion or at the stored sentinel |
| RestSource.Source.Fetch | packages/pugio/src/pugio/sources/rest.py:169-238 | the rows hold the records of the response; in cursor and link mode the cursor is the one in the response, an empty one in cursor mode being none, and exhausted means that there is none; else a page with fewer records than its size is exhausted; only cursor and link mode keep the cursor and the flag |
| RestSource.AsBatchHolds | packages/pugio/src/pugio/sources/rest.py:198-199 | row i of a page has the columns of the first record, and in each the value of record i, NULL where it lacks one |
| RestSource.AsBatchIsRecordsIff | packages/pugio/src/pugio/sources/rest.py:198-199 | a page is the records themselves if and only if they all have the columns of the first |
| RestSource.SameUnitForIff | packages/pugio/src/pugio/sources/rest.py:102-149 | two requests have one unit if and only if pipeline, URL and request are the same, the page size included, but for the cursor None and the first page |
| RestSource.ChainPlanIsValid | packages/pugio/src/pugio/sources/rest.py:129-151 | a finite traversal whose cursors have different texts gives every page its own unit |
| RestSource.CursorsDiffer | packages/pugio/src/pugio/sources/rest.py:225-233 | a finite traversal hands out no cursor twice |
| RestSource.TraversalIsServed | packages/pugio/src/pugio/sources/rest.py:129-151 | up to its end, or the page before the reserved text, a traversal meets what the protocol asks of a plan |
| RestSource.TablePageShort | packages/pugio/src/pugio/sources/rest.py:215-216 | page k of a table of L rows is short, and so reports exhaustion, if and only if k is at least floor(L/size), and is empty beyond |
| RestSource.TablePlanIsServed | packages/pugio/src/pugio/sources/rest.py:102-127 | a server that answers each offset, or each page number, with its slice of a fixed table meets what the protocol asks of a plan |
| RestSource.PageIsServed | packages/pugio/src/pugio/sources/rest.py:169-223 | against a server that answers offset and limit, or page and size, with that slice of a table, fetching request k gives the records k * size to (k + 1) * size, and is exhausted if and only if these are fewer than a page |
| RestSource.PagesCoverTable | packages/pugio/src/pugio/sources/rest.py:102-127 | the first k pages put together are the first k * size rows |
| Runner.RunPipeline | packages/pugio/src/pugio/runner.py:157-339 | one run takes a path of the protocol from the stored state and leaves the stored state at its end; if it returns its report counts that path, and the sink is that of a clean run if and only if no page with a NULL merge key was written twice; without faults, refused pages or drift in the page it compares it returns |
| Runner.FirstRun | packages/pugio/src/pugio/runner.py:157-339 | a first run, on an empty store: if it returns every page is done or quarantined as it was judged, and the sink is that of a clean run when no NULL merge key is at stake; without faults and refused pages it returns |
| Runner.TraversalServing | packages/pugio/src/pugio/sources/rest.py:129-151 | a finite cursor traversal with different cursor texts meets all that the runner is proved under |
| Runner.TableServing | packages/pugio/src/pugio/sources/rest.py:102-127 | so does a fixed table in offset and page mode |
| Runner.RunLoop | packages/pugio/src/pugio/runner.py:181-332 | the loop over the units ends, its counters are those of the path taken, and it leaves only by returning, raising or dying |
| Runner.NextTurn | packages/pugio/src/pugio/runner.py:182-331 | the generator, resumed, yields the page the protocol is at, or has ended exactly when the traversal has |
| Runner.ProcessUnit | packages/pugio/src/pugio/runner.py:183-331 | one turn takes steps of the protocol in order, whatever point it dies or fails at, and leaves generator and store in step |
| Runner.WorkOn | packages/pugio/src/pugio/runner.py:188-331 | a unit that is not done is fetched and settled, abandoned or killed, and a settled one leaves the generator at the page the protocol is at |
| Runner.BeginUnit | packages/pugio/src/pugio/runner.py:183-187 | a unit is skipped only if its page is done, and is otherwise left stored as running |
| Runner.FetchPage | packages/pugio/src/pugio/runner.py:188-208 | a fetch that fails, or whose schema is blocked, leaves its unit failed; unless the process dies first and if the fetch comes through, the page is in memory exactly when its schema has not drifted |
| Runner.TryFetch | packages/pugio/src/pugio/runner.py:188-194 | a failed fetch leaves the unit failed; unless the process dies first, a fetch goes through if and only if the retries with the one refresh succeed |
| Runner.Admit | packages/pugio/src/pugio/runner.py:196-208 | only the first page with data of a run is compared, with the schema stored last; blocked it fails the unit and stores nothing, else its schema is stored |
| Runner.SettlePage | packages/pugio/src/pugio/runner.py:195-331 | a fetched page ends committed, set aside, failed or interrupted, with exhaustion reported at the last page |
| Runner.JudgePage | packages/pugio/src/pugio/runner.py:209-288 | only an accepted page reaches the sink; a blocked one leaves its unit failed and ends the run, and a quarantined one is set aside without a write |
| Runner.TurnAway | packages/pugio/src/pugio/runner.py:209-273 | a page with violations leaves its unit failed or quarantined, as it was judged, and writes nothing |
| Runner.WritePage | packages/pugio/src/pugio/runner.py:274-288 | the page is written before it can be marked done, and a failed write, landed or not, leaves the unit failed |
| Runner.CommitPage | packages/pugio/src/pugio/runner.py:289-328 | done, row count and cursor move together, to the next page or to the exhausted sentinel |
| Runner.SinkStore.WriteWithRetry | packages/pugio/src/pugio/runner.py:279-287 | the batch lands any number of times up to the attempts made, also when the call fails, and at least once when it succeeds; the sink holds exactly these writes, one after the other |
| Runner.RetryBudget | packages/arsenal-core/src/arsenal_core/retry.py:33-46 | at least one and at most max(1, maxAttempts) calls, stopping at the first outcome that is not retryable, giving up only when all are used |
| Runner.WithRetry | packages/arsenal-core/src/arsenal_core/retry.py:33-46 | the retry loop gives the outcome the budget is proved about |
| Runner.FetchWithAuthRefresh | packages/pugio/src/pugio/runner.py:138-154 | the calls go as `Runner.RefreshGoes` says; an expired login is refreshed exactly once, a refresh that raises ends the fetch, and at most twice the budget is spent |
| Runner.RefreshGoes | packages/pugio/src/pugio/runner.py:148-154 | the first round ends at the first call that is not retryable, or with the budget; only if that call finds the login expired and the refresh works, a second round with a budget of its own begins at the very next call, and its last call is the outcome |
| Runner.ComesThroughIff | packages/pugio/src/pugio/runner.py:148-154 | a fetch comes through if and only if the first round ends in success, or ends with an expired login, the refresh works and the second round ends in success |
| StateStore.StateStore.Register | packages/arsenal-core/src/arsenal_core/state/store.py:135-143 | registering never changes a unit already there |
| StateStore.StateStore.MarkQuarantined | packages/arsenal-core/src/arsenal_core/state/store.py:212-219 | quarantine counts no attempt |
| StateStore.StateStore.MarkDone | packages/arsenal-core/src/arsenal_core/state/store.py:157-170 | done keeps the attempts and the last error |
| StateStore.StateStore.MarkDoneAndAdvanceCursor | packages/arsenal-core/src/arsenal_core/state/store.py:172-206 | status and cursor change in one commit and nothing else does |
| StateStore.StateStore.Requeue | packages/arsenal-core/src/arsenal_core/state/store.py:230-242 | any known unit, done ones included, goes back to pending, and the count tells whether it was known |
| Upsert.DuckRefinesPostgres | packages/pugio/src/pugio/sinks/duckdb.py:65-75 | delete-then-insert-last leaves the same key-to-row map as the ON CONFLICT fold over the batch |
| Upsert.DuckWriteOverrides | packages/pugio/src/pugio/sinks/duckdb.py:65-75 | a write overrides the table key by key, the last row of each key winning |
| Upsert.DuckWriteKeepsUnique | packages/pugio/src/pugio/sinks/duckdb.py:65-75 | a key-unique table stays key-unique |
| Upsert.DuckWriteIdempotentIff | packages/pugio/src/pugio/sinks/duckdb.py:65-75 | writing a batch twice is writing it once if and only if it has no NULL merge key |
| Upsert.DuckWriteNulls | packages/pugio/src/pugio/sinks/duckdb.py:65-75 | a write adds its rows with a NULL key to those the table has and deletes none, and adds none if and only if the batch has none |
| Upsert.PgWriteOverrides | packages/pugio/src/pugio/sinks/postgres.py:150-172 | the row-by-row fold overrides the table key by key |
| Upsert.PgRejectsNullKeys | packages/pugio/src/pugio/sinks/postgres.py:140-172 | a batch is rejected if and only if it holds a NULL key |
| Upsert.PgWriteTwice | packages/pugio/src/pugio/sinks/postgres.py:150-172 | an accepted batch applied twice is applied once, also where it has fewer columns than the table and stored cells stay |
| Upsert.PgWriteUpserts | packages/pugio/src/pugio/sinks/postgres.py:150-172 | after an accepted batch the table has its old keys and those of the batch; the row of a key the batch lacks is untouched; the row of a key it has is, for a new key, the last batch row of that key, and else keeps its cells in the merge key and in columns the batch lacks and takes the others from that last row |
| Upsert.SetExcludedReplaces | packages/pugio/src/pugio/sinks/postgres.py:150-158 | on rows with the same columns and key, updating the other columns gives the new row |
| Upsert.InsertOnConflictPuts | packages/pugio/src/pugio/sinks/postgres.py:150-158 | one insert puts the row at its key, also when every column is a key and nothing is done |
| Upsert.DuckDBSink.Write | packages/pugio/src/pugio/sinks/duckdb.py:45-91 | a failed transaction leaves the table as it was |
| Upsert.PostgresSink.Upsert | packages/pugio/src/pugio/sinks/postgres.py:123-172 | the batch is committed if and only if no row of it has a NULL key, and then the table is changed cell by cell as `Upsert.PgWriteUpserts` says; otherwise it is as it was |
| Compilation.CompilationPreservesMeaning | packages/gladius/src/gladius/compile/transpiler.py:38-55 | for every spec and relation the compiled query gives the columns in order and the rows that folding map and steps gives, and is rejected exactly when a step is |
| Compilation.StepsMatch | packages/gladius/src/gladius/compile/transpiler.py:46-55 | from any position on, the remaining CTEs and the final SELECT mean the remaining steps, an elided trailing select included |
| Compilation.StepMatches | packages/gladius/src/gladius/compile/transpiler.py:68-102 | the SELECT compiled from a step means the step |
| Compilation.FilterMatches | packages/gladius/src/gladius/compile/transpiler.py:70-72 | WHERE with a star keeps whole rows in order |
| Compilation.RenameMatches | packages/gladius/src/gladius/compile/transpiler.py:73-76 | EXCLUDE with aliases renames all columns at once, swaps included |
| Compilation.CastMatches | packages/gladius/src/gladius/compile/transpiler.py:77-82 | REPLACE converts each named column in place and leaves the others |
| Compilation.DedupMatches | packages/gladius/src/gladius/compile/transpiler.py:83-88 | QUALIFY keeps the first row of each key |
| Compilation.DeriveMatches | packages/gladius/src/gladius/compile/transpiler.py:89-91 | derived columns are computed from the incoming row and appended |
| Compilation.SelectMatches | packages/gladius/src/gladius/compile/transpiler.py:92-94 | a select anywhere in the chain projects |
| Compilation.PythonMatches | packages/gladius/src/gladius/compile/transpiler.py:97-102 | the call appends what the registered function gives for the arguments |
| Compilation.MapMatches | packages/gladius/src/gladius/compile/transpiler.py:43-46 | the map's CTE replaces all columns by the computed ones |
| Compilation.Registered | packages/gladius/src/gladius/udf.py:14-40 | the name a python step calls is the one its function is registered under, whatever CTE number it has |
| Compilation.StepShaped | packages/gladius/src/gladius/compile/transpiler.py:68-102 | what a step yields is a relation again: different column names, every row with exactly these |
| Compilation.DedupKeepsOnePerKey | packages/gladius/src/gladius/compile/transpiler.py:83-88 | dedup keeps exactly one row of every key that occurs: whichever of the key's rows the engine numbers first |
| Compilation.KeepMembers | packages/gladius/src/gladius/compile/transpiler.py:70-72 | a filter keeps exactly the rows on which the condition holds of the columns it uses |
| Compilation.DerivedCellIs | packages/gladius/src/gladius/compile/transpiler.py:89-91 | a derived cell is what its expression gives for the row's values in the columns it uses |
| Transpiler.CompileSql | packages/gladius/src/gladius/compile/transpiler.py:38-55 | the loop with its two counters builds the query whose meaning is proved |
| Transpiler.CtesAreNumbered | packages/gladius/src/gladius/compile/transpiler.py:38-55 | the CTEs are named s0, s1 and so on without a gap: one for the files, one for a map if there is one, and one per step, but for a select at the end |
| RowLocal.TransformDistributes | packages/gladius/src/gladius/compile/transpiler.py:38-109 | without dedup and raw SQL a transform of a concatenation is the concatenation of the transforms, rejected together |
| RowLocal.StepDistributes | packages/gladius/src/gladius/compile/transpiler.py:68-102 | so does each such step |
| RowMeaning.TransformReads | packages/gladius/src/gladius/compile/transpiler.py:38-109 | an accepted row-local transform gives, read by name, what its steps make of each row on its own, whatever other columns the relation has |
| Acceptance.AcceptedIff | packages/gladius/src/gladius/compile/transpiler.py:38-109 | a transform without raw SQL is rejected or accepted by the columns of its input alone: accepted if and only if it works at all, has what it needs and nothing in its way, all three read off the declaration |
| ByUnit.ByUnitEqualsRecompute | packages/gladius/src/gladius/engine.py:61-134 | over any history of file and spec changes, by_key specs among them, and runs cut off anywhere, with no change of files or spec while a published part is not journaled: a by_unit run of a row-local spec that gets to its end leaves, counted with multiplicity and read by name, the rows recomputing over all current files gives |
| ByUnit.ByUnitEqualsRecomputeIff | packages/gladius/src/gladius/engine.py:61-134 | over any history at all, where recomputing is accepted: the run gets to its end if and only if nothing is pending or the pending files have the needed columns among them, and then the output is that of recomputing if and only if the published parts that stay without a journal entry mean no rows |
| ByUnit.OutputIsFilesAndTorn | packages/gladius/src/gladius/engine.py:61-134 | over any history at all the output is, as a bag, the rows of all current files and besides those of the batches published but never journaled since the last reset, but for the one this run makes again |
| ByUnit.HistoryKeepsInv | packages/gladius/src/gladius/engine.py:61-134 | in every state of any history the parts are those of the journaled batches and of the published but not journaled ones, each once, and the journal lists exactly the files of the former |
| ByUnit.RunKeepsInv | packages/gladius/src/gladius/engine.py:67-117 | so does every durable state within a run |
| Recompute.EngineExists | packages/gladius/src/gladius/engine.py:91-107 | for all files, each with columns of its own, and all jobs there is an engine that answers with the compiled query, so what the lemmas below assume of it can be met |
| Recompute.ExecuteDenotes | packages/gladius/src/gladius/engine.py:91-107 | the engine's answer over a list of files is what the job means over their rows, united by column name |
| Recompute.ExecuteMeans | packages/gladius/src/gladius/engine.py:91-107 | read by name, an accepted row-local job gives what it makes of the rows of the files one by one, whatever columns the other files have |
| Recompute.ExecuteAcceptedIff | packages/gladius/src/gladius/engine.py:91-107 | without raw SQL a query is accepted if and only if the job works at all, every column it needs is in one of the files, and no column it would bring a second time is in any |
| Recompute.BatchAcceptedIff | packages/gladius/src/gladius/engine.py:85-107 | where all files together are accepted, some of them on their own are rejected if and only if a column the job needs is in none of them |
| Recompute.TogetherRejectedIff | packages/gladius/src/gladius/engine.py:85-107 | where some files are accepted on their own, all together are rejected if and only if one has a column the job would bring a second time |
| Recompute.RejectedOnItsOwn | packages/gladius/src/gladius/engine.py:85-107 | the concrete case: selecting id and value, a file without a value is rejected alone and accepted beside one that has it |
| Recompute.ExecuteDistributes | packages/gladius/src/gladius/engine.py:91-107 | a row-local job over two lists of files, each accepted, gives the rows of each, in order, read by name |
| Recompute.ExecutePermuted | packages/gladius/src/gladius/engine.py:91-107 | neither acceptance nor the bag of rows, read by name, depends on the order the files are listed in |
| Recompute.MarkingExtends | packages/gladius/src/gladius/incremental.py:59-66 | marking new files makes the journal list exactly the old and the new ones |
| ByKey.MergeOverrides | packages/gladius/src/gladius/engine.py:137-165 | the merge query, a key-unique batch onto a key-unique output, overrides it key by key |
| ByKey.MergeIsUnique | packages/gladius/src/gladius/engine.py:147-157 | what the merge query gives is key-unique whatever the two hold |
| MergeQuery.MergeQueryIsAntiJoin | packages/gladius/src/gladius/engine.py:147-157 | row number one of every partition of the tagged union, ordered by precedence, whichever row the engine takes among equals: the first row per key of the batch, then the first row per key of the old rows whose key the batch lacks |
| ByKey.OutputIsUniqueIff | packages/gladius/src/gladius/engine.py:145-159 | the new output is key-unique if and only if it was merged onto an old part or the batch is |
| ByKey.RunOverrides | packages/gladius/src/gladius/engine.py:61-125 | a run whose spec is the stored one, whose output is there if anything is journaled, and whose journaled files are all listed as journaled, overrides the stored table by its batch, stays key-unique and journals its files |
| ByKey.RunsFoldOverrides | packages/gladius/src/gladius/engine.py:61-125 | over a reset-free sequence of runs the stored table is the fold of the batches, the latest winning |
| ByKey.ReplayChangesNothing | packages/gladius/src/gladius/engine.py:108-112 | a crash before the files are marked makes the next run repeat its batch, which changes nothing |
| ByKey.LostOutputIsRecomputed | packages/gladius/src/gladius/incremental.py:103-106 | a crash between deleting and replacing the output is noticed and the output made again from all current files |
| Reruns.OutputIsGoneBetween | packages/gladius/src/gladius/incremental.py:103-106 | that gap is there: a by_key run with something to merge goes through a state without any output |
| ByKeyHistory.OutputIsMerged | packages/gladius/src/gladius/engine.py:61-125 | over any history of file and spec changes and runs cut off anywhere a by_key run that gets to its end leaves the batches since the last reset merged in order, and every current file is in one of them |
| ByKeyHistory.MergedOverrides | packages/gladius/src/gladius/engine.py:137-165 | batches that are key-unique merge to a key-unique output in which for every key the latest batch that has it wins |
| ByKeyHistory.HistoryKeepsInv | packages/gladius/src/gladius/engine.py:61-125 | in every state of such a history the output is the merged batches of which at most the last is not journaled |
| ByKey.FirstPerKeyUnique | packages/gladius/src/gladius/engine.py:145-157 | one row per key: key-unique, no key is lost, and every row is one of those there were |
| Incremental.RunIncremental | packages/gladius/src/gladius/engine.py:61-125 | wherever a run dies the durable state is one of those the histories are made of; a run that cannot die gets to its end if and only if the engine accepts the query |
| Incremental.Process | packages/gladius/src/gladius/engine.py:84-117 | the same for the part after the reset |
| Incremental.ResetIfNeeded | packages/gladius/src/gladius/engine.py:76-83 | the output goes first and the journal after it, and this happens if and only if the spec is not the stored one, the output is gone although files are journaled, or a journaled file is changed or no longer listed |
| Incremental.ResetIff | packages/gladius/src/gladius/engine.py:70-81 | the four reasons for a reset, and no other |
| Reruns.NothingIsLost | packages/gladius/src/gladius/engine.py:61-125 | without these reasons a run cut off anywhere loses no journal entry and, in by_unit mode or with nothing pending, no part but one of its own batch; in by_key mode the one part is there whenever the journal has grown |
| Reruns.RerunChangesNothing | packages/gladius/src/gladius/engine.py:84-88 | if besides every listed file is journaled, the run gets to its end and every state it goes through is the one it found; if there is no output an empty one is made |
| Reruns.DisturbedStartsOver | packages/gladius/src/gladius/engine.py:76-88 | with one of the reasons a run ends as it would have with nothing there, and gets to its end if and only if that does |
| Reruns.PendingKeepsOrder | packages/gladius/src/gladius/engine.py:84-84 | what is pending keeps the order in which the files are listed |
| Reruns.PublishReplaces | packages/gladius/src/gladius/engine.py:126-134 | a part takes the place of the one of its name and leaves all others |
| Incremental.IncrementalStore.MarkProcessed | packages/gladius/src/gladius/incremental.py:59-66 | the pending files, and no others, are journaled with their signatures |
| Incremental.IncrementalStore.Reset | packages/gladius/src/gladius/incremental.py:46-53 | the journal is emptied and the spec hash stored together |
| Planning.Plan | packages/spatha/src/spatha/workflow.py:66-81 | the planner's loop ends and gives the plan the properties below are about, or raises |
| Planning.ReadyNow | packages/spatha/src/spatha/workflow.py:70-75 | a pass over the remaining tasks finds exactly those whose dependencies are all planned |
| PlanProofs.PlanExistsIff | packages/spatha/src/spatha/workflow.py:66-81 | plan raises if and only if no topological order exists, and otherwise returns one |
| PlanProofs.PlanIsTopological | packages/spatha/src/spatha/workflow.py:66-81 | a plan lists every task once and after its dependencies |
| PlanProofs.PlanIsTheSortedTasks | packages/spatha/src/spatha/workflow.py:66-81 | a plan is exactly the tasks sorted by longest dependency chain, then descending priority, then name: the name that comes first is a proper prefix of the other or has the smaller character where they first differ |
| PlanProofs.PlanIsSorted | packages/spatha/src/spatha/workflow.py:66-81 | the same from any layer on |
| PlanProofs.DepthIsUnique | packages/spatha/src/spatha/workflow.py:66-81 | a task has one depth, so that order is unique |
| PlanProofs.DeclarationOrderIsIrrelevant | packages/spatha/src/spatha/workflow.py:66-81 | the plan does not depend on the order the tasks are declared in |
| Workflow.SortSorts | packages/spatha/src/spatha/workflow.py:74-75 | sorting keeps the tasks and puts the higher priority first, and of equal ones the name that is alphabetically first |
| Workflow.BeforeIff | packages/spatha/src/spatha/workflow.py:74-74 | a task goes before another if its priority is higher, or equal and its name alphabetically first, and only then |
| Workflow.OrderedListsAreEqual | packages/spatha/src/spatha/workflow.py:74-75 | there is only one such order |
| Execution.RunReadyIsTheLeastClosedSet | packages/spatha/src/spatha/workflow.py:114-150 | run_ready executes exactly the least set of tasks closed under eligibility above the completed ones, a task being eligible when all its signals are there and its window, if it has one, has begun and not ended |
| Execution.ReadyTasksAre | packages/spatha/src/spatha/workflow.py:83-104 | the ready tasks are exactly those not completed whose dependencies are, whose signals are there and whose window contains the time, the higher priority first and of equal ones the name that is alphabetically first |
| Execution.RoundsAreReadyTasks | packages/spatha/src/spatha/workflow.py:132-150 | run_ready runs what is ready, adds it to what is completed and starts again, until nothing is ready |
| Execution.RoundsAreOrderly | packages/spatha/src/spatha/workflow.py:114-150 | it runs each task at most once, none that was completed, and each after its dependencies |
| Execution.RoundsAreClosed | packages/spatha/src/spatha/workflow.py:114-150 | it stops only when nothing more could run |
| Execution.RoundsAreLeast | packages/spatha/src/spatha/workflow.py:114-150 | every set closed in this way holds all it ran |
| Execution.RunReadyFollowsPlan | packages/spatha/src/spatha/workflow.py:114-150 | with every task allowed and none completed before, it runs in plan order |
| Execution.RunReady | packages/spatha/src/spatha/workflow.py:114-150 | the fixpoint loop ends and runs the rounds the lemmas are about |
| Execution.Run | packages/spatha/src/spatha/workflow.py:106-112 | run executes the whole plan in order, and nothing at all when there is a cycle |
| ParquetPublish.PublishedIsIntact | packages/pugio/src/pugio/sinks/parquet.py:28-66 | in every interleaving of any number of writers the published file is the old one or one writer's complete batch, and no temporary file is left once all have returned |
| ParquetPublish.StepKeepsInv | packages/pugio/src/pugio/sinks/parquet.py:28-66 | every step keeps what each temporary file holds in each phase |
| ParquetPublish.IntactIffNamesDiffer | packages/pugio/src/pugio/sinks/parquet.py:28-36 | publishing is safe in every interleaving if and only if no two writers share a temporary name |
| ParquetPublish.SharedNamePublishesNothing | packages/pugio/src/pugio/sinks/parquet.py:28-36 | the interleaving a shared name breaks: an empty file is published |
| ParquetPublish.ParquetDir.ReplaceWithRetry | packages/pugio/src/pugio/sinks/parquet.py:38-54 | steps of that protocol: the file is replaced at the first of five attempts that is granted, after waits adding up to 50 ms times the triangular number |
| ParquetPublish.FirstGrantedIs | packages/pugio/src/pugio/sinks/parquet.py:45-54 | the attempt that goes through is the first of five that is not denied, and there is none if and only if all five are |
| ParquetPublish.ParquetDir.Write | packages/pugio/src/pugio/sinks/parquet.py:56-66 | steps of that protocol, others writing in between: this writer returns with its temporary file gone, whether its batch was complete and a replace was granted decides what it reports, the published file is intact, and with nobody else writing it is the batch or what it was |
| FileLock.LockIsExclusive | packages/scutum/src/scutum/lock.py:39-60 | over any processes, interleavings, failures and kills at most one process is between creating the file and unlinking it |
| FileLock.StaleLockIsNeverTaken | packages/scutum/src/scutum/lock.py:39-60 | a lock whose owner died is never acquired again |
| FileLock.BecomesStaleIff | packages/scutum/src/scutum/lock.py:51-60 | a step makes the lock stale if and only if its owner dies or fails to write the file |
| FileLock.FileLock.Acquire | packages/scutum/src/scutum/lock.py:39-54 | steps of that protocol, others acquiring and dying in between: the lock is taken at the first attempt that finds no file; writing the pid may fail, and then nobody holds the file left behind; a failing acquire makes exactly `attempts` opens and sleeps exactly backoff * (2^(attempts-1) - 1) |
| FileLock.FileLock.Release | packages/scutum/src/scutum/lock.py:56-60 | a holder gives the lock up, and a release without holding it changes nothing |
| DirectorySwap.SwapIsRecoverable | packages/onager/src/onager/compact.py:142-165 | over any number of compactions and promotions, failed, cut off anywhere or repaired by hand, the dataset is complete, or absent with the complete one in the backup of the kind of run that moved it; complete is the dataset there was at first or, whole, what a run of the schedule began for |
| DirectorySwap.VersionChangesOnlyByInstall | packages/onager/src/onager/compact.py:142-150 | that version is the old one until a staged directory is installed |
| DirectorySwap.StaleBackupBlocks | packages/onager/src/onager/compact.py:142-143 | while a backup of one kind is left over it stays as it is and no run of that kind installs anything: the dataset is the old one or what a run of the other kind began for |
| DirectorySwap.GoesThroughIff | packages/onager/src/onager/backfill.py:75-86 | with the lock free, a run of a kind can go through if and only if no backup of that kind is there, whatever the other kind has left |
| DirectorySwap.DeadRunBlocksAll | packages/scutum/src/scutum/lock.py:39-60 | after a process died holding the lock nothing of either kind begins until the lock file is removed |
| DirectorySwap.BothBackups | packages/onager/src/onager/compact.py:142-165 | the state with the dataset gone and both backups there is reached: only the backup of the run that moved the dataset is the current one |
| DirectorySwap.Disk.Swap | packages/onager/src/onager/compact.py:142-165 | steps of that protocol: finished, rejected and rolled back leave exactly the new or the old state, which of them follows from what the two moves do, and one cut off leaves the old or the new directory whole |
| Compaction.CompactionConservesRowsIff | packages/onager/src/onager/compact.py:99-165 | the bag of Parquet rows, a column a row lacks reading NULL, is conserved if and only if the compact file's name is not that of a preserved file with rows |
| Compaction.CompactedHolds | packages/onager/src/onager/compact.py:99-135 | a compaction whose file name is free is for a directory with the rows of the dataset |
| Compaction.RowsSurviveRuns | packages/onager/src/onager/compact.py:142-165 | over any schedule of compactions, each for what it finds when it begins, and promotions of outputs with the same rows, cut off anywhere, the complete dataset keeps its rows |
| Compaction.PlanPartitions | packages/onager/src/onager/compact.py:50-62 | candidates and preserved files split the Parquet files: each is in exactly one part, candidates being those below the target size |
| Compaction.SelectedIff | packages/onager/src/onager/compact.py:24-48 | a compaction goes ahead if and only if at least the minimum number of Parquet files are smaller than the target and all these together are within the limit on input bytes, if there is one |
| Compaction.StagedBag | packages/onager/src/onager/compact.py:123-135 | the staged directory holds the rows of the dataset less those of a preserved file that is overwritten |
| Compaction.CompactedFiles | packages/onager/src/onager/compact.py:123-141 | file by file: the preserved files as they were, and one new Parquet file whose rows have one set of columns and are those of the candidates, a missing column reading NULL |
| Compaction.BagOfAnyListing | packages/onager/src/onager/compact.py:50-62 | the bag of rows of a directory does not depend on how its files are listed |
| Compaction.CompactDataset | packages/onager/src/onager/compact.py:85-165 | steps of the swap protocol: the outcome for every combination of options and faults, the report, and the dataset it leaves |
| Compaction.StageFiles | packages/onager/src/onager/compact.py:123-135 | file by file the staged directory becomes the compacted one, or the run ends before anything is moved |
| Compaction.Promote | packages/onager/src/onager/backfill.py:69-86 | steps of the swap protocol: only a ready handle to a workspace with an output replaces the dataset, once; a failed promotion changes nothing |
| Compaction.RunBackfill | packages/onager/src/onager/backfill.py:48-66 | the transform sees the snapshot; the workspace ends ready with its output and the caller gets a ready handle, or it ends failed and the caller gets none |
| TokenBucket.GrantIsSpaced | packages/arsenal-core/src/arsenal_core/ratelimit.py:44-55 | a grant is at least one interval after the one before and not before the penalty in force on entry |
| TokenBucket.TokenBucket.Acquire | packages/arsenal-core/src/arsenal_core/ratelimit.py:44-55 | acquire grants once, at a moment between entry and return, keeps all grants spaced, and waits out the penalty; it asks to sleep exactly for what is left of the penalty and then for what is left of the interval since the last grant, so not at all when both have passed |
| TokenBucket.WaitIs | packages/arsenal-core/src/arsenal_core/ratelimit.py:44-55 | what the refill leaves to wait for is what is left of one interval since the bucket was stamped |
| TokenBucket.TokenBucket.Penalize | packages/arsenal-core/src/arsenal_core/ratelimit.py:57-58 | a penalty lasts from now on, and leaves tokens and grants alone |
| TokenBucket.SpacedFar | packages/arsenal-core/src/arsenal_core/ratelimit.py:44-55 | grants i and j are at least j - i intervals apart |
| TokenBucket.WindowHoldsFew | packages/arsenal-core/src/arsenal_core/ratelimit.py:44-55 | a window of length T holds at most 1 + T * rps grants |
| Lookahead.BatchesConcatenate | packages/pugio/src/pugio/sources/dlt.py:93-111 | the batches put together are the stream |
| Lookahead.BatchSizes | packages/pugio/src/pugio/sources/dlt.py:93-111 | no batch is empty and all but the last are full |
| Lookahead.DltSource.NextBatch | packages/pugio/src/pugio/sources/dlt.py:93-111 | the next batch is cut from what is left, at most one record is held back, and the flag says whether nothing is left |
| Lookahead.DltSource.Gather | packages/pugio/src/pugio/sources/dlt.py:93-104 | records move from lookahead and stream to the batch, none lost and in order |
| Lookahead.DltSource.NextUnit | packages/pugio/src/pugio/sources/dlt.py:113-131 | the batch of a unit is the one fetch will hand out, until the next unit is asked for |
| Lookahead.DltSource.Fetch | packages/pugio/src/pugio/sources/dlt.py:133-136 | only the unit just yielded can be fetched |
| Lookahead.DltSource.CollectAll | packages/pugio/src/pugio/sources/dlt.py:93-136 | fetching unit after unit gives the batches of the stream, the exhausted flag true exactly on the last |
| KeyRanges.KeyRanges | packages/pugio/src/pugio/sources/database.py:84-101 | the generator's loop ends and gives the ranges the lemmas are about |
| KeyRanges.RangesPartition | packages/pugio/src/pugio/sources/database.py:84-101 | every key between the bounds lies in a range |
| KeyRanges.RangesAreDisjoint | packages/pugio/src/pugio/sources/database.py:84-101 | the ranges are one chunk wide and none starts before the one before it ends |
| KeyRanges.RangesExtend | packages/pugio/src/pugio/sources/database.py:84-101 | a larger maximum only appends ranges |
| KeyRanges.RangesFetchEachRowOnceIff | packages/pugio/src/pugio/sources/database.py:138-156 | fetching range by range gives every row with a key exactly once and no other row, and so the whole table if and only if no key is NULL |
| KeyRanges.TilesFetchFrom | packages/pugio/src/pugio/sources/database.py:138-156 | any list of ranges that meet end to end gives every row whose key they cover exactly once, and no row without a key |
| Quoting.QuoteRoundTrip | packages/gladius/src/gladius/compile/ident.py:11-21 | a quoted text followed by anything reads back as itself if and only if no further quote follows |
| Quoting.QuoteIsInjective | packages/gladius/src/gladius/compile/ident.py:11-21 | different texts never print the same |
| Quoting.JoinedRoundTrip | packages/gladius/src/gladius/compile/transpiler.py:105-109 | a comma-joined list of quoted names reads back as the list |
| Quoting.InputSourceRoundTrip | packages/gladius/src/gladius/compile/transpiler.py:58-65 | the engine reads exactly the files it was given, whatever their paths contain |

## Left out

- HTTP, SQLite, DuckDB, Postgres, Arrow and the file system themselves: maps, bags and atomic steps stand for them.
- Command lines, YAML loading and validation, recipes, release metadata, schema documents: plumbing.
- The Augur package (language model calls, prompts, scoring): text-driven, with single-branch facts only.
- OAuth token fetching, Link header parsing, charset decoding, static query merging, POST bodies, and the bucket calls inside fetch: network edges.
- Hashes: unit ids, transform hashes and part names are taken to be injective; a unit key keeps its numbers and its cursor text.
- Timestamps, byte counts, durations and lineage: written by the source and read by no branch that is modelled.
- The sleeps between the retries of a fetch or a write (exponential backoff with jitter): only the number of calls matters to what is modelled.
- The texts of errors: the runner's model records short constants in their place.
- Contract and validation are predicates of a page's rows, and the schema of a record batch is a function of them; how Arrow infers it is not modelled.
- Schema drift under the policies "warn" and "ignore" only reaches the log, which is not modelled.
- Dead-letter files written for quarantined pages.
- Servers that change between runs, infinite or cyclic cursor chains, and page sizes below one: assumed away; the source validates none of them.
- Source kinds other than REST, dlt and ranged database tables, and resuming those through the runner: the runner is proved for the REST source.
- Runner.RunPipeline: a fault is any fault the flag `calm` allows at the modelled points; faults inside a single store commit are not, as a commit is atomic.
- Sinks.PutTwiceIff: what a database accepts depends on a batch's columns and NULL keys only; the types of values, and errors of connections, are faults of a write. The columns of a table are given up front: a table that does not exist yet is created with those of the first batch, which is not a step of its own.
- Upsert.DuckDBSink.Write: the INSERT matches columns by position and the model by name, so pages with as many columns as the table but other names or another order are outside it.
- Completeness.FinishedPostgres: says what the table holds for pages with exactly its columns; for pages with fewer, where ON CONFLICT keeps the stored cells, CrashEquivalence.CrashScheduleEquivalence holds, but the contents are not put in closed form.
- Type mapping and the classification of database errors in the sinks.
- Column names are compared as written, although the engine ignores case; expressions are opaque pure functions of a row, without aliases defined in the same SELECT.
- Compilation.CompilationPreservesMeaning: a repeated output name (a column derived or renamed onto an existing one, or selected twice) counts as rejected, which the engine may accept; a raw SQL step sees only the relation before it, although its text may name an earlier CTE.
- Transform: an empty derive list counts as rejected, which the engine may accept as a trailing comma; cast type names the compiler does not know are rejected before the model starts.
- Expressions, casts and Python functions give a value for every row; one that raises on some value fails the whole query in the source.
- ByUnit.ByUnitEqualsRecompute: transforms with dedup or raw SQL look at more than one row, so by_unit batch by batch is not recomputation for them and nothing is claimed.
- Recompute: input files do not change while a run is reading them, and a content change always changes the signature.
- Incremental.RunIncremental: removing a directory and os.replace are each one step, so a removal cut off halfway is not covered; temporary directories of a run and by_key columns missing from the data are left out.
- The swap at the end of a transform that is not incremental: it has the shape of the by_key one.
- ByKeyHistory.OutputIsMerged: a batch whose columns differ from those stored makes the UNION ALL of the merge query fail or match columns by position; the model merges rows by name.
- ByKey: no claim that by_key equals recomputation, as a first batch keeps its duplicate keys and ties are settled by the engine.
- Execution.RunReady: tasks do not fail and nobody else runs them; the lock each task is run under is covered by FileLock only.
- FileLock: the constructor's rejection of bad arguments is a precondition.
- DirectorySwap: a promotion looks for its backup just before it takes the lock, and the model does both in one step; moving a directory is atomic, removing the backup goes file by file, and cleaning up a staging directory never fails.
- Compaction: the listing of Parquet files is given in sorted order, directories are flat, and the report's timing and the compaction log are not modelled.
- TokenBucket.TokenBucket.Acquire: burst sizes other than one, which nothing in the repository uses; time may pass between a grant and the return, and spacing is that of the grants.
- Lookahead: converting records to a batch and walking nested dlt resources; the stream is a finite sequence.
- KeyRanges: keys are integers or NULL and the table is fixed; a row added inside a range that is done already is not fetched again, and nothing is claimed about it.
- Quoting: the lexer inside quotes is the standard SQL one with doubled quotes; other tokens are not lexed.
