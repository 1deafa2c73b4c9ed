# Steam Sales Tray: a verified model of the incremental sync

Steam Sales Tray keeps a local SQLite cache of net sales per product in step with a
partner's financial ledger at Steam. The ledger keeps changing; the program asks "which
financial dates changed since mark M", fetches every such date page by page, aggregates
the line items, replaces the date's rows in one transaction, and installs the new mark
when every date has been done. The first synchronization (mark "0") goes through the
whole history and keeps a cursor so that an interruption can resume. Anything can fail at
any time: requests, statements, the process itself.

This project models that protocol and everything it rests on, and proves what holds over
all behaviours. `dafny verify dfyconfig.toml` checks all of it.

## How it is built

| file | content |
|---|---|
| `Text`, `Decimal` | byte-string order and sorting; decimal text, marks, `FormatThousands` |
| `Aggregator` | `AggregateDate`, against sums read off the records |
| `Ledger` | the remote side: records per date, change events with stamps, sound replies, torn reads |
| `SteamClient`, `Query` | the page loop; percent-encoding and the query strings |
| `Store`, `Database`, `Migrations` | tables and statements; a connection whose statements may fail; schema steps |
| `Views`, `RollingWindows`, `SteamDate` | per-product views and sums; the 7-day and 30-day figures; date texts and the calendar |
| `Protocol`, `ProtocolTheorems` | the sync as a state machine with its invariant; what follows over whole behaviours |
| `SyncService`, `SyncTheorems`, `ResumedBackfill`, `Notification` | `RunSynchronization` as written, shown to be a path of the protocol; results on whole passes, with or without failing writes |
| `Worker` | the worker thread, its events and the clear flag as interleaved steps |
| `Redaction`, `KeyFile` | `RedactSecrets`; the key file's envelope and its atomic replacement |

**Two layers.** `Protocol` is a state machine: a server that may change between any two
steps, a cache, and a worker that takes a list, fetches, replaces, checkpoints, installs
the mark and drops the cursor, and can stop after any of them. `SyncService` is the code:
a class whose methods drive a `Database` statement by statement, with a fault oracle
deciding which statements fail. `RunSynchronization` returns a ghost trace together with a
proof that it is a path of `Protocol` along which the database's commits are made, each by
a writing step and in order. So what `ProtocolTheorems` says of every behaviour it says of
every commit of every pass (`SyncTheorems.PassesCompose`), and a crash after any commit
leaves a file from which the next pass goes on with a behaviour
(`SyncTheorems.CrashIsABehaviour`).

Statements may fail anywhere: `Leaves` says what a pass leaves of the store it began with,
`Reports` what the user is shown, and conservation is proved of every pass that got to its
dates. When none fails the method computes a function of its inputs, `AfterRun`, about
which `SyncTheorems` proves "clear equals fresh".

**History variables.** `Protocol.State` carries four: the server's clock at the last and at
the first list an initial run took over this cache, the dates replaced since the cache was
emptied (`done`), and the dates a resumed backfill skipped although they had changed since
the list before (`exposed`). No step depends on them, and `ProtocolTheorems.LastListIs`,
`FirstListIs`, `DoneMeansReplaced` and `ExposedMeansSkipped` say in terms of the steps taken
exactly what they hold. After the migration of a version-1 file "the list before" is the
first one: its backfills start over each time, so only the first list is known to lie
before every replacement.

**Version-1 files.** A version-1 program has no cursor column: its backfills are the
behaviours whose checkpoints write nothing, and the migration is the step `Upgrade`.

## The result that is not what the comments say

`src/sync/SalesSyncService.cpp:268-270` calls the cursor the mark of a contiguous done
prefix. That is proved (`BackfillPrefixIsDone`) for what the last list knew. But a resumed
backfill takes a *new* list, skips the dates up to the cursor whatever that list says
about them, and then installs the *new* mark. A date at or below the cursor that changed
between the interrupted run's list and the next one is then never reported again.
`ResumedBackfill.CodeCanLoseADate` gives two passes of the code after which a date is
lost, and `ResumedPassLosesExactly` the condition. `NoLostUpdate` holds without any
hypothesis for every other date, `NoLostUpdateWhenQuiet` for every date if no list of a
resumed backfill finds such a change, and `CompletedRunLosesExactly` says of every run
that went through its dates which dates it loses: those skipped by the cursor although
they had changed, wrong when the list was taken, and without an event above the mark.

Two smaller ones. `HasStoredKey` accepts files that `Load` refuses
(`StoredKeyMayNotLoad`; `LoadableIffStoredAndWhole` says which). A clear request whose
transaction fails is dropped: the flag has been taken and the result of `ClearAllSales` is
ignored (`Prepare` says exactly when, `TakenClearCanBeLost` gives a case); the flag survives
only a pass that cannot open the database.

## Hypotheses

- A sound reply to "changed since `asked`" names every date with a later event and hands out
  a mark that is not ahead of the server; "0" is handed out only to a caller who asked with
  "0" (`Ledger.SoundReply`). Event stamps are positive and new ones exceed every earlier moment.
- A fetch returns the date's records if the date does not change meanwhile, and anything
  otherwise (`Ledger.FetchedBetween`). `PagedWorldIsSound` derives this from paging, given
  that 10,000 requests can carry the date.
- Statements may fail; COMMIT and ROLLBACK do not. Committed states are durable, reads of
  `sync_state` succeed, the four PRAGMAs take effect.
- `protect` and `unprotect` of DPAPI are inverse to each other.
- `MoveFileEx` replaces a file in one step, and flushed bytes survive a crash.

## Model

| member | source | states |
|---|---|---|
| Protocol.StepInv | src/sync/SalesSyncService.cpp:203-372 | every step of the protocol, with every outcome of every write and any server change in between, keeps the invariant: table constraints, no lost update, done prefix, progress of the run |
| Protocol.BehaviourInv | src/sync/SalesSyncService.cpp:203-372 | so it holds in every reachable state, that is, at every crash point |
| Protocol.ListProgress | src/sync/SalesSyncService.cpp:265-280 | when a list has been taken every date the run leaves out is right, or was skipped although changed, or has changed since; for unsorted lists with repetitions |
| Protocol.ToProcessMembers | src/sync/SalesSyncService.cpp:271-279 | the dates worked through are exactly the reported ones, minus those up to a non-empty cursor in an initial run |
| Protocol.ToProcessAscending | src/sync/SalesSyncService.cpp:266-279 | the run works in ascending date order |
| Protocol.CheckpointInv | src/sync/SalesSyncService.cpp:326-330 | moving the cursor to the date just stored, or failing to, keeps the invariant, duplicates in the list included |
| Protocol.SetMarkInv | src/sync/SalesSyncService.cpp:343-347 | installing the new mark, or failing to, after the last date keeps the invariant |
| Protocol.DropCursorInv | src/sync/SalesSyncService.cpp:348-350 | so does nulling the cursor, or failing to, whatever became of the mark |
| Protocol.UpgradeInv | src/storage/Migrations.cpp:56-66 | so does seeding the cursor with the newest stored date, although replaced dates may have stored no rows |
| Protocol.ClearInv | src/storage/Database.cpp:282-299 | so does emptying the cache |
| ProtocolTheorems.DoneMeansReplaced | src/sync/SalesSyncService.cpp:318-330 | `done` holds exactly the dates with a committed replacement since the last clear |
| ProtocolTheorems.ExposedMeansSkipped | src/sync/SalesSyncService.cpp:274-279 | `exposed` holds exactly the dates a resumed backfill skipped although they had an event above the clock `LastListIs` describes, and which were neither replaced nor cleared since |
| ProtocolTheorems.LastListIs | src/sync/SalesSyncService.cpp:271-279 | `lastList` is the clock at the last list an initial run took or, from a version-1 file's migration on, at the first list over that cache |
| ProtocolTheorems.FirstListIs | src/storage/Migrations.cpp:51-66 | `firstList` is the clock at the last list an initial run took over an empty table |
| ProtocolTheorems.NoLostUpdate | src/sync/SalesSyncService.cpp:227-352 | in every reachable state a date whose cached rows are not the aggregate of the server's records has an event above the mark and, up to the cursor of a backfill, one newer than the last list; the only exceptions are the dates skipped while changed |
| ProtocolTheorems.NoLostUpdateWhenQuiet | src/sync/SalesSyncService.cpp:227-352 | with no change at or below the cursor between an interrupted list and the next there are no exceptions, and a stale date lies above the cursor |
| ProtocolTheorems.BackfillPrefixIsDone | src/sync/SalesSyncService.cpp:268-330 | while the mark is "0" every date up to the cursor that the last list knew has had a committed replacement since the last clear, or was skipped while changed |
| ProtocolTheorems.SeededCursorIsDone | src/storage/Migrations.cpp:51-66 | the same of the cursor given to a version-1 file in mid-backfill |
| ProtocolTheorems.MarkReturnsToZeroOnlyByClear | src/storage/Database.cpp:282-299 | no step but a clear brings the mark back to "0", and that step nulls the cursor |
| ProtocolTheorems.LeftoverCursorIsNotConsulted | src/sync/SalesSyncService.cpp:271-279 | between a state with a newer mark and a later one in which the cursor counts there is a clear that nulled it |
| ProtocolTheorems.CompletedRunLosesExactly | src/sync/SalesSyncService.cpp:343-350 | a run that has gone through its dates, whatever became of its final writes and however far its mark lags the server, leaves a date wrong and unreported if and only if the date was left out, was wrong at the list and has no event above the mark in force; what is left out while wrong is exactly what the cursor made a resumed backfill skip although it had changed |
| ProtocolTheorems.CompletedRunLosesNothingIff | src/sync/SalesSyncService.cpp:343-350 | it loses nothing if and only if every date so skipped was right or has an event above the mark |
| ProtocolTheorems.ResumedBackfillCanLoseADate | src/sync/SalesSyncService.cpp:271-352 | the loss happens in the protocol: an interrupted backfill, one change, a resumed backfill |
| ProtocolTheorems.Convergence | src/sync/SalesSyncService.cpp:203-372 | after any past, a run that goes through its dates, be the list empty, before the server changes makes every date right, save those skipped while changed |
| ProtocolTheorems.SecondRunChangesNothing | src/sync/SalesSyncService.cpp:203-372 | two such runs against the same server, the second as a rule with nothing to do: every date has the same rows after both, save those skipped while changed and not repaired by the end of one of them |
| ProtocolTheorems.SecondRunKeepsTable | src/sync/SalesSyncService.cpp:203-372 | with no such date left at either end the two leave the same table, as a multiset |
| ProtocolTheorems.ResumeEquivalence | src/sync/SalesSyncService.cpp:265-350 | against an unchanging server that answers every backfill with the same mark, any two backfills that write their mark and null their cursor, whatever interruptions, failed writes, clears and upgrades preceded, leave the same table, mark and cursor |
| ProtocolTheorems.BackfillIsExact | src/sync/SalesSyncService.cpp:265-350 | and these are the aggregate of the server's records date by date, the mark handed out, and none |
| SyncService.SalesSyncService.RunSynchronization | src/sync/SalesSyncService.cpp:203-372 | the pass is a path of the protocol along which all its commits are made, in order. Whichever statements fail: it begins with the file as it was if that cannot be opened, and else with the migrated store, cleared exactly if a clear was pending and its four statements succeed; the tables it leaves are that store's with the dates counted as completed replaced; the mark moves only if the pass went through its list; the cursor moves only in a backfill, to a completed date or, at the end, to none; each outcome has its status, message and counts; a pending clear stays only if the database did not open; a successful pass over sound tables announces, if it is no backfill and notices are wanted, the products whose units over all dates rose, six at most, by how much, and the units of today, and else nothing. With no failing statement it computes `AfterRun` |
| SyncService.SalesSyncService.AskForChanges | src/sync/SalesSyncService.cpp:227-371 | the same from the request for changed dates on; a refused request leaves all but the error text |
| SyncService.SalesSyncService.FollowList | src/sync/SalesSyncService.cpp:245-371 | the same from an answered list on, empty or not |
| SyncService.SalesSyncService.NoteCheck | src/sync/SalesSyncService.cpp:245-246 | the time of the check alone is written, and the run starts from the store and the server of the list |
| SyncService.SalesSyncService.ProcessList | src/sync/SalesSyncService.cpp:265-371 | a non-empty list is followed to the end or to the first date that cannot be fetched or saved; only at the end is the mark touched, and the cursor is the old one, a completed date or, at the end of a backfill, none, whichever statements fail |
| SyncService.SalesSyncService.ProcessDates | src/sync/SalesSyncService.cpp:302-341 | the loop replaces the dates in order and stops at the first that cannot be fetched or saved, with the status, message and number of dates completed; the mark is untouched and the cursor moves to completed dates only, whichever statements fail |
| SyncService.SalesSyncService.ProcessDate | src/sync/SalesSyncService.cpp:302-341 | one date: all pages or none, replacement, checkpoint, after which the date's sum is the net units of the fetched records that count; a date that cannot be fetched or saved leaves everything but the error text as it was, whichever statements fail |
| SyncService.SalesSyncService.WriteMark | src/sync/SalesSyncService.cpp:343-347 | a non-empty mark is installed or its write fails, and nothing else changes |
| SyncService.SalesSyncService.InstallMark | src/sync/SalesSyncService.cpp:343-350 | the mark, then the cursor, in commits of their own and each possibly missing: each column is then the old one or the new one |
| SyncService.SalesSyncService.NoteSuccess | src/sync/SalesSyncService.cpp:351-352 | time stamp and cleared error, touching nothing else |
| SyncService.SalesSyncService.FinishRun | src/sync/SalesSyncService.cpp:343-352 | the four final writes, any subset of which may fail, are steps of the protocol; each of their columns is then the old one or the new one, and nothing else changes |
| SyncService.SalesSyncService.Prepare | src/sync/SalesSyncService.cpp:209-217 | the database is ready exactly if it was open or the statements of opening succeed, and the file is as it was if not; a pending clear is then taken, and the tables are emptied exactly if its four statements succeed |
| SyncService.SalesSyncService.RecordNoChange | src/sync/SalesSyncService.cpp:248-263 | an empty list advances the mark, may clear the error text, leaves tables and cursor, and counts as a list gone through |
| SyncService.ColumnsAfterRun | src/sync/SalesSyncService.cpp:227-352 | with no failing statement: the time of an answered check; after the whole list the new mark if there is one, no error, and with dates the time of the success and no cursor of a backfill; the reason of a refused request; all else as it was |
| SyncService.DatesOfAPass | src/sync/SalesSyncService.cpp:271-279 | a date is gone through if it is reported and is not, with mark "0" and a cursor, at or below the cursor |
| SyncService.StatusOfKinds | src/sync/SalesSyncService.cpp:32-47 | which failures show as offline, authentication, parse and API error |
| SyncTheorems.PassesCompose | src/sync/SalesSyncService.cpp:165-201 | passes one after the other form behaviours; every commit of theirs is made, in order, by a writing step, and the state there, with the server of that moment, has the invariant |
| SyncTheorems.CrashIsABehaviour | src/sync/SalesSyncService.cpp:203-372 | dying after any commit leaves a file, its schema version included, with which the next pass can start, continuing a behaviour whose server has since become the one of the moment of the commit |
| SyncTheorems.ServerEvolves | src/sync/SalesSyncService.cpp:302-305 | along a behaviour the server only moves on |
| SyncTheorems.WorldFromEarlier | src/sync/SalesSyncService.cpp:203-232 | a world that is sound from a server on is sound from every server that has become it, so the next pass may start |
| SyncTheorems.PassConverges | src/sync/SalesSyncService.cpp:245-371 | a pass of the code that goes through its list, be it empty, on an unchanged server leaves every date right, save those skipped while changed |
| SyncTheorems.SecondPassChangesNothing | src/sync/SalesSyncService.cpp:245-371 | a second such pass on the same server changes no date, save those skipped while changed and not repaired by the end of one of them |
| SyncTheorems.SecondPassKeepsTable | src/sync/SalesSyncService.cpp:245-371 | with no such date left the table is as the first pass left it |
| SyncTheorems.PagedWorldIsSound | src/steam/SteamFinancialClient.cpp:171-199 | pages cut from a ledger that changes between any two requests give the protocol sound fetches |
| SyncTheorems.SameSalesSamePass | src/sync/SalesSyncService.cpp:203-372 | when no statement fails a pass depends on tables, mark and cursor only |
| SyncTheorems.ClearEqualsFresh | src/storage/Database.cpp:282-299 | when no statement fails a pass over a cleared cache leaves the tables, mark and cursor, and has the outcome, of that pass over a new database |
| SyncTheorems.ClearedPassEqualsFresh | src/storage/Database.cpp:282-299 | with failing writes too, passes that ended alike leave the same tables, and for a mark the new one or "0" |
| SyncTheorems.TakenClearCanBeLost | src/sync/SalesSyncService.cpp:215-217 | a failing third statement loses it: the pass begins with the cache as it was |
| SyncTheorems.PassConservesSums | src/sync/SalesSyncService.cpp:302-341 | between the store a pass began with and the one it left, whatever writes failed and wherever it stopped, the lifetime sum moved by the changes of the distinct dates completed, repetitions in the list notwithstanding |
| SyncTheorems.PassKeepsTables | src/sync/SalesSyncService.cpp:302-341 | a pass keeps both keys and forgets no product |
| SyncTheorems.DeltasAreDateChanges | src/sync/SalesSyncService.cpp:295-360 | the per-product deltas behind the notification add up to those changes, absent products counting zero |
| ResumedBackfill.BackfillResumes | src/sync/SalesSyncService.cpp:268-279 | a backfill interrupted by a failed fetch after n > 0 dates has its cursor at the n-th, and the next pass goes through exactly the reported dates above it: it resumes and does not restart |
| ResumedBackfill.SkippedIsUntouched | src/sync/SalesSyncService.cpp:271-279 | however a pass of a backfill ends, it leaves the rows up to its cursor as they were |
| ResumedBackfill.ResumedPassLosesExactly | src/sync/SalesSyncService.cpp:271-347 | after a resumed backfill has installed its mark, a date up to the cursor is wrong and unreported if and only if its old rows are wrong for the server and no event lies above that mark |
| ResumedBackfill.CodeCanLoseADate | src/sync/SalesSyncService.cpp:203-372 | two passes of the code over sound worlds, no statement failing, after which a date is lost |
| Notification.LifetimeSnapshot | src/sync/SalesSyncService.cpp:54-62 | the map built from the rows of the lifetime view |
| Notification.BuildNotification | src/sync/SalesSyncService.cpp:64-89 | the message for any order the map is walked in; non-empty if and only if some product present afterwards rose |
| Notification.LineCount | src/sync/SalesSyncService.cpp:71-83 | the number of product lines is min(6, risers), whatever the order |
| Notification.MessageTells | src/sync/SalesSyncService.cpp:54-89 | read off the tables: nothing unless some product with sales rose; else min(6, risers) different products, a line each with its catalogue name and the difference of its units over all dates, and a line with the sum of today |
| Notification.SnapshotUnits | src/sync/SalesSyncService.cpp:54-62 | the map holds for every product the sum of its rows, and no product without rows |
| Notification.RisesAddUp | src/sync/SalesSyncService.cpp:64-83 | the deltas of two snapshots add up to the change of the lifetime sum |
| Database.Database.ReplaceDate | src/storage/Database.cpp:193-280 | success if and only if the connection is open, the apps are distinct and no statement failed; then exactly one commit, in which the date has one row for each given one with its app, gross, returned and net units, other dates what they had, each product its row's name or "App N", other products what they had, and no state column changes; otherwise no commit and nothing changed |
| Database.Database.ClearAllSales | src/storage/Database.cpp:282-299 | all or nothing in one commit: both tables empty, mark "0", no time of success, no cursor, the other columns as they were |
| Database.Database.StoreRow | src/storage/Database.cpp:247-271 | one upsert under the row's name or "App N" and one insert of its figures, column by column; it fails exactly on a failing statement or a repeated app |
| Database.Database.InsertDaily | src/storage/Database.cpp:261-270 | the insert is refused exactly by a fault, the primary key or the foreign key |
| Database.Database.DeleteDate | src/storage/Database.cpp:208-244 | the date's rows go and no others |
| Database.Database.SetState | src/storage/Database.cpp:61-74 | a single column write commits by itself or does nothing |
| Database.Database.SetChangedDatesHighwatermark | src/storage/Database.cpp:125-127 | the mark alone |
| Database.Database.SetBackfillCursor | src/storage/Database.cpp:185-191 | the cursor alone; the empty text stands for NULL |
| Database.KeyClash | src/storage/Database.cpp:236-238 | inside the loop the primary key is met exactly when the row's app came up before |
| Database.ReplacedStep | src/storage/Database.cpp:247-271 | one turn of the loop extends the replacement by one row |
| Store.ReplacedIsUpdate | src/storage/Database.cpp:193-280 | a replacement is a map update at one date |
| Store.ReplacedReplaces | src/storage/Database.cpp:193-280 | the date's rows hold the given figures column by column, in order; the catalogue takes their names; nothing else changes |
| Store.SelectedAre | src/storage/Database.cpp:301-380 | the three WHERE clauses select the rows of the date, of the dates from first to last inclusive, and all |
| Store.ReplacedIsValid | src/storage/Database.cpp:193-280 | with distinct apps it keeps (date, app) unique, products unique, and every row's product present |
| Store.UpsertAllKeys | src/storage/Database.cpp:225-259 | the catalogue gains exactly the apps of the rows and stays unique |
| Store.NamesComeFromTheRows | src/storage/Database.cpp:225-259 | after a replacement each of its apps has the entry written from its row, and all others what they had |
| Store.ReplacedNames | src/storage/Database.cpp:225-259 | that entry carries the row's name, or "App N" if it has none, and the time |
| Store.SameDailySameTable | src/storage/Migrations.cpp:30-39 | equal rows on every date make equal tables, as multisets |
| Migrations.ApplyMigrations | src/storage/Migrations.cpp:105-122 | ends at version 2, or at the last step that applied; an empty file gets the empty cache with mark "0"; a version-1 file in mid-backfill gets as cursor the newest date with a row, else none, and keeps all other columns; an up-to-date file is left alone without a statement |
| Migrations.ApplyStep | src/storage/Migrations.cpp:77-87 | a script, statement by statement, happens entirely or not at all |
| Migrations.SchemasApplied | src/storage/Migrations.cpp:11-66 | run to its end the first script leaves the empty cache with mark "0", the second a seeded cursor and all else as it was |
| Migrations.UpgradedIsMigrated | src/storage/Migrations.cpp:51-66 | for a version-1 file with mark "0" and rows the cursor is the date of a stored row and no stored date exceeds it; otherwise it stays empty; all other columns stay |
| Migrations.UpgradedIsSeeded | src/storage/Migrations.cpp:105-122 | however far it goes up, a well-formed file ends seeded and otherwise as it was |
| Migrations.Open | src/storage/Database.cpp:82-101 | open exactly when the schema could be brought up to date, with that meaning for the file, and else the file is as it was; all its commits are the empty schema or the final state |
| Migrations.MaxDateIsMax | src/storage/Migrations.cpp:59-63 | the seeded cursor is a stored date and no stored date exceeds it |
| Migrations.UpgradeInStages | src/storage/Migrations.cpp:105-122 | migrations interrupted and taken up again end where an uninterrupted one does |
| Views.ViewsAgreeWithSums | src/storage/Database.cpp:301-380 | under both keys the units of the day, range and lifetime views add up to the scalar sums |
| Views.QueryDateListsEveryProduct | src/storage/Database.cpp:301-319 | the day view is one line per known product with its units of that day or 0, most units first, then by name without case |
| Views.QueryRangeLists | src/storage/Database.cpp:321-340 | the range view is one line for each product with a row from first to last, with its catalogue name and its net units there, most units first, then by name without case |
| Views.QueryLifetimeLists | src/storage/Database.cpp:342-357 | the lifetime view is the same over all rows |
| Views.DateShowsNet | src/storage/Database.cpp:359-365 | a date replaced by the aggregate of its records sums to the net units of the records that count |
| Views.OrderByOrdered | src/storage/Database.cpp:311 | descending units, then name without case |
| Views.SumByProductIsNetSum | src/storage/Database.cpp:321-357 | with unique products and no orphans every row counts under exactly one product |
| Views.RangeSumsAdd | src/storage/Database.cpp:367-374 | adjacent ranges add up |
| Views.ReplacedSum | src/storage/Database.cpp:193-280 | a replacement moves the lifetime sum by its date's change |
| RollingWindows.RollingSumIsDayByDay | src/app/App.cpp:352-369 | the figure of the last n + 1 days, in the tray and as total of the sales window, is the sum of the figures of those days, each once |
| RollingWindows.TodayIsNoDaysAgo | src/platform/TimeUtil.cpp:58-60 | `SteamToday` and zero days ago are one text |
| SteamDate.SteamDateDaysAgo | src/platform/TimeUtil.cpp:95-120 | the function with its fallbacks and unsigned wrap-around |
| SteamDate.AgoIsEarlier | src/platform/TimeUtil.cpp:95-120 | it names the calendar date n days earlier, at any time of day, as far back as 1601 |
| SteamDate.FormatOrder | src/platform/TimeUtil.cpp:40-45 | texts of dates up to year 9999 compare as the dates do |
| SteamDate.FormatIs | src/platform/TimeUtil.cpp:40-45 | the ten characters of the text: four digits, '/', two, '/', two |
| SteamDate.DayNumberOrder | src/platform/TimeUtil.cpp:100-111 | so do day counts since 1601 |
| SteamDate.DayNumberIs | src/platform/TimeUtil.cpp:100-111 | the day count in closed form: 365 days a year, leap days by the rules of 4, 100 and 400, the table of month starts |
| SteamDate.EpochDay | src/platform/TimeUtil.cpp:100-111 | 1970-01-01 is day 134,774 |
| SteamDate.MidnightFollows | src/platform/TimeUtil.cpp:107-111 | the last millisecond of a day and the next midnight are 10,000 ticks apart, so the ticks of a day are those of 24 hours |
| SteamDate.DateAtInverts | src/platform/TimeUtil.cpp:115-119 | the date of a day count has that day count |
| SteamDate.WindowIsExact | src/sync/SalesSyncService.cpp:265-276 | a date's text lies between n days ago and today if and only if it is one of 0..n days ago |
| SteamDate.WindowIsDistinct | src/platform/TimeUtil.cpp:95-120 | and those n + 1 texts differ |
| Text.SortAscending | src/sync/SalesSyncService.cpp:266 | the sorted list ascends and has the same dates |
| Aggregator.AggregateDate | src/sync/SalesAggregator.cpp:12-51 | the index-map loop yields, in first-seen order, per product the sums over the records that count and the last non-empty name |
| Aggregator.AggregateGrows | src/sync/SalesAggregator.cpp:18-48 | what each further record does: of another line-item or package type than Package and Steam, or without app, nothing; the first of an app adds a row at the end with its figures; a later one adds its figures to that row and, if it has a name, renames it |
| Aggregator.RowsHoldNet | src/sync/SalesAggregator.cpp:12-51 | the rows hold the net units of the records that count, none lost or invented |
| Aggregator.AggregatedIsKeyed | src/sync/SalesAggregator.cpp:24-38 | app ids of the rows are distinct and not 0, so a replacement never meets its primary key |
| Aggregator.AppsAreDistinctAndCounted | src/sync/SalesAggregator.cpp:19-38 | there is a row exactly for each product with a counted record |
| Aggregator.AggregateOfPages | src/sync/SalesAggregator.cpp:12-51 | aggregating a concatenation of pages is merging the page aggregates |
| Aggregator.TotalsIgnoreOrder | src/sync/SalesAggregator.cpp:39-42 | the three totals do not depend on the order of the records |
| Aggregator.AppsIgnoreOrder | src/sync/SalesAggregator.cpp:28-38 | nor does the set of products |
| SteamClient.GetAllDetailedSalesForDate | src/steam/SteamFinancialClient.cpp:171-199 | the loop follows the cursor to its fixpoint, fails with the reason of the first page refused, and ends within 10,000 requests against any server |
| SteamClient.PaginationIsComplete | src/steam/SteamFinancialClient.cpp:171-199 | against an unchanging ledger a successful fetch returns in id order, once each, as many records as the requests can carry; all of them if and only if they fit |
| SteamClient.TenThousandFit | src/steam/SteamFinancialClient.cpp:24-25 | against an unchanging ledger a date of up to 10,000 records comes back whole, whatever the size of the pages |
| SteamClient.FetchIsTornAtWorst | src/steam/SteamFinancialClient.cpp:171-199 | with the ledger changing between requests, the fetch is whole unless the date itself changed |
| Query.EncodeComponent | src/network/UrlEncoder.cpp:20-33 | the loop encodes octet by octet |
| Query.DecodeEncoded | src/network/UrlEncoder.cpp:9-33 | percent-decoding (sections 2.1 and 2.3 of RFC 3986) inverts it on every byte string |
| Query.PlainOctets | src/network/UrlEncoder.cpp:9-33 | letters, digits, '-', '.', '_' and '~' stay, every other octet becomes '%' and two upper-case hexadecimal digits |
| Query.EncodedIsPlain | src/network/UrlEncoder.cpp:9-33 | encoded text holds no '&' and no '=' |
| Query.QueryRoundTrip | src/steam/SteamFinancialClient.cpp:29-40 | splitting a rendered query and decoding gives back its parameter list, whatever bytes the values hold |
| Query.BuildQuery | src/steam/SteamFinancialClient.cpp:29-40 | key, constant parameter, extras |
| Query.ChangedDatesQuery | src/steam/SteamFinancialClient.cpp:108-112 | the query reads back as key, constant and mark, an empty mark as "0" |
| Query.DetailedSalesQuery | src/steam/SteamFinancialClient.cpp:145-150 | the query reads back as key, constant, date and page cursor |
| Query.ParamsAre | src/steam/SteamFinancialClient.cpp:31-34 | the names and constant values of the parameters |
| Worker.StepInv | src/sync/SalesSyncService.cpp:111-217 | each step of either thread keeps: an unserved request is visible to the worker, at most one pass starts after stop, a clear is taken no more often than stored |
| Worker.NoLostWakeUp | src/sync/SalesSyncService.cpp:120-131 | in every interleaving a request whose SetEvent has returned is followed, within a bounded number of the worker's steps, by a pass that starts later, unless stop is set |
| Worker.NeverStuck | src/sync/SalesSyncService.cpp:191-193 | and until then the worker can take a step |
| Worker.AtMostOneRunAfterStop | src/sync/SalesSyncService.cpp:111-118 | at most one pass starts after stop |
| Worker.NoPassWithoutCause | src/sync/SalesSyncService.cpp:181-200 | passes never outnumber the events set, deadlines passed and a startup that runs: a wake-up uses up its event |
| Worker.StopIsBounded | src/sync/SalesSyncService.cpp:111-118 | after stop the worker has exited within a bounded number of its steps, and always has one to take: the join returns |
| Worker.ClearSurvives | src/sync/SalesSyncService.cpp:215-217 | a stored flag stays until an exchange finds it |
| Worker.ClearTakenOnce | src/sync/SalesSyncService.cpp:215-217 | a pending clear is consumed exactly once if it is gone, and not at all if it is still there |
| Worker.FailedOpenKeepsClear | src/sync/SalesSyncService.cpp:209-217 | a pass that cannot open the database takes no clear from its start to the return to waiting, in any interleaving: what was pending at its start or stored meanwhile is pending at its end |
| Worker.ClearIsServed | src/sync/SalesSyncService.cpp:128-131 | a clear request is followed by a pass that starts with the flag set, or an earlier pass took it after the request |
| Worker.WaitIsBounded | src/sync/SalesSyncService.cpp:152-163 | the wait is unlimited only in manual mode, whatever settings preceded, and otherwise ends by the deadline |
| Worker.WaitIsExact | src/sync/SalesSyncService.cpp:152-178 | after a pass under an interval the wait ends exactly when the interval has gone by, and is none from then on, whatever interval is chosen meanwhile; in manual mode it is unlimited |
| Redaction.RedactSecrets | src/platform/Logging.cpp:95-109 | the in-place loop ends, although the text may grow, and yields the redacted text |
| Redaction.EveryKeyIsRedacted | src/platform/Logging.cpp:95-109 | every "key=" of the output is followed by REDACTED and then a delimiter or the end |
| Redaction.WholeValueGoes | src/platform/Logging.cpp:95-109 | a value, whatever it holds, is replaced whole up to the next '&', blank, tab, line break or quotation mark, or the end, and the rest is read on from there |
| Redaction.RedactionIsIdempotent | src/platform/Logging.cpp:95-109 | redacting twice is redacting once |
| Redaction.OutsideIsKept | src/platform/Logging.cpp:95-109 | everything outside the values stays, in order |
| Decimal.FormatThousands | src/platform/StringUtil.cpp:10-31 | the loop over the reversed digits, in 64-bit types without overflow, the minimum included |
| Decimal.ThousandsRoundTrip | src/platform/StringUtil.cpp:10-31 | dropping the commas and reading the rest gives the number back |
| Decimal.CommaPositions | src/platform/StringUtil.cpp:19-25 | commas stand exactly at three-digit groups from the right |
| Decimal.ThousandsIsCanonical | src/platform/StringUtil.cpp:10-31 | a minus sign before negative numbers and else digits and commas only, a digit first, and "0" first for zero only |
| KeyFile.Frame | src/security/DpapiSecretStore.cpp:134-140 | the bytes of the envelope, field by field |
| KeyFile.EnvelopeBytes | src/security/DpapiSecretStore.cpp:134-140 | the file byte by byte: "SSTK", 1, 0, 0, 0, the length lowest byte first, the blob |
| KeyFile.ParseFramed | src/security/DpapiSecretStore.cpp:150-186 | a blob of 1 to 1,048,576 bytes is recovered from its envelope, and the envelope of any other is refused |
| KeyFile.AcceptsOnlyEnvelopes | src/security/DpapiSecretStore.cpp:150-186 | the parser accepts a file if and only if it is such an envelope, the two reserved bytes aside |
| KeyFile.LoadableIffStoredAndWhole | src/security/DpapiSecretStore.cpp:150-211 | what `Load` needs beyond `HasStoredKey` |
| KeyFile.StoredKeyMayNotLoad | src/security/DpapiSecretStore.cpp:150-211 | a header with no blob counts as stored and does not load |
| KeyFile.StoreThenLoad | src/security/DpapiSecretStore.cpp:113-186 | what was stored is what is loaded |
| KeyFile.Disk.WriteFileAtomic | src/security/DpapiSecretStore.cpp:33-63 | at every crash point the path holds the old file or the whole new one and no file but the temp file is touched; success exactly when every call succeeded |
| KeyFile.Disk.FillTemp | src/security/DpapiSecretStore.cpp:43-53 | create, write, flush on the temp file |

## Left out

- The user interface, tray, dialogs, messages, registry settings and single-instance mutex: foreign calls with little logic. The status object's mutex and time stamps, and the posted window messages.
- WinHTTP, TLS, JSON parsing and the texts of HTTP errors: a fetch is a page or a failure of some kind.
- SQLite itself: a failing COMMIT (the code neither retries nor rolls it back), a failing read of `sync_state` or of the schema version, ignored PRAGMA failures, and the order of lines that tie in ORDER BY.
- The second connection that the tray reads through, and the migration it may run: its reads are `Views` on a committed state.
- Clocks, time zones and `SecondsSinceUtc`: "now" is an input, and so is the startup decision whether the last success is recent.
- 64-bit overflow of sales figures: they are mathematical integers, in `BuildNotification` too; `FormatThousands` has its machine types.
- DPAPI, memory wiping and the wide-string overload of `EncodeComponent`.
- Migrations.SchemasApplied: the statements that create tables, indices and the version row change nothing the model keeps of a file; the row of `sync_state` is inserted with the column defaults of the schema.
- Log rotation and the log writer: only `RedactSecrets`.
- Worker.NoLostWakeUp: speaks of the worker's own steps, since a pass takes an unknown but finite number of them; fairness of the scheduler is not modelled.
- Worker.ClearIsServed: a clear that was taken and whose transaction then failed is not repeated; the code ignores that result.
- SteamClient.PaginationIsComplete: beyond 10,000 requests the code reports success with what it has; that is the case in which the equivalence is false on both sides.
- Database.Database.ReplaceDate: the preparation and the execution of each statement may fail; COMMIT may not.
- RollingWindows.RollingSumIsDayByDay: supposes that the dates stored are calendar dates in the service's format.
