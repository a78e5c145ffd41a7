# StarBase: a verified model

StarBase indexes FITS and XISF frames into a relational store: a threaded sweep walks a root, a
reconciliation pass finds out what moved and what is missing, a filter compiler turns JSON into SQL,
and handlers keep derived columns up to date. This project models that logic in Dafny and proves what
it promises. The tables are maps with the keys and cascades of the schema; statements are updates of
them. What stat, CFITSIO, the clock, the server and the disk answer are arbitrary inputs.

| part | modules |
|---|---|
| sweep and reconciliation | `BoundedQueue`, `Tables`, `Upserts`, `FrameStore`, `Database`, `Sweep`, `Racing`, `Rereading`, `Scanner`, `Artifacts`, `SidecarMove`, `Reconcile`, `Runs`, `Returns`, `SessionZone`, `StoreStatements`, `Sidecars`, `HeaderSearch` |
| filters and object names | `Canon`, `Messier`, `CanonLaws`, `Spellings`, `SqlText`, `SqlParser`, `SqlReading`, `SqlMeaning`, `Numerals`, `Query`, `FilterMeaning`, `FilterReading`, `FilterLaws`, `FilterAnswers`, `FilterAccepted`, `FilterGrammar`, `FilterColumns` |
| derived state | `Equipment`, `Convergence`, `Rigs`, `ScanSlot`, `Calibration`, `Clusters` |
| codecs and calendar | `FitsText`, `Xisf`, `XisfRoundTrip`, `XisfWalk`, `Calendar`, `Night` |
| shared | `Options`, `Chars`, `Decimal` |

`dafny verify dfyconfig.toml` checks all of it.

Code that changes state step by step (the queue, the tables, the worker loop, linking, reconciliation, the
resolver's caches, the rig handlers, the scanning loops) is modelled as classes and methods proved against
specification functions; the theorems are lemmas about those functions. The queue, the sweep's workers, the
equipment caches and the scan slot are interleaving machines besides; the queue's runs on the queue class
itself (`BoundedQueue.RunPool`), the workers' on the database (`Scanner.WorkTurns`). The theorems about scans
hold however the workers interleave, and say so where they need that a scan was not stopped or broken off.
The filter theorem goes through text: it prints the SQL, lexes and parses it with the server's precedence,
and evaluates the result in three-valued logic.

## What the proofs turned up

Where the code does less than its comments or documentation say, the model follows the code, gives an
input on which the promise fails, and proves the exact condition under which it holds.

- An error row's `first_seen_utc` is left to the column default, `CURRENT_TIMESTAMP(6)`
  (sql/schema.sql:290), while the sweep's start is `UTC_TIMESTAMP(6)`. With a database session east of
  UTC a repaired file's row can later be taken for its own duplicate and be deleted with its frames:
  `SessionZone.EastOfUtcLosesRow` is such a run for every zone east of UTC, and runs lose nothing if and
  only if the session is not east of it (`SessionZone.LosslessWestOfUtc`). For one scan, in any zone,
  `Runs.FrameLost` says exactly which frames go.
- docs/ARCHITECTURE.md:124-125 says that a missing file that returns at a new path is linked again. A
  row that is missing already is no move candidate (src/scan/scanner.cpp:155). A scan links a missing row
  again if and only if the workers act on its own path (`Runs.MissingReturns`); `Returns.LeftBehind` is a
  file that comes back elsewhere and is indexed beside its missing row.
- A worker's equipment cache outlives the rollback of the transaction that created the row, so
  "never a wrong id" (src/index/equipment.hpp:33-35) fails exactly when a rolled-back row is cached
  (`Convergence.RollbackSafe`, `Convergence.RolledBackId`). A filter name longer than its column
  (sql/schema.sql:158) never gets an id.
- A numeric column accepts every string that `std::stod` reads to its end, and the server reads some of
  them otherwise: `inf`, `nan` and `0x1p3` as column names, `0x1.8` and `nan(1)` not as one operand at
  all. A filter is read within its vocabulary if and only if its numbers given as strings are decimal, or
  0x and hexadecimal digits (`FilterGrammar.FilterVocabulary`); `FilterLaws.InfinityEscapes`,
  `Numerals.HexPowerIsNamed` and `Numerals.HexPointIsTorn` give the others.
- An object search reads `object_canonical` but is offered as the result column `object`
  (`FilterColumns.FieldsAreColumnsRead`).
- Caldwell numbers have a canonical form that is no longer recognised as one (`CanonLaws.CatalogStable`).
- A new or changed range can take frames that the resolver gives to another rig (`Rigs.OverlapDisagrees`).
  The exact conditions are `Rigs.CreateAgrees` and `Rigs.EditAgrees`: no frame in the new range is covered
  by another active rig and, for an edit, the rig is not retired. Without the overlap warning the first
  holds (`Rigs.UnwarnedCreate`, `Rigs.UnwarnedEdit`).
- A scan's registry of rigs is taken once and shared by its workers (src/scan/scanner.cpp:263-270), so
  "never a wrong or duplicated id" (src/index/equipment.hpp:33-35) also fails when a rig is edited meanwhile,
  even without a warning: `Rigs.StaleStore`. What a store keeps, with whatever registry, is exactly
  `Rigs.StoreAgrees` and `Rigs.StoreCovers`; if the rig is deleted meanwhile the store is refused
  (`Rigs.StoreAfterDelete`).
- Sidecars are linked before reconciliation deletes the duplicates of moved files. A sidecar found beside a
  moved frame is linked to the duplicate and loses the link in the same scan (`Artifacts.MovedUnlinked`,
  `SidecarMove.SidecarLeft`); `Artifacts.LinkAfter` says which link every sidecar has after a scan. A link
  made to a frame whose file is not new outlives the scan (`Artifacts.ElderLinkHolds`) and all that follow
  (`Artifacts.LinkNeverLost`).
- docs/ARCHITECTURE.md ranks calibration frames by nearness in time; frames without a date come before all
  others (`Calibration.NearestFirst`).
- The decoders of quoted values for FITS and XISF differ on leading blanks (`FitsText.DecodersAgree`).
- An unquoted XISF value can be mistaken for the start of a comment (`XisfRoundTrip.UnquotedMisread`); a
  header comes back as it was printed if and only if no card's value does that, is padded, or is in quotes
  it was not given (`XisfRoundTrip.CommentKept`, `XisfRoundTrip.CardKept`, `XisfWalk.HeaderBack`).
- The observing night is absent for one valid instant, the last second of 1969 (`Night.NoNight`).

## Model

| member | source | states |
|---|---|---|
| `BoundedQueue.Queue.constructor` | src/scan/bounded_queue.hpp:27 | A requested capacity of 0 becomes 1; the queue starts empty and open. |
| `BoundedQueue.Queue.Push` | src/scan/bounded_queue.hpp:31-39 | Once its wait is over, a push is refused exactly when the queue is closed; an accepted value joins at the back and nothing else changes. |
| `BoundedQueue.Queue.Pop` | src/scan/bounded_queue.hpp:43-52 | Once its wait is over, a pop takes the front; it returns nothing only when the queue is closed and drained. |
| `BoundedQueue.Queue.Close` | src/scan/bounded_queue.hpp:55-59 | Closing changes the flag and keeps every queued item. |
| `BoundedQueue.EveryReachableState` | src/scan/bounded_queue.hpp:31-62 | In every state of every run, with any number of producers and consumers, spurious wakeups included: the length is at most the capacity, accepted items are popped items followed by queued ones, and no wakeup is lost. While consumers sleep, woken consumers plus notifications due are at least the queue length; dually for producers and free slots; a closed queue has no sleeper that close() will not reach. |
| `BoundedQueue.InvStep` | src/scan/bounded_queue.hpp:31-62 | Each single step (enqueue, dequeue, sleep, notify_one to any sleeper, notify_all, close) keeps that invariant. |
| `BoundedQueue.NoSleeperWithWork` | src/scan/bounded_queue.hpp:33-60 | When nothing can move, consumers sleep only on an empty open queue and producers only on a full open one; once closed, every thread has finished. |
| `BoundedQueue.MeasureDrops` | src/scan/bounded_queue.hpp:31-62 | Every real step uses up a natural-number measure, so no run of real steps is infinite. |
| `BoundedQueue.RunLength` | src/scan/bounded_queue.hpp:31-62 | A run without spurious wakeups has at most as many steps as the measure of its first state. |
| `BoundedQueue.PoolDrains` | src/scan/scanner.cpp:410-468 | A pool with a worker and a producer that closes can only stop with every thread finished and everything accepted popped, in order. |
| `BoundedQueue.WalkingStep` | src/scan/scanner.cpp:443-468 | With one producer that walks and then closes, no push is ever refused: accepted items followed by items still to offer are always the walk. |
| `BoundedQueue.RunPool` | src/scan/scanner.cpp:410-468 | Under an arbitrary scheduler and an arbitrary choice of sleeper at each notification, the pool ends and the workers have received exactly the walked items, in walk order. |
| `Upserts.Upsert.Str` | src/index/frame_store.cpp:39-41 | Appends one column and its value: the escaped and quoted string, or NULL. |
| `Upserts.Upsert.Raw` | src/index/frame_store.cpp:35-38 | Appends one column and its SQL value, in the order of the calls. |
| `Upserts.Upsert.Num` | src/index/frame_store.cpp:42-47 | Appends one column and the decimal text of its whole number, or NULL. |
| `Upserts.Upsert.Real` | src/index/frame_store.cpp:48-50 | Appends one column and its number with six decimals, or NULL. |
| `Upserts.Upsert.Bit` | src/index/frame_store.cpp:51 | Appends one column and 1 or 0. |
| `Upserts.Upsert.Build` | src/index/frame_store.cpp:55-71 | Builds the columns, their values and an update of every column that is not insert-only, whatever was added. |
| `Upserts.UpsertReads` | src/index/frame_store.cpp:55-71 | A built statement whose values are each one value of the lexed text is read as one value for each column, in order, and as an update of exactly the columns that are not insert-only. |
| `Upserts.KeptAmong` | src/index/frame_store.cpp:64-66 | The updated columns are the given ones that are not insert-only: first_seen_utc is left alone on re-index. |
| `Upserts.StrValue` | src/index/frame_store.cpp:39-41 | A string given to str is one closed literal that denotes it character for character. |
| `StoreStatements.GivenStands` | src/index/frame_store.cpp:35-52 | Everything the store gives a column (strings, NULL, whole numbers, reals, flags, path hashes, fingerprints, the current instant) is read as one value of its statement. |
| `StoreStatements.StatementReads` | src/index/frame_store.cpp:55-71 | So every statement built from such values, whatever they are, is read as one value for each column, in order, and an update of every column that is not insert-only. |
| `StoreStatements.FileStatement` | src/index/frame_store.cpp:100-118 | The calls that write the row of a file build the statement of its fifteen values. |
| `StoreStatements.FileStatementReads` | src/index/frame_store.cpp:100-118 | That statement is read as those values, and on a known path updates every column but first_seen_utc. |
| `StoreStatements.FrameStatementReads` | src/index/frame_store.cpp:136-181 | The statement for a frame is read as its thirty-six values, and updates every column. |
| `FrameStore.ImageHdusNumbered` | src/fits/fits_reader.cpp:86-91 | The image HDUs are exactly those with pixels and at least one axis, in order, with distinct numbers. |
| `FrameStore.StoredEffect` | src/index/frame_store.cpp:98-216 | One committed transaction keeps every key constraint, keeps file and frame ids and first-seen, loses no frame or tag (not even of an HDU that disappeared), shows the new columns and the new frames at the path, and changes nothing any other path shows. |
| `FrameStore.CardsStored` | src/index/frame_store.cpp:191-213 | The cards stored for each image HDU are the header's cards in order, cut to the column widths, empty values as NULL. |
| `FrameStore.HeadersStored` | src/index/frame_store.cpp:98-216 | After a store the path's row has its place, size, mtime and inode, status ok and no error, and the frame of every image HDU has as many cards as the header: a value of 1 to 256 characters as it is, a longer one cut to 256, an empty one as NULL; a comment the same; a keyword cut to 72. |
| `FrameStore.StoredTwice` | src/index/frame_store.cpp:87-223 | Storing the same file again changes nothing but the two stamps of its row. |
| `HeaderSearch.HeldCards` | src/index/frame_store.cpp:191-213 | A frame so stored has a card of a kind in the database if and only if its header has one on disk, whatever other frames hold. |
| `HeaderSearch.StoredCardSelected` | src/query/query.cpp:78-119 | From disk to search: the compiled filter keyword:kw eq s, read and evaluated by the server, selects a stored frame if and only if its header has a card whose keyword meets kw and whose value meets s, within the column widths. |
| `HeaderSearch.StoredNumberSelected` | src/query/query.cpp:78-119 | And keyword:kw lt d if and only if its header has such a card whose value, read as a decimal, is less than d as printed. |
| `HeaderSearch.StoredCardFound` | src/query/query.cpp:78-119 | So every card that fits the columns is found under its own keyword and value. |
| `FrameStore.FileUpsertedEffect` | src/index/frame_store.cpp:100-128 | The file upsert gives exactly one row at the path, with status ok and no error; a known path keeps its id and first-seen, a new path gets a new id and no frames. |
| `Database.Database.SelectFile` | src/index/frame_store.cpp:122-127 | Reading the id back by the unique key finds the row of the path if and only if there is one. |
| `Database.Database.SelectFrame` | src/index/frame_store.cpp:183-188 | Reading a frame id back by file and HDU finds that frame if and only if there is one. |
| `Database.Database.UpsertFile` | src/index/frame_store.cpp:100-118 | The statement changes the tables as the file upsert specifies, by key, on duplicate as on insert. |
| `Database.Database.UpsertFrame` | src/index/frame_store.cpp:136-188 | The frame upsert writes the row of its file and HDU and returns its id. |
| `Database.Database.ReplaceCards` | src/index/frame_store.cpp:193-213 | Deleting and re-inserting leaves exactly the header's cards for the frame, in header order, each with its keyword, its value and its comment cut to the column widths, NULL where it has none. |
| `Database.Database.StoreFrames` | src/index/frame_store.cpp:131-214 | The loop over image HDUs stores every one of them, unless the fault comes first. |
| `Database.Database.StoreFileOnce` | src/index/frame_store.cpp:98-220 | A transaction is all or nothing: it commits exactly when no statement fails, and otherwise leaves the tables as they were. |
| `Database.Database.StoreFile` | src/index/frame_store.cpp:235-246 | At most ten attempts; each but the last failed retryably; success applies exactly one attempt and comes if and only if some attempt before the giving-up point succeeds, and then the row holds what was found on disk and every image its header; a failure leaves the tables unchanged and is non-retryable or the tenth. |
| `Sweep.HandledEffect` | src/scan/scanner.cpp:317-406 | Handling one item keeps the tables valid, loses nothing, and changes what its own path shows as specified (skipped, stored, or error row) and what no other path shows. |
| `Sweep.SkipsSeen` | src/scan/scanner.cpp:354-371 | An item is skipped exactly when its path shows status ok, the same size and the same mtime second. |
| `Sweep.RunKeepsInv` | src/scan/scanner.cpp:295-408 | For items with distinct paths, after any interleaving of the workers' look-ups and writes the tables are valid, nothing is lost, and each finished item's path shows what that item makes of the starting tables. |
| `Sweep.SweptEffect` | src/scan/scanner.cpp:295-408 | Sequential processing in walk order has that effect on every path. |
| `Sweep.Confluence` | src/scan/scanner.cpp:295-408 | However the workers interleave and whatever the stamps, a finished sweep shows at every path (status, columns, frames, header cards) what the sequential sweep shows. |
| `Rereading.ReadAgain` | src/scan/scanner.cpp:354-406 | What a path shows once a worker has finished its item, however the workers interleaved: a clean file of the same size and the same mtime second is left as it was; any other is read again and then shows its own place, size, times, inode and every image's header cards, or the error over whatever frames it showed. |
| `Rereading.EndsClean` | src/scan/scanner.cpp:354-388 | Either way a file that can be read and stored ends clean, with its size and the second of its mtime. |
| `Rereading.SameNineteen` | src/scan/scanner.cpp:84-92 | The first 19 characters of two DATETIME(6) texts of the years 0 to 9999 are the same if and only if the times lie in one second. |
| `Racing.Linearized` | src/scan/scanner.cpp:295-408 | However the workers interleave, and whether or not they finish every item, the tables they leave, ids and stamps included, are those of the finished frame files worked on one after the other, in the order in which they were written, each at the instant of its write. |
| `Scanner.Tally.constructor` | src/scan/scanner.cpp:240-241 | All eight counters start at zero. |
| `Scanner.UpsertError` | src/scan/scanner.cpp:393-405 | The error row: a new path gets one, with first-seen at the column default in the session's zone; a known path keeps its columns and frames and changes status, error and last-seen. |
| `Scanner.Work` | src/scan/scanner.cpp:307-407 | One pass through the loop body that nobody disturbs changes files, artifacts and counters as specified for the item's case; after a stop request it changes nothing. |
| `Scanner.LookUp` | src/scan/scanner.cpp:312-371 | The first half of the pass: whatever is no frame file is counted, and a recorded sidecar written, and done with; for a frame file a job is left that says whether the path is indexed and which row to touch, if the file is unchanged. |
| `Scanner.Finish` | src/scan/scanner.cpp:366-406 | The second half: the row is touched, or the file stored, or the error recorded, and exactly one more counter goes up, with the frames written if it was stored. |
| `Scanner.WorkTurns` | src/scan/scanner.cpp:295-408 | Turn by turn, in whatever interleaving, the workers leave the tables of the interleaving machine, the sidecars recorded, and counters that depend on the tables before the sweep and on which items are finished, not on the order. |
| `Scanner.TotalBalanced` | src/scan/scanner.cpp:312-391 | When nobody is in the middle of an item, seen is the number of finished items that still existed, and each of them is in exactly one of settling, artifacts, skipped, added, updated, errored. |
| `Scanner.CountersMean` | src/scan/scanner.cpp:312-391 | Each counter in terms of the disk and of what the paths showed before the sweep: added counts the stored files whose path had no row, updated those whose path had one, skipped the clean ones that were the same, errored what could not be recorded, read or stored, and so on; frames the image HDUs of the stored files. |
| `Scanner.ScanRoot` | src/scan/scanner.cpp:239-513 | The whole pass, for any interleaving of the workers, with or without a stop request, and with an exception at any statement of linking or reconciliation: the pool delivers every item, files and artifacts become what the scan machine says, and the counters balance. |
| `Artifacts.RecordedAllGrows` | src/scan/scanner.cpp:328-353 | In whatever order the workers act, every sidecar they recorded has a row with what they saw of it; no row goes, and no row changes its path or its link. |
| `Artifacts.RecordedOnly` | src/scan/scanner.cpp:328-353 | Every row at a path they did not record is one that was there, unchanged. |
| `Artifacts.Shelf.SelectNeighbour` | src/scan/scanner.cpp:484-494 | The query with its escaped LIKE pattern gives the least id among the frames of FITS and XISF files that start with the sidecar's directory, stem and a point, and none only if there is no such frame. |
| `Artifacts.Shelf.LinkSidecars` | src/scan/scanner.cpp:471-498 | The pass links the rows of the root that have no link, each to that frame; it links none if the scan recorded no sidecar, all of them if nothing is thrown, and whatever it got to otherwise. |
| `Artifacts.LinkAfter` | src/scan/scanner.cpp:471-513 | After a scan, however it ended, a link that was there stands if and only if its frame does; a sidecar without one that the pass got to is linked to the least frame of its directory and stem, unless that frame goes with this very scan, which it does if and only if the guard passes and the frame's row is the move target of a vanished row the pass gets to. |
| `Artifacts.ShelfSound` | sql/schema.sql:494-509 | A scan keeps the artifacts' path keys unique and every link leading to a frame, and no artifact's row goes. |
| `Artifacts.LinkNeverLost` | src/scan/scanner.cpp:328-353 | A sidecar linked to a frame whose file was first seen before them stays linked to it over any number of scans, whatever is recorded, moved, deleted or linked meanwhile. |
| `Artifacts.ElderLinkHolds` | src/scan/scanner.cpp:471-513 | A link that a scan finds or makes to a frame whose file was first seen before it outlives it. |
| `Artifacts.MovedUnlinked` | src/scan/scanner.cpp:471-513 | The failure: a file moves cleanly and a sidecar without a link is recorded beside its new path, where nothing else shares its stem. After the scan the frame stands beside the sidecar, and the sidecar has no link. |
| `SidecarMove.SidecarLeft` | src/scan/scanner.cpp:471-513 | An instance: one clean file and its sidecar, found together under a renamed directory. After the scan the sidecar's row has no link, and the file's frame stands beside it. |
| `Reconcile.MovesMatch` | src/scan/scanner.cpp:169-200 | Moves pair vanished rows with appeared rows injectively, on equal non-empty fingerprint lists that no other vanished or appeared row has. |
| `Reconcile.LookupFindsTarget` | src/scan/scanner.cpp:176-199 | The three tables the code builds (first index by key, ambiguous keys, vanished-key counts) find a target for a vanished row exactly when it has one, and that one. |
| `Reconcile.ReconcilingValid` | src/scan/scanner.cpp:193-221 | At every turn of the loop the tables are valid; above all no two rows have one path key. |
| `Reconcile.TargetPathFree` | src/scan/scanner.cpp:200-215 | Before the DELETE the new path belongs to the duplicate row alone, so after it the UPDATE cannot violate the unique key. |
| `Reconcile.UpdateAnchor` | src/scan/scanner.cpp:204-215 | The re-anchoring UPDATE, which the unique key must admit, copies path, size, mtime, inode and status to the surviving row and leaves its id. |
| `Reconcile.ReconcileRoot` | src/scan/scanner.cpp:131-223 | In numbers: if no clean row was counted before, or at least one row was touched and twice the touched rows and one is not less than that count, each vanished row is moved or marked missing as the matching says, moved + missing is the number of vanished rows, and the live paths are those the sweep touched; in every other case the tables are unchanged and nothing is counted. If a statement throws, the tables are those after some of the statements, in order. |
| `Reconcile.LiveIsTouched` | docs/ARCHITECTURE.md:112-126 | The sweep alone is authoritative: after the pass the paths of the rows that are not missing are exactly the paths of the rows touched by the sweep. |
| `Reconcile.LiveCount` | src/scan/scanner.cpp:142-223 | The pass leaves exactly as many live rows as the sweep touched. |
| `Reconcile.HalfStaysLive` | src/scan/scanner.cpp:138-151 | With a positive count of clean rows before, at least one row and at least half of that count, rounded down, stay live, whether or not the guard trips. |
| `Reconcile.FramesSurvive` | src/scan/scanner.cpp:200-221 | A frame is lost only with a row first seen during the sweep; all other frames keep id, columns and cards, and tags go only with frames. |
| `Reconcile.RowDropped` | src/scan/scanner.cpp:200-221 | The pass drops a row exactly when it is some vanished row's move target. |
| `Reconcile.FrameDropped` | src/scan/scanner.cpp:200-221 | And a frame exactly when its file's row is. |
| `Reconcile.VanishedSurvives` | src/scan/scanner.cpp:193-220 | A vanished row is deleted exactly when it is its own move target. |
| `Reconcile.CutValid` | src/scan/scanner.cpp:193-221 | Cut short after any of its statements, between a DELETE and its UPDATE too, the pass leaves valid tables. |
| `Reconcile.CutDropped` | src/scan/scanner.cpp:200-221 | It has dropped a row exactly when that is the move target of a vanished row it got to. |
| `Reconcile.CutFrames` | src/scan/scanner.cpp:200-221 | And a frame exactly when it has dropped the frame's row; all other frames keep id, columns and cards, and tags go only with frames. |
| `Reconcile.CutKeepsLive` | src/scan/scanner.cpp:200-221 | What is live after the whole pass is live whenever it is cut short. |
| `Runs.ScanKeepsFrames` | src/scan/scanner.cpp:227-513 | Where no row was first seen in the future, a scan keeps the tables valid and loses no frame that was there when it started, nor its slot, flat set or tags: however the workers interleave, however the scan ends, and in whatever zone the session is. |
| `Runs.FrameLost` | src/scan/scanner.cpp:133-221 | A scan loses a frame if and only if it comes to reconciliation, the guard passes, and the frame's row is the move target of a vanished row that the pass gets to, another one or itself. |
| `Runs.ElderStays` | src/scan/scanner.cpp:200-221 | A row first seen before the scan's start is never dropped, nor any frame, slot, flat set or tag of it, however the workers interleave and however the scan ends. |
| `Runs.FramesSurviveAllScans` | docs/ARCHITECTURE.md:115-133 | Over any number of scans, interleaved, stopped or broken off as may be, with arbitrary changes on disk in between and in any session zone, every frame whose file was first seen before them survives with its slot, flat set and tags. |
| `Runs.LiveIsActed` | docs/ARCHITECTURE.md:112-126 | The sweep alone is authoritative, end to end: when the guard passes and the scan comes to its end, the paths of the rows that are not missing are exactly the paths the workers acted on, however they interleaved. |
| `Runs.PassesInNumbers` | src/scan/scanner.cpp:138-151 | The guard passes if and only if no clean row was counted before the scan, or the workers acted on at least one file and on at least half of that count, rounded down. |
| `Runs.HealthyScan` | src/scan/scanner.cpp:138-223 | So a scan that comes to its end leaves exactly the paths it acted on live when those numbers are met, and otherwise changes nothing more than the workers did. |
| `Runs.HalfLivesOn` | src/scan/scanner.cpp:138-151 | Guard or no guard, and however it ends, a scan leaves at least one live row and at least half, rounded down, of the rows that were clean before it, if there were any. |
| `Runs.AlwaysAuthoritative` | docs/ARCHITECTURE.md:112-126 | The same after any run of scans: when the last one comes to its end and its guard passes, the live paths of its root are those it acted on. |
| `Runs.CleanMove` | src/scan/scanner.cpp:196-216 | A file that is gone from its path and turns up at one new path with content nobody else shares keeps its row, its first-seen and its frame ids, with the new place, size, mtime and inode, however the workers interleaved. |
| `Runs.StaysPut` | src/scan/scanner.cpp:366-388 | A file the workers acted on keeps its row, its path and its frame ids, and is not missing, however the scan ends. |
| `Runs.FileFollowed` | docs/ARCHITECTURE.md:118-123 | A file that each scan finds in place or cleanly moved, or is stopped before it comes to, keeps its row and its frame ids throughout, and ends live at its last path. |
| `Runs.MissingReturns` | docs/ARCHITECTURE.md:124-125 | A row that is missing before a scan is linked again by it if and only if the workers act on the row's own path; in either case it stands where it stood. However they interleave, and however the scan ends. |
| `Runs.MissingNotFollowed` | src/scan/scanner.cpp:153-156 | At a new path its file gets a new row, whatever its content, unless a row that has just vanished moves there; the missing row stays missing. |
| `Returns.LeftBehind` | src/scan/scanner.cpp:153-156 | The failure: a missing file with one frame that turns up alone at a new path, content unchanged, gets a new row there, and its old row stays missing with its frame and tags. |
| `Runs.RepairedRow` | src/scan/scanner.cpp:394-404 | A row first inserted for an unreadable file keeps the insert's first-seen when the file is later indexed. |
| `SessionZone.EastOfUtcLosesRow` | src/scan/scanner.cpp:394-404 | A failure: first-seen of an error row is the column default, in the session's zone. For every zone east of UTC, by however little, three scans (a file unreadable, then repaired, then gone) lose its frame, with whatever tags it was given before the last. |
| `SessionZone.LosslessWestOfUtc` | src/scan/scanner.cpp:394-404 | Runs of scans from tables whose stamps lie in the past lose no frame, slot, flat set or tag, whatever they meet, however the workers interleave and however the scans end, if and only if the session is not east of UTC. |
| `Sidecars.EscapeLike` | src/scan/scanner.cpp:114-121 | The loop puts a backslash before each backslash, percent sign and underscore, and only there. |
| `Sidecars.PatternExact` | src/scan/scanner.cpp:114-121 | For all strings p and t and any case folding, the pattern escape_like(p) + ".%" matches t if and only if t starts with p + ".". |
| `Sidecars.SidecarPattern` | src/scan/scanner.cpp:482-494 | After SQL escaping and decoding, the statement's pattern selects exactly the paths that start with the sidecar's directory, its stem and a point. |
| `Sidecars.SharedStemFound` | src/scan/scanner.cpp:471-494 | A frame in the same directory with the same stem is matched, whatever characters the names contain. |
| `Canon.Tidy` | src/names/canon.cpp:29-38 | The loop trims the ends and joins the words by single blanks. |
| `Canon.TidyIdempotent` | src/names/canon.cpp:28-38 | Tidying twice is tidying once. |
| `Canon.CatalogNumber` | src/names/canon.cpp:142-154 | The loops read the number the specification defines: separators, digits, at most one letter, then the end. |
| `Messier.Unambiguous` | src/names/canon.cpp:75-106 | No counterpart is listed twice, so the cross-reference goes both ways. |
| `CanonLaws.CanonicalIdempotent` | src/names/canon.cpp:163-196 | Canonicalising a canonical name changes nothing, for every string. |
| `Spellings.SpellingRead` | src/names/canon.cpp:142-196 | Every spelling of a catalogue designation, its alias in any case, with whatever blanks, hyphens and underscores before its number, its letter large or small, is canonicalised to the catalogue's acronym and its number, or to the Messier designation of the same object; but sh2 and a digit is read as Sh2, not as Sh. |
| `Spellings.OneObject` | docs/ARCHITECTURE.md:255-261 | So M31, M 31, NGC224 and ngc-224 are one name: every spelling of a Messier number or of its counterpart is. |
| `CanonLaws.CatalogStable` | src/names/canon.cpp:163-196 | The catalogue of the canonical name is the one first reported if and only if that is not Caldwell's, whose canonical form is read as no catalogue at all. |
| `CanonLaws.CanonicalOfMessier` | src/names/canon.cpp:183-190 | Every counterpart of a Messier object is canonicalised to the Messier designation. |
| `CanonLaws.AltFound` | src/names/canon.cpp:109-128 | Looking a counterpart up finds its Messier number, and no other. |
| `CanonLaws.DesignationsClass` | src/names/canon.cpp:198-208 | The designations of any designation of an object are the designations of the object. |
| `CanonLaws.DesignationsOfCanonical` | src/names/canon.cpp:198-208 | The first designation is the canonical name; a second exists only for cross-referenced Messier objects and is the counterpart. |
| `CanonLaws.StoredIsNoCounterpart` | src/extract/resolver.cpp:208-210 | A stored canonical name is never, in any spelling, an NGC or IC counterpart of a Messier object. |
| `CanonLaws.SearchExact` | src/query/query.cpp:193-203 | Compared character by character, a search by b finds a frame of a if and only if their canonical names are equal, for every pair of strings. |
| `CanonLaws.SearchCaseless` | src/query/query.cpp:193-203 | Compared without ASCII case, it finds it if and only if the canonical names are equal but for case. |
| `SqlText.ScanEscaped` | src/query/query.cpp:79-82 | An escaped and quoted string is one literal of the server's lexer and denotes the string, whatever it is and whatever follows. |
| `SqlText.LexRendered` | src/query/query.cpp:225-250 | Text printed token by token lexes back to its tokens, whatever follows it. |
| `SqlParser.ReadsChain` | src/query/query.cpp:229-238 | Conditions joined by AND, or by OR, in parentheses are read under the server's precedence as the fold of exactly those conditions. |
| `SqlParser.ReadsNot` | src/query/query.cpp:100-104 | NOT before a condition is read as its negation. |
| `SqlReading.ReadsBetween` | src/query/query.cpp:213-217 | The AND of a BETWEEN belongs to the BETWEEN. |
| `SqlReading.ReadsIn` | src/query/query.cpp:205-212 | A list of literals is read as the IN of its operands, in order. |
| `SqlReading.ReadsExists` | src/query/query.cpp:117-118 | A correlated subquery is read with its source and the conjunction of its conditions. |
| `SqlReading.JoinReads` | src/query/query.cpp:159-161 | The join of the link table and its target is read with its ON condition. |
| `SqlMeaning.EvalFolded` | src/query/query.cpp:229-238 | In three-valued logic a fold of AND is false when a part is, else unknown when a part is; dually for OR. |
| `SqlMeaning.AnyEqualIsDisjunction` | src/query/query.cpp:205-212 | IN is the three-valued disjunction of its equalities. |
| `Numerals.ShownClose` | src/query/query.cpp:65-71 | A printed number differs from the number by at most half a millionth, and not at all when it has at most six decimals. |
| `Numerals.MagnitudeValue` | src/query/query.cpp:65-71 | The printed digits denote the printed number, sign included. |
| `Numerals.ExponentValue` | src/query/query.cpp:72-77 | A numeral with an exponent has the value of its digits moved by that power of ten. |
| `Numerals.HexValue` | src/query/query.cpp:72-77 | Hexadecimal digits, large or small, have the value of the number they are printed from. |
| `Numerals.NumeralYields` | src/query/query.cpp:72-77 | A string std::stod reads to its end, unless it is torn, lexes as its sign and one numeral (decimal, exponents included, or 0x and hexadecimal digits) or one name (inf, nan, 0x1p3, 0X1F). |
| `Numerals.TornLexes` | src/query/query.cpp:72-77 | A torn one (hexadecimal with a point or a signed exponent, or nan(...)) lexes, whatever follows, as its sign and a numeral or name that ends before the rest of it. |
| `Numerals.HexPowerIsNamed` | src/query/query.cpp:72-77 | 0x, hexadecimal digits, p and digits, which stod reads as a number, are a name to the server. |
| `Numerals.HexPointIsTorn` | src/query/query.cpp:72-77 | A hexadecimal number with a point is torn: to the server it ends at the point. |
| `FilterReading.LiteralReads` | src/query/query.cpp:63-84 | Whatever its string, a literal that is not a torn number is one operand: the text, the number, or the name it stands for. |
| `FilterReading.PatternQuoted` | src/query/query.cpp:199-200 | Putting the wildcards outside the escaped name is escaping the whole pattern. |
| `FilterReading.KeywordReads` | src/query/query.cpp:92-119 | A header-card predicate is read as the existence (or absence) of a card of the frame with that keyword and comparison. |
| `FilterReading.LinkReads` | src/query/query.cpp:152-175 | Tag and collection membership are read as the existence of a linked row with that name or id. |
| `FilterReading.CompileFieldReads` | src/query/query.cpp:177-223 | Each comparison of a column is read as the operator asked for, on that column. |
| `FilterReading.NodeReads` | src/query/query.cpp:225-250 | The text of every node that compiles, with no torn number in it, is the condition the node stands for, wherever it is put. |
| `FilterReading.FilterParses` | src/query/query.cpp:272-275 | Alone after WHERE, a compiled filter without torn numbers is lexed and parsed to its condition. |
| `FilterReading.FilterHidesMissing` | src/api/http_server.cpp:602-605 | In the AND that hides missing files, such a filter stays one operand, whatever it is. |
| `FilterLaws.KeywordMeans` | src/query/query.cpp:92-119 | A card predicate has on every row the value its meaning gives. |
| `FilterLaws.LinkMeans` | src/query/query.cpp:152-175 | A membership predicate is true exactly for frames linked to a row with that name or id. |
| `FilterLaws.FieldMeans` | src/query/query.cpp:177-223 | A column comparison has on every row the three-valued value its meaning gives. |
| `FilterLaws.NodeMeans` | src/query/query.cpp:225-250 | The condition of a node has on every row of every database the value the node means. |
| `FilterLaws.FilterMeans` | src/query/query.cpp:272-275 | A filter whose numbers are plain, compiled, lexed and parsed, has on every row, under every collation, the three-valued value its syntax tree means. |
| `FilterLaws.FilterMeansHidden` | src/api/http_server.cpp:602-605 | The same with missing files hidden: the conjunction of the filter's value and the file's not being missing. |
| `FilterAnswers.NumberSelected` | src/query/query.cpp:50-54 | What each operator selects, in the order of the reals: a frame whose numeric column is x is selected by lt d if and only if x is less than d as printed, and so for eq, ne, lte, gt and gte; a missing value never is. |
| `FilterAnswers.TextSelected` | src/query/query.cpp:50-54 | For a text or date column and a string: which comparison the server is asked for, by name, for each of the seven operators. |
| `FilterAnswers.CardNumberSelected` | src/query/query.cpp:81-119 | For a header card and a number: some card of that keyword whose text, read as a decimal, is less than d, and so for the other operators. |
| `FilterAnswers.CardTextSelected` | src/query/query.cpp:81-119 | For a header card and a string: which comparison the server is asked for. |
| `FilterAnswers.ObjectSelected` | src/query/query.cpp:188-204 | object eq selects a frame if and only if its canonical name equals one of the designations, object like if and only if it contains one. |
| `FilterAccepted.FilterCompiles` | src/query/query.cpp:81-262 | Which filters compile: none and the empty one, and a clause that is accepted, said of the JSON alone. A group needs a non-empty list of accepted clauses and a negation a list of one; a comparison needs a known column or a keyword, an operator that exists, and values of the column's kind, in for a non-empty list, between for two; a membership a name or an id. |
| `FilterGrammar.FilterAstray` | src/query/query.cpp:72-77 | A compiled filter with a torn number, wherever in it that stands, has no reading that keeps to the vocabulary: it is not parsed, or it names something else. |
| `FilterGrammar.FilterVocabulary` | src/query/query.cpp:27-46 | A compiled filter is read as a condition that names nothing but allow-listed columns and the fixed words of the subqueries if and only if every number given as a string is plain: decimal digits with at most a point and an exponent, or 0x and hexadecimal digits, signed or not. |
| `FilterLaws.InfinityEscapes` | src/query/query.cpp:72-77 | The exception: the string "inf" is accepted for a numeric column and read by the server as a column name. |
| `FilterLaws.ObjectSearch` | src/query/query.cpp:193-203 | Through compiler, lexer, parser and evaluation: a frame indexed under object a is selected by object eq b if and only if the canonical names are equal but for ASCII case. |
| `FilterColumns.CollectFields` | src/query/query.cpp:253-268 | The recursive loop adds the fields named in the tree, in order, to what was collected before. |
| `FilterColumns.FilterFields` | src/query/query.cpp:277-281 | An empty filter has no fields; any other has those its tree names. |
| `FilterColumns.AddedIs` | src/query/query.cpp:263-267 | What is collected has no repeats and is exactly what was there and what was named, the former first. |
| `FilterColumns.FirstSeenOrder` | src/query/query.cpp:252 | Fields stay in the order in which they are first seen. |
| `FilterColumns.FieldsAreColumnsRead` | src/query/query.cpp:253-281 | The fields offered are exactly the columns the compiled filter reads, each once; but an object search, which reads object_canonical, is offered as object. (A filter with a torn number reads nothing.) |
| `FilterColumns.CompileSort` | src/query/query.cpp:283-295 | The loop compiles the sort entry by entry and refuses it at the first bad entry. |
| `FilterColumns.CompileKey` | src/query/query.cpp:286-291 | One entry: a known column, and asc or desc in any case, asc where none is given; anything else is refused, a field or direction that is no string by the JSON library. |
| `FilterColumns.SortReads` | src/query/query.cpp:283-295 | A compiled sort is read by the server as the asked keys, in order, with their directions, all of them allow-listed columns. |
| `Equipment.InsertFinds` | src/index/equipment.cpp:124-126 | INSERT IGNORE keeps names unique and only adds; the read-back then finds the name if and only if it fits the column. |
| `Equipment.CreatedOnce` | src/index/equipment.cpp:99-127 | A name once created is answered with the same id in every spelling, however the table has grown. |
| `Equipment.BaseModelCaseless` | src/index/equipment.cpp:28-33 | The camera model read from a name does not depend on its case. |
| `Equipment.BaseModelIs` | src/index/equipment.cpp:26-33 | The camera model is ASI and the number at the first place of the name that has one: those letters in any case, a blank at most, then three digits, and a fourth where there is one; there is no model only if no place has that. |
| `Equipment.EquipmentResolver.ResolveFilter` | src/index/equipment.cpp:111-130 | With its cache a resolver gives the answer it would give without one, and changes the table as it would. |
| `Equipment.EquipmentResolver.ResolveCamera` | src/index/equipment.cpp:82-109 | The same for cameras: aliases in priority order, then the model, looked up or created. |
| `Equipment.EquipmentResolver.Resolve` | src/index/equipment.cpp:132-161 | Camera, filter, first covering rig and site of a frame are those a resolver without caches computes. |
| `Equipment.FiltersStillFit` | src/index/equipment.cpp:111-130 | A cache that is right for a table stays right for every longer table. |
| `Equipment.CamerasStillFit` | src/index/equipment.cpp:82-109 | The same for the camera cache. |
| `Convergence.EveryInterleaving` | src/index/equipment.cpp:82-130 | In every interleaving of any number of workers on one stale registry, for filters and for cameras, each case-folded name has at most one row, and all workers whose cache holds no rolled-back id agree on every name they resolved: on the alias if one applies, on -1 if there is no camera model or the name is too long for its column, and else on the id of the one row. |
| `Convergence.LostIsWrong` | src/index/frame_store.cpp:217-220 | A worker's cache is right, name by name, if and only if no rollback of its own has ever dropped a row whose id it held cached: a dropped id never comes back. |
| `Convergence.AloneAnswers` | src/index/equipment.cpp:66-130 | Where all rows are committed, a worker that is not disturbed gets exactly the answer of the resolver without a cache, for filters and for cameras, and leaves the table that the resolver leaves. |
| `Convergence.ReadBackRight` | src/index/equipment.cpp:102-127 | The read-back gives the right id whatever the other workers did in between. |
| `Convergence.RollbackSafe` | src/index/frame_store.cpp:217-220 | Where a worker's cache is right, it is right after a rollback if and only if it held no id of a row that was rolled back. |
| `Convergence.RolledBackId` | src/index/equipment.cpp:123-129 | The failure: after a rollback a worker keeps an id that is no row's, while another worker gets a different id for the same name. |
| `Rigs.RigDesk.CreateRig` | src/api/http_server.cpp:1635-1664 | Creating a rig validates, inserts, assigns to it every frame of its camera in its range, and warns of an overlap with an active rig; a refused request changes nothing. |
| `Rigs.RigDesk.EditRig` | src/api/http_server.cpp:1673-1741 | Editing checks the range, updates the row, recomputes the rig's frames when camera or range was given, and warns of an overlap; a refused request changes nothing. |
| `Rigs.RigDesk.DeleteRig` | src/api/http_server.cpp:1750-1754 | Deleting frees the rig's frames and removes the row. |
| `Rigs.BelongsIsResolved` | src/index/equipment.cpp:147-156 | With disjoint ranges a frame's rig is the resolver's, in whatever order the registry lists the rigs, if and only if it is the one active rig that covers the frame. |
| `Rigs.BelongsInAnyOrder` | src/index/equipment.cpp:147-156 | A frame's rig is the right one (the one active rig that covers it, or none where none does) if and only if it is the resolver's in every order in which the registry may list the rigs. |
| `Rigs.CreateAgrees` | src/api/http_server.cpp:1659-1662 | A creation keeps every frame's rig the right one if and only if it is refused or no frame the new range covers is covered by an active rig already there. |
| `Rigs.EditAgrees` | src/api/http_server.cpp:1730-1735 | An edit keeps every frame's rig the right one if and only if it claims no frame, or the rig is active and no other active rig covers a frame it claims. |
| `Rigs.UnwarnedCreate` | src/api/http_server.cpp:143-156 | Where ranges are disjoint, a creation without the overlap warning is safe, and ranges stay disjoint if and only if there is no warning. |
| `Rigs.UnwarnedEdit` | src/api/http_server.cpp:143-156 | The same for an edit of an active rig. |
| `Rigs.DeleteAgrees` | src/api/http_server.cpp:1752-1754 | Deleting keeps every frame's rig the right one. |
| `Rigs.StoreAgrees` | src/index/frame_store.cpp:155-157 | For any registry, stale or fresh, storing a frame with its answer keeps every frame's rig the right one if and only if the answer is an active rig, the only one that covers the frame, or none where none covers it, or a rig that is gone, whose store is refused. |
| `Rigs.StoreCovers` | src/index/frame_store.cpp:155-157 | And it keeps assigned rigs covering their frames if and only if the answer, unless it is none or gone, covers the frame. |
| `Rigs.FreshStore` | src/scan/scanner.cpp:263-270 | From a registry of the same moment the second always holds, and the first if and only if at most one active rig covers the frame. |
| `Rigs.StaleStore` | src/scan/scanner.cpp:263-270 | The failure: an unwarned edit without overlaps narrows a rig's range after a scan has taken its registry. A store from that registry leaves a frame with a rig that does not cover it. |
| `Rigs.StoreAfterDelete` | sql/schema.sql:464-465 | A store whose registry answers with a rig deleted meanwhile is refused by the foreign key and changes nothing. |
| `Rigs.HistoryAgrees` | src/api/http_server.cpp:1632-1757 | Throughout any history of creations, edits, deletions and stores, each store with a registry as stale as may be, retired rigs and overlaps included, every frame has the right rig if and only if each request was safe when it came. |
| `Rigs.HistoryResolves` | src/index/equipment.cpp:147-156 | After a safe history each frame's rig is what the resolver computes from scratch, in any order of the rigs. |
| `Rigs.HistoryCovers` | src/api/http_server.cpp:1632-1757 | Throughout any history assigned rigs cover their frames if and only if each stored answer covered its frame; creations, edits and deletions never break it. |
| `Rigs.OverlapDisagrees` | src/api/http_server.cpp:143-156 | An instance: a new rig takes a frame that the resolver, listing the rigs by id, gives to an older one. |
| `ScanSlot.InvStep` | src/api/http_server.cpp:2146-2193 | Each step of clients, scan thread and reporter keeps the protocol's invariant. |
| `ScanSlot.AtMostOneScan` | src/api/http_server.cpp:2148-2157 | Whatever requests come and however threads interleave, at most one scan thread is running. |
| `ScanSlot.JoinNeverBlocks` | src/api/http_server.cpp:2149-2150 | The join under the lock waits only for a thread that needs the lock no more; a thread handle is never replaced before it was joined. |
| `ScanSlot.EveryRootOnce` | src/api/http_server.cpp:2159-2190 | A run that has ended, cancelled or not, has one result for each root of a prefix of its roots, in order; it has them all if and only if a cancellation did not cut it short, and the counts of done and total agree. |
| `ScanSlot.ProgressTold` | src/api/http_server.cpp:2159-2190 | While a run is active its results are those of a prefix of its roots, in order, and the progress shown is behind them by one root at most, and never ahead. |
| `ScanSlot.NoDeadlock` | src/api/http_server.cpp:2146-2193 | While anyone is at work, some step other than a new request is possible. |
| `ScanSlot.WorkLessens` | src/api/http_server.cpp:2146-2193 | Every such step lessens a measure of the work ahead, except a cancel request and the steps of the progress reporter, which leave it as it is; so without new requests only finitely many steps of clients and scan threads remain. The reporter may go on reporting. |
| `Calibration.SelectBest` | src/match/calibration.cpp:174-205 | One ordered query gives the best set of its tier and none only when the tier is empty: a set for the light's own filter if the tier has one, and of those alike in that none is later captured, or as late with a larger id. |
| `Calibration.ResolveFlatSet` | src/match/calibration.cpp:137-212 | The chosen set is the best of the first non-empty tier: pin, then window, newest on or before and active for a fixed rig, or same night for a mobile one; there is none only if all tiers are empty. Said of the columns: a set picked as newest is the rig's, captured on or before the light's night or undated, and no other such set with its filter is newer, or as new with a larger id; the same for a set picked by its window or its night. |
| `Calibration.PickIsUnique` | src/match/calibration.cpp:137-212 | That pick is the only one: tables with the same rows, in any order, give the same answer. |
| `Calibration.MatchesRule` | src/match/calibration.cpp:276-326 | The predicate built entry by entry holds exactly of frames, raw or master, that meet every entry and the age limit. |
| `Calibration.EntryMatches` | src/match/calibration.cpp:280-313 | An exact entry asks for the same value, and for none where the light has none; exact_null_ok for the same or none, and nothing where the light has none; a tolerance for a number within it, and nothing where the light has none. Fields a rule may not name ask for nothing. |
| `Calibration.MatchCalibration` | src/match/calibration.cpp:328-378 | The candidates are the first of the ranked matching frames, each with the score of its rank; the total counts all matches. |
| `Calibration.OrderedIs` | src/match/calibration.cpp:333-340 | The ranking is a permutation of the matches in strictly rising order of a total order. |
| `Calibration.CandidatesAreBest` | src/match/calibration.cpp:342-346 | Candidates match; every match left out ranks after each of them; there are as many as the limit and the matches allow. |
| `Calibration.LimitsAgree` | src/match/calibration.cpp:328-365 | The candidates for a larger limit begin with the frames of those for a smaller one, in the same order, and none of them scores less. |
| `Calibration.CandidatesFall` | src/match/calibration.cpp:328-365 | The scores of the candidates fall strictly, above 0 and at most 1. |
| `Calibration.PreferencesRank` | src/match/calibration.cpp:333-336 | In the ranking of a rule's matches no other frame stands before a master the rule prefers; among frames alike in that, the light's own night stands before other nights and those before frames without one, if the rule prefers the session. |
| `Calibration.NearestFirst` | src/match/calibration.cpp:337-340 | In the ranking of a rule's matches, of two frames otherwise alike the nearer in time to a dated light stands first and the id decides ties, as it does where the light has no date; but for a dated light a frame without a date stands before every dated one. |
| `Clusters.RunsPartition` | src/api/http_server.cpp:1906-1925 | Cutting rows wherever neighbours are not linked gives non-empty maximal runs whose concatenation is the rows. |
| `Clusters.PartitionIsUnique` | src/api/http_server.cpp:1906-1925 | That partition is the only one. |
| `Clusters.SuggestFlatSets` | src/api/http_server.cpp:1902-1925 | The loop's clusters are the summaries (rig, filter, start, end, count) of the runs of usable rows with one rig, one filter and gaps within the limit. |
| `Clusters.FlatsConserved` | src/api/http_server.cpp:1921-1923 | The clusters' frame counts add up to the number of usable rows. |
| `Clusters.RunFrom` | src/api/http_server.cpp:1597-1602 | The inner loop ends, and stops exactly at the end of the maximal run from its row. |
| `Clusters.SuggestRigs` | src/api/http_server.cpp:1589-1612 | The two-index loop's suggestions are those of the maximal runs (one camera, each focal length at most 1.02 times the one before) that no rig's range meets, with their summed counts. |
| `Clusters.SuggestionCovers` | src/api/http_server.cpp:1607-1610 | On sorted rows a suggested range takes in every row of its run. |
| `Clusters.SuggestedMargins` | src/api/http_server.cpp:1609-1610 | The suggested bounds leave at least one millimetre and at least one and a half percent on either side, and are the closest whole numbers that do. |
| `Calendar.CivilDate` | src/extract/resolver.cpp:153-155 | Every day number has a valid civil date whose day number it is. |
| `Calendar.CivilOfDayNumber` | src/extract/resolver.cpp:147-155 | Every valid civil date is the date of its day number. |
| `Calendar.OrderKept` | src/extract/resolver.cpp:147-155 | Dates are ordered like their day numbers. |
| `Night.NoNight` | src/extract/resolver.cpp:136-148 | A date that does not parse has no night; one that does, with its fields in range, has none if and only if its fields are the last second of 1969, whose instant timegm reports like an error. |
| `Night.SameNight` | src/extract/resolver.cpp:146-159 | Two exposures have one label if and only if they fall in the same local noon-to-noon window. |
| `Night.LaterNight` | src/extract/resolver.cpp:146-159 | For nights of the years 0 to 9999, a later window has a lexicographically later label. |
| `Night.LabelInjective` | src/extract/resolver.cpp:157-158 | Different dates have different labels, in any year. |
| `Night.StampFields` | src/extract/resolver.cpp:134-144 | The stamp of an instant from the year 0 on is parsed to exactly its fields. |
| `Night.StampForms` | src/extract/resolver.cpp:134-144 | A date is read the same with a T or with blanks before the time, and its seconds may be missing, or have a fraction, which is dropped. |
| `Night.NightOfInstant` | src/extract/resolver.cpp:130-160 | For every instant from the year 0 on and every whole-second offset the night of its stamp is the civil date on which its local noon-to-noon window began. |
| `FitsText.CleanValue` | src/fits/fits_reader.cpp:42-60 | The scan of a card value gives the unquoted string without trailing blanks; a closing quote ends it and two quotes are one. |
| `FitsText.StripFitsValue` | src/fits/xisf_reader.cpp:53-69 | The other decoder removes the outer quotes, collapses doubled ones and trims both ends. |
| `FitsText.DecodersAgree` | src/fits/xisf_reader.cpp:50-69 | On a quoted value without line ends the two decoders agree if and only if it does not begin with a blank or is all blank. |
| `FitsText.ValueBack` | src/fits/fits_reader.cpp:39-60 | A value without blanks around it, nor line ends at its end, comes back from either decoder as it was quoted, quotes inside included. |
| `Xisf.XmlUnescape` | src/fits/xisf_reader.cpp:34-48 | The loop decodes the five entities, each once, and leaves everything else. |
| `Xisf.StripComments` | src/fits/xisf_reader.cpp:115-128 | The loop removes comment spans; an unclosed comment ends the text. |
| `Xisf.Attr` | src/fits/xisf_reader.cpp:74-99 | The search gives the value of the first occurrence of the name that stands alone and is followed by a quoted value. |
| `Xisf.SplitGeometry` | src/fits/xisf_reader.cpp:190-197 | The loop gives the numbers between the colons. |
| `Xisf.OpenTag` | src/fits/xisf_reader.cpp:184-210 | An opening tag gives the axes, the sample size and the three synthesized cards. |
| `Xisf.ReadCards` | src/fits/xisf_reader.cpp:219-231 | The inner loop reads the cards of an image up to the end of its scope, in order, without those that have no name. |
| `Xisf.ReadImages` | src/fits/xisf_reader.cpp:172-235 | The walk reads every Image element, numbered in order, and steps over elements whose names only begin alike. |
| `Xisf.ReadXisf` | src/fits/xisf_reader.cpp:166-239 | Comments are stripped first, and a header without an image is an error. |
| `XisfRoundTrip.UnescapedEscaped` | src/fits/xisf_reader.cpp:34-48 | Text with all five entities escaped decodes to itself. |
| `XisfRoundTrip.CommentKept` | src/fits/xisf_reader.cpp:223-229 | The comment of a printed card comes back, whatever its value, if and only if the value does not end in a free-standing word comment and an equals sign, with white space at most around that, or the comment is the text read instead. |
| `XisfRoundTrip.UnquotedMisread` | src/fits/xisf_reader.cpp:223-227 | The failure: an unquoted value that ends in a free-standing comment= takes its card's comment, whatever stands before it, nothing included. |
| `XisfRoundTrip.CardRead` | src/fits/xisf_reader.cpp:223-229 | What is read from a printed FITSKeyword element, whatever its value and comment. |
| `XisfRoundTrip.CardKept` | src/fits/xisf_reader.cpp:223-229 | It is the card that was printed if and only if the value has no blanks around it and, unless it was put in quotes, is not in quotes and does not mislead as above. |
| `XisfWalk.HeaderRead` | src/fits/xisf_reader.cpp:166-240 | What is read from every non-empty printed list of images and cards, whatever the values and comments. |
| `XisfWalk.HeaderBack` | src/fits/xisf_reader.cpp:166-240 | It is the same images and the same cards, in order, if and only if every card is one that comes back by itself. |
| `XisfWalk.CommentIgnored` | src/fits/xisf_reader.cpp:113-128 | A comment is taken out wherever it first stands in a text, whatever it contains. |
| `XisfWalk.HeaderBackWithComment` | src/fits/xisf_reader.cpp:166-240 | A comment put anywhere into a printed header changes nothing, even one that contains images and cards. |

## Left out

- BoundedQueue.MeasureDrops: does not count spurious wakeups, which can happen without end; safety does cover them. No fair scheduler is assumed.
- Database.Database.StoreFile: does not model the back-off sleeps between attempts.
- FrameStore.StoredEffect: does not tie each frame column to its header card; fingerprint and columns are given with the HDU, as the resolver computes them (equipment ids aside). The path hash is given with the path, and the key is the hash: two paths with one MD5 would be one path.
- Scanner.ScanRoot: lets the interleaving work itself off after the pool has delivered the items, each item as a look-up and a write, each in one step; it does not bound how many are in progress by the number of workers, and no statement outside a transaction throws before linking begins. The order in which statements of different workers meet inside the server is not part of it.
- Sweep.Confluence: covers the tables of files, frames and cards; that of sidecars is `Artifacts.RecordedAllGrows`. One stamp stands for the instants of one item's statements.
- Artifacts.LinkAfter: leaves out the kind and the stamps of an artifact; the foreign key clears the links at the end of the scan, where nothing has read them in between.
- FilterLaws.FilterMeans: does not cover the cone search. Numbers are exact, and print to six decimals; collation, LIKE, dates and conversions are parameters.
- FilterLaws.ObjectSearch: takes the collation's equality to be equality without ASCII case.
- Numerals.NumeralYields: does not refuse what stod refuses as out of the range of a double; such strings have the value they spell. Hexadecimal numerals are unbounded.
- FilterGrammar.FilterVocabulary: speaks of the grammar that compiled filters are written in. Where a torn number breaks it, the server may still read a call, a qualified name or a sum, all of them outside the vocabulary.
- Convergence.EveryInterleaving: treats the filter table and the camera table each on its own, since neither is read for the other.
- Equipment.EquipmentResolver.Resolve: does not model an exception thrown by the database in mid-resolution.
- Rigs.RigDesk.CreateRig: leaves out telescope and site of the request, and the rounding of ranges to the column's decimals; of the warning it says whether there is one, not its text.
- Rigs.RigDesk.EditRig: leaves out telescope, site and active flat set of the request, and the same rounding.
- ScanSlot.NoDeadlock: does not model the server's stopping, which joins the scan thread without the lock and races with a new request.
- Calibration.MatchCalibration: is the heuristic branch; the list of flats of a chosen set, whose order is partial, the reason strings and the warnings are left out. Numbers are compared exactly, not after printing to six digits, and no rule puts a tolerance on the text field readout_mode.
- Clusters.SuggestRigs: computes with exact reals.
- Night.NightOfInstant: takes the offset in whole seconds and a date without an exponent in its seconds.
- Xisf.ReadXisf: starts from the header text; signature, length field and file reading are not part of it. Geometry numbers are unbounded.
- The cone search and the distance between sites: floating-point trigonometry.
- Header mapping, value normalisation, coordinate parsing and the rest of the resolver: first matches over tables.
- HTTP routing, JSON parsing, sessions, TLS, passwords, configuration, the web interface, file operations, exports, WBPP and Sesame: plumbing, or easy next to the above.
- Letters outside ASCII: folding and collation are those of ASCII.
