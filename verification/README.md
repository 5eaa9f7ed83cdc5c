# Verified model of the dirsql engine

dirsql keeps SQLite tables in step with the files of a directory. This project
models the parts of its Rust engine (`packages/rust/src`) where a mistake would
be silent, and proves what those parts are for.

- **Row reconciliation and ownership** (`Table.dfy`, `Claims.dfy`,
  `Reconcile.dfy`, `Matching.dfy`, `PrimaryKeys.dfy`, `Refusals.dfy`,
  `Ledger.dfy`, `Index.dfy`, `Runs.dfy`).
  A table of rows under UNIQUE and PRIMARY KEY groups with SQLite's rowid rule;
  the edit that makes a file's stored rows equal its new rows in place; and the
  two relations that record which file owns which rowid. The edit either fails
  or lands exactly on the wanted table, when it fails is stated exactly, and
  the ownership record stays an exact partition of the live rows over every run
  of operations.
- **Events** (`Differ.dfy`, `ReconcileEvents.dfy`, `EventsByKey.dfy`,
  `Updates.dfy`). The events a change emits, replayed over the rows as they were,
  give the rows as they are. With a key each says what its key did, and a row that
  stays has none; without one they are the fewest, or go line by line.
- **The batching worker** (`Batching.dfy`, `CollectPass.dfy`, `Evaluation.dfy`,
  `Worker.dfy`). A statement run once to collect calls and once more from batched
  replies gives what it gives with each call evaluated, as a function of the
  arguments the worker reads off the wire.
- **Freshness** (`Freshness.dfy`). The rule for skipping a re-read, as a
  protocol of interleaved writes, stats, reads, builds and queries.
- **Reading directories and data** (`Packing.dfy`, `Pool.dfy`, `Dispatch.dfy`,
  `Streaming.dfy`, `Listing.dfy`, `WindowsArgs.dfy`). Packing and spreading of
  arguments, the concurrent invocation pool, the two together, line framing over
  a pipe, the chunked sort, Windows quoting.
- **Patterns** (`Brace.dfy`, `BraceRange.dfy`, `BraceMeaning.dfy`,
  `PosixClass.dfy`). Brace
  expansion for globset, and the rewriting of POSIX bracket expressions to
  globset's.
- **The direct scan** (`ScanProgram.dfy`). Recognising the program SQLite
  compiles a plain column list to, and what such a program yields.

Code that changes things in place (the table, the index, the worker, the packer,
the tally, the chunker, the block parser) is a class or a method with a loop,
proved against functions on values; the theorems are about those functions.

## What is assumed

- A table is a map from rowid to cells. UNIQUE and PRIMARY KEY are its only
  constraints, values in them are the same only when equal (the default
  collation), a NULL in a key never clashes, and the engine checks the groups
  in the order they are listed. A new row takes the largest rowid plus one, and
  rowids do not run out. No emitted column is the rowid under another name.
- `store`, the affinity of a column, is given; storing a stored value changes
  nothing, and it makes NULL of NULL only. The keys rows may be matched by are
  those of the PRIMARY KEY and the UNIQUE indexes, an expression among their
  columns aside. Real numbers stand apart from integers and NaN does not occur.
- An operation that fails rolls back its transaction or savepoint. Rows of equal
  `row_index` are read in the order they were recorded.
- A worker answers a call the same whether it comes alone or in a batch
  (`Batching.Consistent`). Worker responses are taken as parsed JSON entries.
- The clock never runs backward. Every change to what a path holds stamps a
  change time no later than the clock and at most the given lag behind it, unless
  the platform reports none. So a path goes on naming one file: a symlink
  retargeted to an older file, or a parent directory renamed, changes what the
  path holds and stamps nothing. A `Read` entry keeps a fingerprint to tell the
  two files by; a `Built` entry keeps none, and an older file is then skipped.
- An invocation has one outcome: the chunks it prints and whether it fails. At
  least one core is reported.
- The two readings of `""` inside a quoted argument, from before and after the
  2008 Microsoft C runtime, are both modelled; the rest is that runtime's
  documented rule.
- globset's class syntax is its documented one: an optional `!` or `^`, a `]`
  that is a member when first, ranges, and a `-` that is a member when last.

## Where the code does less than its comment

Re-placing blocked rows is said to check only the end state
(`packages/rust/src/db.rs:1302-1305`). The code defers an update only when SQLite
reports a UNIQUE failure; a PRIMARY KEY failure has another code and is
returned. A primary key can change in an update when the rows are matched by a
UNIQUE index instead, and then a valid end state can be refused, in two ways:

- A row asks for the primary key of a row updated after it
  (`Refusals.SwappedPrimaryKeyIsRefused`).
- A row asks for the primary key of a row updated before it, whose own update a
  UNIQUE value of its own held up (`Refusals.HeldUpKeyIsRefused`): no update
  takes the primary key of a later one there.

The model keeps the code's behaviour, and says exactly when the comment holds.
Each condition is on the end state and the list of updates alone, and can be read
before any update is made.

- For every table, rows and key: reconciling succeeds if and only if the end
  state repeats no key and no update is refused
  (`PrimaryKeys.ReachableIffNoneRefused`). An update waits on a group when the
  row of a later update, or of an earlier one that was itself held up, has the
  value it asks for; it is refused when the first group it waits on is the
  primary key.
- When each primary key is the key matched on or is not emitted, or when rows
  are matched whole, that is: if and only if the end state repeats no key
  (`PrimaryKeys.ReachableUnlessEndClashes`,
  `ReconcileEvents.MatchedWholeIsReachable`).

## Model

| member | source | states |
|---|---|---|
| UserTable.Violation | packages/rust/src/db.rs:1289-1300 | The engine reports no violation exactly when the row repeats no UNIQUE key of another row; a report names a group that is really broken and tells UNIQUE from PRIMARY KEY. |
| UserTable.FirstBrokenTells | packages/rust/src/db.rs:1289-1300 | A PRIMARY KEY violation is reported exactly when the first broken group, in the order the groups are checked, is the PRIMARY KEY. |
| UserTable.ClashIsSameValues | packages/rust/src/db.rs:1289-1300 | Two rows clash on a key exactly when they hold the same, and no NULL, in each of its columns. |
| UserTable.PlacingKeepsDistinct | packages/rust/src/db.rs:1289-1322 | A statement is accepted exactly when the table it would leave repeats no key. |
| UserTable.TableStore.Update | packages/rust/src/db.rs:1284-1300 | One UPDATE: it takes place exactly when no other row holds its new keys, gives each emitted column of its row the value as the column stores it, keeps the others, and leaves the table alone when refused. |
| UserTable.TableStore.Insert | packages/rust/src/db.rs:1319-1326 | One INSERT: accepted exactly when the table stays valid; the row gets the largest rowid plus one, and each value as its column stores it. |
| Claims.Claim | packages/rust/src/db.rs:1217-1241 | Popping stored rows off one stack per key gives each wanted row its claim: the n-th wanted row of a key takes the n-th stored row of that key. |
| Claims.ClaimsAreInjective | packages/rust/src/db.rs:1225-1241 | No stored row is claimed twice. |
| Claims.LeftoversNeverMatch | packages/rust/src/db.rs:1225-1242 | A wanted row goes unmatched only when every stored row equal to it has been claimed, so matching is maximal. |
| Reconcile.PlacedIsInjective | packages/rust/src/db.rs:1229-1236 | The rowids `placed` are pairwise distinct, never those of another owner, and a matched row keeps its own. |
| Reconcile.EndIsWanted | packages/rust/src/db.rs:1247-1255 | The end table holds every wanted row at its place, matched rows with their un-emitted columns kept, every row of other owners as it was, and nothing else. |
| Reconcile.UpdateEach | packages/rust/src/db.rs:1270-1300 | The update loop returns an error exactly when some update breaks a PRIMARY KEY; otherwise each row is updated, or is unchanged and listed as blocked. |
| Reconcile.ReplaceEach | packages/rust/src/db.rs:1301-1317 | Deleting all blocked rows and inserting them again at their rowids never fails when the end state is distinct, whatever order the values move in. |
| Reconcile.InsertEach | packages/rust/src/db.rs:1319-1327 | Inserting the new rows never fails when the end state is distinct, and each lands on the rowid the plan foretold. |
| Reconcile.SettleBlocked | packages/rust/src/db.rs:1301-1328 | After the updates, re-placing the blocked rows and inserting the new ones succeeds exactly when the end state repeats no key, and then reaches it. |
| Reconcile.EditTable | packages/rust/src/db.rs:1262-1328 | Delete, update, defer, re-place and insert succeed exactly when the plan is reachable, and then the table is the end state and `placed` the planned rowids; other owners keep their rows even on failure. |
| Reconcile.ReconcileRows | packages/rust/src/db.rs:1204-1329 | For all stored and wanted rows, with or without a key: the call succeeds exactly when the plan is reachable, and then leaves exactly the wanted end state and tells exactly the rows removed, added and updated. |
| Matching.MatchedByAlike | packages/rust/src/db.rs:1211-1217 | Two rows have one identity exactly when they agree on the key's columns or, without a key, on every column some wanted row emits; columns none emits do not count. |
| Matching.ClaimedMatch | packages/rust/src/db.rs:1218-1241 | A matched row agrees with the row that claims it on those columns. |
| Matching.UnclaimedOnlyWhenNoneLeft | packages/rust/src/db.rs:1225-1242 | With or without a key, a wanted row goes without a match only when every stored row that agrees with it is claimed by another: nothing is deleted that could have stayed. |
| Matching.SameRowsChangeNothing | packages/rust/src/db.rs:1200-1262 | Without a key, when the stored and the wanted rows are the same bag on the emitted columns, in any order, nothing is removed, added or updated and the table stays as it was. |
| Reconcile.ToMapReads | packages/rust/src/db.rs:1244-1246 | A row told by column name has exactly the table's columns, each with the cell at its place. |
| PrimaryKeys.HeldPrimaryNeverHit | packages/rust/src/db.rs:1289-1300 | Updates that leave every primary key as it was never fail outright. |
| PrimaryKeys.ReachableUnlessEndClashes | packages/rust/src/db.rs:1270-1318 | When each primary key is matched on or not emitted, reconciling succeeds if and only if the wanted end state repeats no key: sound and complete. |
| PrimaryKeys.BreaksIffWaits | packages/rust/src/db.rs:1284-1300 | On the way to a valid end state, what an update breaks in the table as it then is are exactly the groups it waits on, read off the updates alone. |
| PrimaryKeys.HitsPrimaryIffRefused | packages/rust/src/db.rs:1284-1300 | For any updates towards a valid end state, the loop meets a PRIMARY KEY failure if and only if some update is refused: the first group it waits on is the primary key. |
| PrimaryKeys.ReachableIffNoneRefused | packages/rust/src/db.rs:1204-1329 | For every table, rows and key: reconciling succeeds if and only if the end state repeats no key and no update is refused, a condition on the end state and the updates alone. |
| Refusals.SwappedPrimaryKeyIsRefused | packages/rust/src/db.rs:1295-1305 | A concrete file whose first two rows swap their primary keys: it arrives through the file reconcile, keyed by name, its start and end tables are valid, and it is refused. |
| Refusals.HeldUpKeyIsRefused | packages/rust/src/db.rs:1295-1305 | A second one, where no update takes the primary key of a later one: a row held up by its own UNIQUE value keeps the primary key the next update asks for. |
| Ledger.OneOwner | packages/rust/src/db.rs:305-324 | In an exact ledger a live row has one owner. |
| Ledger.OwnersPartition | packages/rust/src/db.rs:305-324 | The owners of an exact ledger partition the live rows: disjoint, and covering all. |
| Ledger.ReadIsOwned | packages/rust/src/db.rs:1487-1546 | The join that reads a file back yields exactly the rowids the file owns, each once. |
| Ledger.ReadsInOrder | packages/rust/src/db.rs:1512-1546 | Of two rowids read back, the earlier is mapped with no greater index, or is mapped and the later ranged, or is the smaller of two ranged ones. |
| Ledger.SpanIdsIncrease | packages/rust/src/db.rs:1522-1546 | The rows of a file's ranges come back in rowid order, none twice. |
| Ledger.ByIndexOrders | packages/rust/src/db.rs:1512-1521 | Mapped rows come back in the order of their index. |
| Ledger.MapKeepsExact | packages/rust/src/db.rs:908-926 | Recording one new row keeps the ledger exact. |
| Ledger.RangeKeepsExact | packages/rust/src/db.rs:948-979 | Recording a range over freshly inserted rows keeps the ledger exact. |
| Ledger.DropKeepsExact | packages/rust/src/db.rs:1583-1603 | Deleting a file's rows with all record of them keeps the ledger exact for what is left. |
| Ledger.OwnKeepsExact | packages/rust/src/db.rs:1058-1079 | Rewriting a file's mapping to the rowids a reconcile placed keeps the ledger exact. |
| Ledger.OwnReads | packages/rust/src/db.rs:1028-1080 | After a reconcile, reading the file back gives the placed rowids in the order of the new rows. |
| Ledger.SettleOwnedBy | packages/rust/src/db.rs:1028-1080 | A reconcile gives the file exactly the placed rowids and every other file the rowids it had, whether or not the mapping was rewritten. |
| Ledger.RefitKeepsExact | packages/rust/src/db.rs:1005-1020 | A batch's single range re-fitted from the least to the greatest placed rowid is exact again. |
| Ledger.BatchOwnsAll | packages/rust/src/db.rs:982-1022 | A table one batch fills is owned whole by it. |
| Index.AppendedShrinks | packages/rust/src/db.rs:948-979 | Every row of a batch is accepted when the table holding them all is valid, so inserting one by one refuses no valid batch. |
| Index.RefusedMidway | packages/rust/src/db.rs:948-979 | A row refused midway means that the whole batch has no valid table. |
| Index.RowKey | packages/rust/src/db.rs:1365-1396 | The key chosen is that of the first candidate that is not passed over: one with a column, all plain columns of the table, that every row fills; there is none exactly when each is passed over. |
| Index.TableIndex.InsertRow | packages/rust/src/db.rs:1413-1475 | Inserting a row records it under its file and index together or not at all, and touches no other file. |
| Index.TableIndex.InsertRows | packages/rust/src/db.rs:948-980 | A batch of rows goes in whole, as one range owned by its file, or not at all; it goes in exactly when the table of all of them is valid. |
| Index.TableIndex.GetRowsByFile | packages/rust/src/db.rs:1487-1546 | Every row the file owns is read, once and no other, each column by name with the cell stored at its rowid: mapped rows in order of index, then ranged rows in order of rowid. |
| Index.TableIndex.ReconcileFileRows | packages/rust/src/db.rs:1028-1080 | A file reconcile is refused without effect when the rows fill no key; else it succeeds exactly when the plan is reachable, and then the table is the end state and the file reads back the placed rows in order, other files untouched. |
| Index.TableIndex.ReconcileBatchRows | packages/rust/src/db.rs:986-1022 | The same for a table one batch owns whole, by key or as a multiset; the ledger stays exact and that one batch's. |
| Index.TableIndex.RefillBatchRows | packages/rust/src/db.rs:1084-1093 | Refilling a batch ends with exactly the wanted rows, in place by key or afresh, or changes nothing. |
| Index.TableIndex.DeleteRowsByFile | packages/rust/src/db.rs:1583-1623 | Deleting a file removes precisely its rows, returns their number, and leaves every other row and owner as it was. |
| Index.PlacedIsPlaceable | packages/rust/src/db.rs:1058-1079 | The rowids a reconcile places are the file's own or past every live one, so taking them breaks no other owner's record. |
| Index.EndIds | packages/rust/src/db.rs:1204-1329 | A rowid is live after a reconcile exactly when it was placed or belongs to another owner. |
| Index.FileSettles | packages/rust/src/db.rs:1028-1080 | The rows and ledger a file reconcile leaves are exact, read back in order, and differ for no other file. |
| Index.BatchSettles | packages/rust/src/db.rs:986-1022 | The rows and range a batch reconcile leaves are exact, whether or not a row came or went. |
| Index.NothingMoved | packages/rust/src/db.rs:1005-1009 | When no row came or went the placed rowids are the ones the range already spans, so leaving it alone is right. |
| Runs.Perform | packages/rust/src/db.rs:908-1080 | Any one operation, failed or not, keeps the index valid and touches only its file. |
| Runs.KeepsOthersStep | packages/rust/src/db.rs:908-1080 | Operations on other files compose: what none of them names keeps its rowids and cells. |
| Runs.ExactIsPartitioned | packages/rust/src/db.rs:305-324 | Exactness gives the partition for all pairs of owners at once. |
| Runs.Run | packages/rust/src/db.rs:908-1623 | After every run of inserts, batch inserts, reconciles, upserts and deletes, the ledger is exact, owners partition the live rows, and files no operation named have the rows they had. |
| Runs.RunBatches | packages/rust/src/db.rs:986-1093 | After every run of refills and refreshes on one table it is still that batch's whole. |
| Differ.ReplayConcat | packages/rust/src/differ.rs:52-253 | Replaying events in two parts is replaying them all. |
| Differ.ReplayFrames | packages/rust/src/differ.rs:52-253 | Events that replay over some rows replay the same beside any others. |
| Differ.ReplayEvents | packages/rust/src/differ.rs:145-172 | Deletes, then updates, then inserts never remove an absent row and end with the rows gone swapped for the rows come. |
| Differ.FullReplace | packages/rust/src/differ.rs:231-253 | A full replacement deletes every old row and then inserts every new one. |
| Differ.DiffRows | packages/rust/src/differ.rs:183-228 | The row-by-row walk gives the specified events on each branch, the full replacement on too many changes included. |
| Differ.ReplayDiffRows | packages/rust/src/differ.rs:183-228 | Those events replay the old multiset of rows to the new one. |
| Differ.Diff | packages/rust/src/differ.rs:52-78 | For each presence of the two sides the events replay the old rows to the new; equal sides give none; two present sides are told line by line: a full replacement when rows got fewer or more than half of several differ, else an update at each place that differs and an insert for each row past the old ones, in order. |
| Differ.ToldLineByLine | packages/rust/src/differ.rs:183-253 | Line by line said by place: which places are updated, which rows are inserted, and when all is replaced instead. |
| Differ.DiffUnordered | packages/rust/src/differ.rs:86-140 | The events replay the old multiset to the new, number max of the two differences, which no other events that do so undercut, are none exactly when the multisets are equal, and keep every intermediate size between the two sizes. |
| Differ.NoFewerEvents | packages/rust/src/differ.rs:86-140 | Any events that replay one multiset to another are at least as many as the greater of the two differences. |
| Differ.OneWayStaysBetween | packages/rust/src/differ.rs:116-140 | Events that only update and then only shrink or only grow keep the size between its ends. |
| ReconcileEvents.KeyedEventsReplay | packages/rust/src/differ.rs:145-172 | The keyed events of any reconcile replay the stored rows to the final rows. |
| ReconcileEvents.UnorderedEventsReplay | packages/rust/src/differ.rs:86-140 | Events over only the removed and added rows of a multiset reconcile replay all stored rows to all final rows. |
| ReconcileEvents.MatchedWholeNeverChanges | packages/rust/src/db.rs:1214-1241 | Rows matched on all emitted columns are never updated. |
| ReconcileEvents.MatchedWholeIsReachable | packages/rust/src/db.rs:1214-1329 | Rows matched on all emitted columns are made equal the wanted ones if and only if the end state repeats no key. |
| ReconcileEvents.UnkeyedSplits | packages/rust/src/db.rs:1225-1261 | With no key, stored and final rows share exactly the matched rows; the rest is what was removed and what was added. |
| ReconcileEvents.UnorderedAreFewest | packages/rust/src/differ.rs:86-140 | Events that are the fewest between the rows that left and came are the fewest between the whole sides. |
| EventsByKey.ClaimedByKey | packages/rust/src/db.rs:1218-1241 | By the key of a PRIMARY KEY or UNIQUE index, a wanted row claims the stored row of its key, whenever there is one. |
| EventsByKey.KeyedEventsSay | packages/rust/src/differ.rs:145-172 | By key, a delete is of a stored row whose key no wanted row has, an insert of a row whose key no stored row had, an update joins two unequal rows of one key; a row on both sides has no event; deletes come first and inserts last. |
| EventsByKey.SameRowsSayNothing | packages/rust/src/differ.rs:145-172 | So between the same rows, in any order, there is no event. |
| Updates.Edit | packages/rust/src/lib.rs:1616-1624 | Editing by key: none when the rows fill no key; else the file reads back the new rows, the events replay its old rows to them, and each event says what its key did. |
| Updates.EditByKey | packages/rust/src/lib.rs:1616-1624 | With a key: it succeeds exactly when the edit is acceptable; the file then reads as the rows applied, the events replay its old rows to them, and each names a key that went, a key that came, or two unequal rows of one key, a row that stays having none; a failure changes nothing. |
| Updates.Replace | packages/rust/src/lib.rs:1626-1636 | Delete and insert afresh: succeeds exactly when the table of the new rows is valid, restores everything when not; its events replay and go line by line, none when the rows are the same. |
| Updates.Upsert | packages/rust/src/lib.rs:1584-1640 | A changed file: success is characterised exactly, the file then reads back its new rows and the events replay old to new; with a key each event says what its key did, without one they go line by line, and rows that stay as they were give none; a failure changes nothing, no other file is touched. |
| Updates.UpsertReadsWanted | packages/rust/src/lib.rs:1615-1636 | When the rows carry every column, the file reads back as exactly the rows wanted, by key or not. |
| Updates.Remove | packages/rust/src/lib.rs:1556-1579 | A deleted file: exactly its rows go, one delete event for each. |
| Updates.Refresh | packages/rust/src/lib.rs:1339-1418 | A per-table refresh: the events replay the whole table as it was to the whole table as it is; with a key each says what its key did, without one no other events would be fewer; the same rows in any order give none. |
| Updates.SameIdsSameBag | packages/rust/src/db.rs:1107-1129 | Reading the same rowids in another order gives the same multiset of rows. |
| Batching.ParseBatched | packages/rust/src/functions.rs:639-672 | A batched response gives one reply for each call: the worker-level refusal for every call, or each entry decoded, with as many entries as calls and none malformed. It is a defect exactly otherwise, and a bad entry is the first one. |
| Batching.FileIsEntrywise | packages/rust/src/functions.rs:474-488 | Filing replies gives each line sent a reply of its own and leaves the rest as they were. |
| Batching.CallIsHonest | packages/rust/src/functions.rs:360-406 | A call outside a collect pass returns the worker's true reply, or a transport failure, from stored replies or the wire; every stored reply stays true. |
| Batching.FlushSendsAll | packages/rust/src/functions.rs:454-490 | A flush sends all pending calls as one request, answers each, and counts each once. |
| Batching.CallKeepsCollecting | packages/rust/src/functions.rs:360-406 | After every call of a collect pass: queued lines are the disjoint union of answered and pending, no line is sent twice, fewer than `batch` calls wait, every batched request is full, stored replies are true, and the count equals the calls on the wire. |
| Batching.CallQueues | packages/rust/src/functions.rs:360-406 | One call in a pass adds exactly its own line to the queued ones, whether it was answered, stood in for, or went out alone. |
| Batching.RunQueuesAsked | packages/rust/src/functions.rs:360-406 | A run in a pass queues exactly the distinct calls it makes to the function. |
| Batching.RunKeepsCredited | packages/rust/src/functions.rs:474-488 | Throughout a pass the cache hits counted are the answered calls whose reply the worker had cached. |
| Batching.CollectPassSendsEachCallOnce | packages/rust/src/functions.rs:360-490 | Over a whole collect pass of any statement, the calls answered are exactly the distinct calls the statement made; each went out once, batched requests carry `batch` calls but for the last with 1 to `batch`, and the reported counts are the calls sent and the replies that came from a cache. |
| Batching.RunIsPlain | packages/rust/src/db.rs:1657-1681 | From any honest replies, a run of any statement in which no open pass was called gives the plain result, or a transport failure; any other run is marked as having called one. |
| Batching.EndFromIsHonest | packages/rust/src/db.rs:1673-1679 | Closing the passes keeps every reply true and reports whether any function was called. |
| Batching.QueryIsPlain | packages/rust/src/db.rs:1657-1681 | For every statement and consistent workers, collect-then-run gives exactly the plain result, whatever the placeholder made the first pass do; with a transport that can fail, that or a transport failure. |
| Batching.QueryEndsAtRest | packages/rust/src/db.rs:1657-1681 | A query, however it ends, leaves no pass open and no reply behind on any worker, batching or not. |
| CollectPass.CallStandsIn | packages/rust/src/functions.rs:360-406 | A call in a pass is answered by its stored reply, else by the stand-in, else by the worker; the stand-in is the first value the worker gave that is not NULL, and until there is one each call goes alone. |
| CollectPass.PassStandsIn | packages/rust/src/functions.rs:360-490 | Over a whole pass, calls go out alone only until one brings a value that is not NULL; every later request is a batch. |
| CollectPass.QueryGoesOn | packages/rust/src/db.rs:1657-1681 | Over a whole query, a batching worker is sent what its pass sent and then, one by one, only calls the pass had no reply to. |
| CollectPass.UncalledRunsOnce | packages/rust/src/db.rs:1657-1681 | A statement that calls no batching function runs once: its result and all that is sent are those of the pass. |
| Evaluation.LineReadsBack | packages/rust/src/functions.rs:575-592 | The wire reads back: a worker reads the very arguments it is called with, an infinite REAL as NULL. |
| Evaluation.LinesTellApart | packages/rust/src/functions.rs:575-592 | Two calls are one line, and share one reply, exactly when their arguments are equal but for infinite REALs and NULLs. |
| Evaluation.ComputesIsConsistent | packages/rust/src/functions.rs:612-672 | A worker that gives a function's results, alone and in batches, is seen to give exactly those results. |
| Evaluation.PlainEvaluates | packages/rust/src/db.rs:1791-1809 | Running a statement with a round trip per call evaluates it with the functions the workers compute. |
| Evaluation.QueryEvaluates | packages/rust/src/db.rs:1657-1681 | For every statement and workers that compute functions of the arguments they read, the batched query gives the statement evaluated with those functions; with a transport that can fail, that or a transport failure. |
| WorkerObject.Worker.Exchange | packages/rust/src/functions.rs:495-548 | One round trip on the worker object, with each way to fail and what it does to the transport. |
| WorkerObject.Worker.Flush | packages/rust/src/functions.rs:454-490 | The object's flush is the specified one, and the shared counter moves by what it recorded. |
| WorkerObject.Worker.Call | packages/rust/src/functions.rs:360-406 | The object's call is the specified one: stored reply, placeholder, queueing, a full batch, or a round trip. |
| WorkerObject.Worker.EndCollect | packages/rust/src/functions.rs:422-428 | Ending a pass flushes what waits and says whether the function was called. |
| WorkerObject.RunStatement | packages/rust/src/db.rs:1791-1809 | Running a statement step by step over shared worker objects is the specified run. |
| WorkerObject.EndEach | packages/rust/src/db.rs:1673-1676 | Every pass is ended in turn, up to the first that fails. |
| WorkerObject.QueryOrderedWith | packages/rust/src/db.rs:1657-1681 | The query over worker objects is the specified query, and the reporter's two counts are the calls this query put on the wire and the cached replies among them. |
| WorkerObject.QueryOrdered | packages/rust/src/db.rs:1651-1681 | From idle consistent workers the query returns the plain result, which for workers that compute functions of their arguments is the statement evaluated with them, and leaves every worker at rest. |
| WorkerObject.TotalsMove | packages/rust/src/functions.rs:191-219 | The reporter's two totals, calls and cache hits, move by exactly what one worker adds. |
| Freshness.StepKeepsInv | packages/rust/src/freshness.rs:41-72 | Every step of every interleaving keeps the invariant, adoption of a built entry and saturating subtraction included. |
| Freshness.RunKeepsInv | packages/rust/src/freshness.rs:1-18 | Every state of every run satisfies the invariant. |
| Freshness.SkippedFileIsCurrent | packages/rust/src/freshness.rs:1-18 | When change times lag the clock by at most SETTLE_NS, a file the rule does not re-read is indexed with exactly the content it had when the query stat'd it. |
| Freshness.LagBeyondSettleServesStaleRows | packages/rust/src/freshness.rs:13-16 | One nanosecond more of lag and some run serves stale rows: the bound is exact. |
| Freshness.QuietFileIsSkipped | packages/rust/src/freshness.rs:41-72 | The rule is not vacuous: a file is skipped after a read exactly when it changed more than SETTLE_NS before that read began. |
| Freshness.SkipRemembers | packages/rust/src/freshness.rs:66-76 | A file skipped, whether its entry was from the build or from a read, is remembered as read with the fingerprint it was skipped with, and its rows stay. |
| Freshness.SettledFileIsSkipped | packages/rust/src/freshness.rs:38-76 | In every run, a file with a settled entry may be skipped by every later query until it changes or is lost from sight, whatever those queries did and however they ended. |
| Packing.Packer.Push | packages/rust/src/on_file.rs:376-385 | A push hands over the run it would overflow, and never an empty one; the argument is held. |
| Packing.Pack | packages/rust/src/on_file.rs:360-389 | The runs concatenate to the arguments, none is empty, each fits the budget or is a single argument, and each would overflow with the next one's first argument. |
| Packing.PackingIsOptimal | packages/rust/src/on_file.rs:360-389 | No order-preserving split under the same rule uses fewer runs. |
| Packing.PackingIsUnique | packages/rust/src/on_file.rs:360-389 | Greedy packing is the only such split with no room left before a cut. |
| Packing.Parts | packages/rust/src/on_file.rs:421-427 | The parts are the most allowed: no more than asked for, than files, or than the data fills at MIN_RUN_BYTES each. |
| Packing.Spread | packages/rust/src/on_file.rs:421-443 | The runs are non-empty, concatenate to the input, number at most the parts asked for, and each carries at most an even share plus the size of one file. |
| Packing.SpreadRuns | packages/rust/src/on_file.rs:402-408 | The same with the parts bounded by cores, files and data. |
| Packing.Invocations | packages/rust/src/on_file.rs:186-233 | Whichever way the dispatcher goes, its invocations split the arguments within the budget; when one list cannot carry them the lists are full, hence the fewest there can be; when one can, they are spread evenly by data over at most the parts wanted; no arguments give none. |
| Pool.Tally.Next | packages/rust/src/on_file.rs:271-280 | Jobs are numbered in the order sent, and a worker is asked for only below the limit. |
| Pool.StepKeeps | packages/rust/src/on_file.rs:83-112 | Every step of dispatcher, workers and sink keeps the invariant: each job is with one worker at most, rows go out in order, and failures are recorded once and truly. |
| Pool.RunKeeps | packages/rust/src/on_file.rs:83-233 | Every run keeps it. |
| Pool.ChunksInOrder | packages/rust/src/on_file.rs:297-332 | At every moment the rows received of an invocation are a prefix of its rows, in order, none twice. |
| Pool.OkMeansAllDelivered | packages/rust/src/on_file.rs:218-233 | A finished run is Ok exactly when no job fails, and then every job's rows reached the sink, once and in order. |
| Pool.ErrorIsLowestRecorded | packages/rust/src/on_file.rs:222-232 | The error is that of the lowest-numbered recorded failure, and every recorded failure is a job's own. |
| Pool.FailureStopsTheRest | packages/rust/src/on_file.rs:83-112 | Once a job has failed, no job not yet started is ever run, and none of its rows are handed over. |
| Pool.Bounded | packages/rust/src/on_file.rs:83-112 | There are never more workers than cores or jobs, nor more chunks waiting than the channel has room for. |
| Pool.NeverStuck | packages/rust/src/on_file.rs:83-220 | In every reachable unfinished state some step can be taken: no deadlock over the bounded rows channel or after an abort. |
| Pool.RunsEnd | packages/rust/src/on_file.rs:83-220 | Every run has at most a computed number of steps. |
| Dispatch.CarriedOnce | packages/rust/src/on_file.rs:186-217 | Every path is in the argument list of one invocation and no other. |
| Dispatch.EveryPathServed | packages/rust/src/on_file.rs:83-233 | However the paths are split and the threads interleave, a run that ends Ok gave every path to exactly one invocation, which succeeded and whose rows all arrived in order; it ends Ok exactly when no invocation fails. |
| Streaming.ParseConcat | packages/rust/src/infer.rs:149-170 | Parsing two parts, the second numbered on from the first, gives the rows and first error of the whole. |
| Streaming.LinesSplit | packages/rust/src/infer.rs:149-170 | Cutting after a newline cuts the lines in two. |
| Streaming.LinesAreCounted | packages/rust/src/on_file.rs:306-320 | A text of whole lines has as many lines as newlines, so counting newlines numbers the next block right. |
| Streaming.ParseRowsAt | packages/rust/src/infer.rs:149-170 | The parse loop gives the rows of the lines, or the first bad line with its number. |
| Streaming.DrainThenReap | packages/rust/src/command.rs:339-363 | However the output is split into reads, the blocks concatenate to it, none is empty, and all but the last end a line. |
| Streaming.BlockParser.OnBlock | packages/rust/src/on_file.rs:304-324 | After each block, the state is that of one parse of everything seen; a bad line is kept and later blocks are drained. |
| Streaming.RunInvocation | packages/rust/src/on_file.rs:297-332 | The outcome is that of one parse of the whole output, error and line number included, an exit failure outranking it; the rows sent concatenate to the whole parse's rows. |
| Listing.NamePrefix | packages/rust/src/listing.rs:404-410 | The loop over the first eight bytes builds the zero-padded big-endian word. |
| Listing.PaddedCompare | packages/rust/src/listing.rs:404-410 | Padded words compare as the names' first bytes do; a tie leaves the names to be compared. |
| Listing.ByNameIsLex | packages/rust/src/listing.rs:242-247 | Comparing prefixes first and names second is byte-lexicographic order on every pair. |
| Listing.SortOrders | packages/rust/src/listing.rs:60-64 | A sorted chunk is in order of names. |
| Listing.Chunker.Push | packages/rust/src/listing.rs:92-98 | Every entry pushed is kept once, in order, across chunk boundaries. |
| Listing.SplitsOrdered | packages/rust/src/listing.rs:265-269 | The splits taken from a sorted sample are in order. |
| Listing.MergeRun | packages/rust/src/listing.rs:298-317 | One thread's run is sorted, holds exactly its share of every chunk, and lies between its splits. |
| Listing.Merge | packages/rust/src/listing.rs:275-323 | For any cores and chunks, the merged entries are sorted and a permutation of all entries. |
| Listing.Sorted | packages/rust/src/listing.rs:177-211 | From the chunks as read to the listing: names are intact and the entries are a permutation of what was found, in byte order of their names. |
| WindowsArgs.QuoteWindowsArg | packages/rust/src/command.rs:439-465 | The loop writes the specified quoting. |
| WindowsArgs.QuotedReadsBack | packages/rust/src/command.rs:430-465 | One quoted argument, before a space or the end, reads back as itself. |
| WindowsArgs.CommandLineReadsBack | packages/rust/src/command.rs:430-465 | A whole command line of quoted arguments reads back as exactly those arguments, empty ones and trailing backslashes included, by either runtime's rule. |
| Brace.Gobble | packages/rust/src/brace.rs:42-64 | The scanning loop finds what its recursive specification finds. |
| Brace.StepsRun | packages/rust/src/brace.rs:188-197 | An accepted range has at most i32::MAX - 2 terms, starts at lo, moves one stride at a time towards hi, stays within the ends, and stops less than a stride short. |
| Brace.StepsFit | packages/rust/src/brace.rs:188-197 | No term overflows 64 bits, and no letter term leaves the byte range. |
| Brace.FormatReadsBack | packages/rust/src/brace.rs:134-163 | A padded term has the width asked for and parses back to its number. |
| Brace.RangeIsRead | packages/rust/src/brace.rs:116-184 | A range between any two written ends, 64-bit integers with any zero padding or letters, with or without a step, is recognised as that range; one between a letter and a number is none. |
| Brace.IntegersReadBack | packages/rust/src/brace.rs:146-154 | The words of an accepted range are its terms in order, each parsing back to its term and as wide as asked. |
| BraceRange.NumeralReads | packages/rust/src/brace.rs:124-141 | A sign or none and digits read as what the digits are worth, when that fits 64 bits, and as nothing otherwise. |
| BraceRange.OnlyNumeralsRead | packages/rust/src/brace.rs:124-141 | Nothing else reads as a number. |
| BraceRange.WorthOfDigits | packages/rust/src/brace.rs:124-141 | Digits are worth ten times those before the last and the last. |
| BraceRange.TooManyAreRefused | packages/rust/src/brace.rs:188-194 | A range is refused exactly when its ends lie too many strides apart, the stride being the step without its sign and zero counting as one. |
| BraceRange.IntegerWords | packages/rust/src/brace.rs:116-184 | A range between two integers, however spelled, has one word for each term in order, which reads as its term. When either end has a leading zero each word is at least as long as the longer end, and longer only without a leading zero; when neither has, no word has one. |
| BraceRange.ExactlyAsLong | packages/rust/src/brace.rs:174-184 | And then a word is exactly as long as the longer end whenever its number can be spelled that short. |
| BraceRange.LetterWords | packages/rust/src/brace.rs:155-160 | A range between two letters has one word for each term in order, the one character of that code. |
| BraceRange.MixedIsNoRange | packages/rust/src/brace.rs:146-162 | A number and a letter make no range. |
| BraceRange.OnlyRangesCount | packages/rust/src/brace.rs:116-163 | Text that is taken for a range is two spelled ends, and a step or none. |
| Brace.ExpandWord | packages/rust/src/brace.rs:76-112 | Expansion ends, on text length and then word before alternatives, and gives at least one word. |
| Brace.JoinedAt | packages/rust/src/brace.rs:87-103 | Every word of the middle is joined with every word of the rest, the left one varying slowest. |
| Brace.NoBraceNoChange | packages/rust/src/brace.rs:76-103 | Text without an open brace is its own only word. |
| BraceMeaning.PassPattern | packages/rust/src/brace.rs:42-64 | A scan for a close or a comma passes over any well-written pattern, however deep its groups. |
| BraceMeaning.FirstGroup | packages/rust/src/brace.rs:68-86 | The first group found in a well-written pattern is the first one written, from its own open to its own close. |
| BraceMeaning.AlternativesMean | packages/rust/src/brace.rs:105-112 | Alternatives split at their own commas and expand one after another. |
| BraceMeaning.ExpansionMeans | packages/rust/src/brace.rs:76-112 | Every well-written pattern, nested to any depth and whatever ranges mean, expands to exactly the words it means: each choice of one word per group, in order, the leftmost group varying slowest. |
| BraceMeaning.WordMeans | packages/rust/src/brace.rs:76-163 | The same with ranges read as the code reads them. |
| Brace.EscapeBraces | packages/rust/src/brace.rs:203-234 | The escaping loop writes the specified text. |
| Brace.EscapeKeepsReading | packages/rust/src/brace.rs:203-247 | globset reads the escaped word as the word was meant: each literal brace as itself, each class and escape as written. |
| Brace.NoGroupingRead | packages/rust/src/brace.rs:203-247 | That reading has no brace group and no unclosed class. |
| Brace.Expand | packages/rust/src/brace.rs:10-16 | Every glob returned reads as its word and never as a brace group. |
| PosixClass.WithoutHolds | packages/rust/src/posix_class.rs:272-278 | Taking a character out of the ranges takes out that character and no other. |
| PosixClass.Pick | packages/rust/src/posix_class.rs:230-249 | The loops over the ranges find the positional characters the set holds and the sorted ranges without them. |
| PosixClass.SortedIsOrdered | packages/rust/src/posix_class.rs:230-249 | The ranges written are in order of where they start, and then of where they end. |
| PosixClass.RenderText | packages/rust/src/posix_class.rs:230-268 | For every set of ranges, the text written step by step (separator settled, positional characters picked out, the rest sorted and written, each special placed) is a bracket that globset, whatever follows, takes for exactly that set or its complement and never for a separator. |
| PosixClass.RenderMeans | packages/rust/src/posix_class.rs:230-268 | globset reads a rendered bracket, for every set of ranges and whatever follows, as one that matches what the set or its negation does and never matches a slash. |
| PosixClass.ParseBracket | packages/rust/src/posix_class.rs:50-122 | The cursor loop parses the bracket its specification parses and stops where it stops. |
| PosixClass.ItemsRead | packages/rust/src/posix_class.rs:62-112 | Every list of bracket items, printed, is scanned back to what its items add. |
| PosixClass.BracketReads | packages/rust/src/posix_class.rs:50-122 | Every bracket of the grammar is recognised whole and rewritten from its items. |
| PosixClass.RewriteMeans | packages/rust/src/posix_class.rs:50-122 | A rewritten bracket matches, by globset's rules, exactly the characters its items hold, or for a negated one do not; never a slash; and nothing when a range ends in a class. |
| PosixClass.BracketExpands | packages/rust/src/posix_class.rs:13-45 | In a pattern, a bracket is replaced exactly when it has an item globset lacks, and what follows is expanded on its own. |
| PosixClass.NoBracketNoChange | packages/rust/src/posix_class.rs:13-45 | A pattern without an open bracket is unchanged. |
| PosixClass.ExpandPosixClasses | packages/rust/src/posix_class.rs:13-45 | The loop over a whole pattern, escapes included, is the specified expansion. |
| ScanProgram.ScannedIffPlainScan | packages/rust/src/db.rs:2258-2299 | A program is accepted with some columns exactly when it is the plain scan of them, then any transactions, then the closing jump, and there is a column. |
| ScanProgram.RunIsProjection | packages/rust/src/db.rs:2258-2299 | Run on an interpreter, any accepted program halts with the projection of every row in order, on any table. |
| ScanProgram.RunEndsOneWay | packages/rust/src/db.rs:1852-1869 | It never halts with anything else and never goes wrong on the way. |

## Left out

- SQLite itself beyond the table model: SQL text, the statement cache, the authorizer, pragmas, affinities, foreign keys, extension loading, and constraints other than UNIQUE and PRIMARY KEY.
- Parsing and printing of JSON in worker requests and responses, and the wording of error messages, which are constructors here.
- More than one user table in an index; every operation names its table and touches no other.
- The lookups `owned_files`, `files_under` and `owns_rows`, which read the ownership relations and change nothing.
- Freshness: watcher events, and a per-table hook that fails during a refresh yet is recorded as read.
- Events leave out the table and file names they carry.
- Process spawning, pipes, timeouts, exit codes, stderr tails, directory reading and stat calls; their results are inputs.
- Packing.Spread: does not model the wrap-around of `seen * parts` in 64 bits, which needs more than 2^64 bytes times cores of data.
- Packing.Invocations: takes the paths as a list, so an invocation cannot start here before the last path is known; `Pool` models that it can.
- Listing.Sorted: runs its threads one after another, on disjoint slices, and builds those slices as sequences rather than filling one buffer in place; the standard library's sorts are stood in for by an insertion sort of the same contract.
- The 32-bit offsets into a chunk's name buffer, whose overflow the source treats as a panic.
- Streaming.ParseRowsAt: takes the judgement of one line (trimming, JSON, lone surrogates) as a parameter, and leaves out the sharing of key strings between rows.
- Streaming.DrainThenReap: reads characters, so lossy decoding of invalid UTF-8 at a block's edge is not modelled; blocks end at newlines, which no multi-byte character contains.
- ScanProgram.RunIsProjection: interprets the opcodes a plain scan uses; `p4` is not compared by the source and not modelled, and a virtual table's filter with no arguments is a full scan.
- PosixClass.RewriteMeans: class contents, the regex markers of Unicode classes and the collating-symbol table are parameters; the character NUL and brackets outside the stated grammar are not spoken for, though `PosixClass.ExpandPosixClasses` follows the code on every text.
- BraceMeaning.WordMeans: speaks of patterns written from characters, escapes, alternatives and ranges; stray and unbalanced braces, and groups that start with white space, follow the code in `Brace.ExpandWord` but have no meaning of their own here.
- Brace.EscapeKeepsReading: `**` is read as two single wildcards on both sides.
- `config.rs`, `launcher.rs`, `params.rs`, `glob_unescape.rs`, `sql_literal.rs`, `table_refs.rs`, `row_stream.rs`, `path_table.rs`, `persist.rs`, `matcher.rs`, `infer_schema` and the language bindings: simple mappings, I/O, or code whose meaning lives in crates outside the repository.
