# The Flow Emulator's chain engine, verified

The emulator is a single-node Flow chain. Clients submit transactions to a
pending block, execute it all at once or one transaction at a time, and commit
it; a ticker may do the same on a timer; the chain can be rolled back; blocks,
results, events and registers can be looked up at any time. This project is a
model of that engine in Dafny, with proofs of what it promises.

## How it is built

**Stores.** The default store is a set of SQLite tables of rows
`(key, version, height) -> value`. `Tables` says what its newest-version query may
return, `Storage` what a commit adds and a rollback deletes, `History` and
`StoreQueries` that the tables are a function of the blocks still standing, and
that every question has one answer; `Positions` says what filtering by kind keeps.
`Sqlite` is the store as an object.
`Memstore` is the in-memory store and the proof that it answers alike. `Remote` and
`ForkBlocks` are the fork store, `Pruning` the pruning of its cache directory.

**Engine.** `Pending` is the block being formed and the three ways of running a
transaction; `Chain` is the state machine, one step per call, with the virtual
machine as a function of context, transaction, index and registers that may
fail fatally, fail to merge, or succeed. `PendingBlocks` and `Blockchain` are
the same as objects, each method proved to perform its step.

**Runs.** `Invariants` and `Runs` hold the invariant kept by every step. On top of
it stand theorems over every run and every interleaving: `Safety` (shape of the
chain, immutable history, rollback), `Outcomes` and `Failures` (what is accepted,
refused and returned, and what failures leave), `Delivery` and `Ticker` (no loss, no
duplication, poisoned blocks, ticks), `Origins` and `Provenance` (entropy, time,
and where standing blocks come from), `Replay`, `Execution`, `Sequential` and
`Exactness` (sequential execution), `Indexes` and `Conservation` (event indexes and
event lists), `Leftovers` (runs that break them), `Lookups` and `ScheduledLookups`
(results), `ScheduledIndexes` (the tables that rollbacks leave alone), `Repeats`
(runs in which scheduled lookups disagree), `BlockQueries` (block and range
queries), `MemIndexes` (scheduled indexes of both stores), `WellDefined` (keys and
ties). `StatusStream` is the
transaction-status stream.

## Assumptions

- Hashes are injective on contents. No function into 32 bytes is, so the model
  leaves their length open. `WellDefined.InjectiveHashesExist` shows that the
  assumption can be met, and `Runs.StartInv` that the invariant then can.
- Encoding and decoding of stored values round-trips, and storage calls do not
  fail.
- Time, randomness, the verdict of the transaction validator and the answers of
  the remote node are parameters.
- One result assumes more of the virtual machine and says so:
  `Indexes.EventsCarryIndexes`, that it stamps events with the index it is given.
- Finalizing the pending ledger, which happens before the store checks its counts,
  leaves the ledger usable: a commit retried after a count mismatch runs on it as
  the first attempt did.
- Each call is one step. `RollbackToBlockHeight` and `SetClock` do not take the
  emulator's lock; the model takes them to be atomic all the same.
- The order in which Go visits a map is left open; loops over maps are proved for
  every order.

## Where a promise does not hold

- A commit that fails after its system transactions ran keeps their events and
  writes in the pending block, so a retry can store an event twice.
  `Leftovers.RetryDuplicatesEvents` is such a run; `Conservation.ConservedExactly`
  says exactly when events are conserved.
- Sequential execution fails in the same run, and also when the clock is set after
  execution has started: `Leftovers.ClockBreaksSequence`.
  `Exactness.SequentialExactly` says exactly which pending blocks commit as
  sequential runs.
- Scheduled lookups disagree when a number or its transaction was run at two
  heights. `Repeats.RepeatedNumberIsAmbiguous` is a run with two such blocks
  standing, `Repeats.StaleEntryHidesBlock` one in which an entry that a rollback
  left behind hides the only block that stands.
  `ScheduledLookups.ScheduledLookupsAgree` says exactly when the lookups agree.
- The scheduled indexes of the two stores differ in the first of these runs
  (`Repeats.RepeatedIndexesDiffer`); `MemIndexes.NumberIndexesAgree` and
  `MemIndexes.TransactionIndexesAgree` say exactly when they agree.
- The fork cache ignores heights. `Remote.StaleBelowFork` shows two reads below the
  fork that get one value; `Remote.TransparentExactly` says exactly which runs
  cannot tell that there is a cache.
- Above the tip the in-memory store has no registers, while the row store answers
  as at the tip: `Memstore.DifferAboveTip`. `Memstore.StoresAgree` says exactly when
  they agree.
- The in-memory store appends the events of a second block stored at a height, the
  row store replaces them: `Memstore.SecondBlockDiffers`. No run of the emulator
  stores two blocks at a height without a rollback between them.
- The comment on `GetSystemTransactionResult` says that the zero identifier
  returns the first system transaction; the code returns the last, the system
  chunk, and `ScheduledLookups.SystemRunsGive` says so of the model.
- A stream's expiry test subtracts unsigned 64-bit heights, so a height below the
  start can count as expired (`StatusStream.ExpiresBelowStart`);
  `StatusStream.ExpiredExactly` says exactly which heights do.

## Model

| member | source | states |
|---|---|---|
| `Keys.HeightKey` | storage/store.go:186-188 | a height key is at least 32 digits long and reads back as the height |
| `Keys.IdKey` | storage/store.go:190-192 | an identifier key decodes to the identifier and never looks like a composite result key |
| `Keys.SystemResultKey` | storage/store.go:198-200 | a composite key determines both its block and its transaction |
| `Keys.ScheduledKey` | storage/store.go:194-196 | a scheduled key determines the scheduled number |
| `WellDefined.KeysDistinct` | storage/store.go:172-200 | distinct logical records of one table never share a key, user results and composite system results in one table included |
| `WellDefined.TiesAlwaysAgree` | storage/sqlite/store.go:304-343 | in every state of every run, rows of the seven rolled-back tables that tie on key and version hold the same value |
| `Tables.AnswerUnique` | storage/sqlite/store.go:332-343 | when ties agree, the LIMIT 1 query has one possible answer whatever the order of rows |
| `Tables.LedgerReadIsReplay` | storage/store.go:806-827 | the newest version at or below a height is, for every register and height, the value left by replaying the blocks up to it |
| `Storage.RollbackInvertsCommits` | storage/sqlite/store.go:140-171 | rolling back after any commits above a height restores the seven tables row for row, and the latest height |
| `Storage.RollbackTwice` | storage/sqlite/store.go:140-171 | two rollbacks are one rollback to the lower height |
| `History.TiesAgreeInReplay` | storage/sqlite/store.go:315-343 | content-addressed rows written again at other heights tie with equal values in every table |
| `History.ReadIsFind` | storage/sqlite/store.go:332-368 | a table read answers exactly what a search of the chain from its newest block down finds |
| `StoreQueries.SqlAnswersChain` | storage/store.go:399-662 | blocks, collections, transactions, user and system results, events and registers have exactly one answer each, the one the chain of commits determines, present or not found |
| `StoreQueries.SelectEvents` | storage/store.go:655-661 | keeps exactly the events at the positions of the asked kind, in order, all of them for the empty kind |
| `StoreQueries.OfKindExactly` | storage/store.go:655-661 | the kept events are those at the increasing list of exactly the positions of the kind, all positions for the empty kind, and no other list of events is |
| `StoreQueries.EventsAreFiltered` | storage/store.go:638-662 | the only answer at a height is the list of its block filtered so, and no events above the tip |
| `Sqlite.Store.SetBytesWithVersion` | storage/sqlite/store.go:304-330 | upserts one row stamped with the current height, or height 0 in the global table, and touches nothing else |
| `Sqlite.Store.SetBytes` | storage/sqlite/store.go:300-302 | the same at version 0 |
| `Sqlite.Store.GetBytesAtVersion` | storage/sqlite/store.go:332-368 | returns some row of the newest version at or below the asked one, and not found exactly when there is none |
| `Sqlite.Store.GetBytes` | storage/sqlite/store.go:296-298 | the same at version 0 |
| `Sqlite.Store.SetBlockHeight` | storage/store.go:209-217 | sets the height stamped on rows and the stored latest height |
| `Sqlite.Store.LatestBlockHeight` | storage/store.go:225-238 | the stored latest height, or none |
| `Sqlite.Store.StoreBlock` | storage/store.go:339-382 | adds the block and its index row, and raises the latest height only when the block is not below it |
| `Storage.LatestIsHighest` | storage/store.go:339-382 | a commit raises the latest height to its own and never lowers it |
| `Sqlite.Store.StoreSystemTransactions` | storage/store.go:259-276 | stores the list of system transactions of a block that has any |
| `Sqlite.Store.InsertCollections` | storage/store.go:511-523 | one upsert per collection under its hash |
| `Sqlite.Store.InsertTransactions` | storage/store.go:546-558 | the table gains exactly the given bodies, in whatever order the map is visited |
| `Sqlite.Store.InsertTransactionResults` | storage/store.go:603-618 | the table gains exactly the given user results |
| `Sqlite.Store.InsertSystemTransactionResults` | storage/store.go:620-636 | the table gains exactly the given results under composite keys |
| `Sqlite.Store.InsertExecutionSnapshot` | storage/store.go:682-699 | the ledger gains one row per written register, versioned by height |
| `Sqlite.Store.InsertEvents` | storage/store.go:664-680 | the events of a height are replaced by the given list |
| `Sqlite.Store.CommitBlock` | storage/store.go:701-798 | refuses on a count mismatch and then changes nothing; otherwise every table becomes the old one plus the layer of this block |
| `Sqlite.Store.RollbackToBlockHeight` | storage/sqlite/store.go:140-171 | refuses at or above the current height and then changes nothing; otherwise keeps exactly the rows at or below the height in the seven tables, leaves the others alone and sets the height |
| `Sqlite.Store.BlockByHeight` | storage/store.go:399-412 | an answer of the block query |
| `Sqlite.Store.BlockByID` | storage/store.go:433-450 | an answer of the two-step query through the index |
| `Sqlite.Store.LatestBlock` | storage/store.go:240-257 | an answer of the two-step query through the latest height |
| `Sqlite.Store.CollectionByID` | storage/store.go:452-471 | an answer of the collection query |
| `Sqlite.Store.TransactionByID` | storage/store.go:525-544 | an answer of the transaction query |
| `Sqlite.Store.TransactionResultByID` | storage/store.go:560-579 | an answer of the result query |
| `Sqlite.Store.SystemTransactionResultByID` | storage/store.go:581-601 | an answer of the composite-key result query |
| `Sqlite.Store.SystemTransactionsForBlockID` | storage/store.go:414-431 | an answer of the system list query |
| `Sqlite.Store.EventsByHeight` | storage/store.go:638-662 | an answer of the event query, filtered by kind; no row reads as no events |
| `Sqlite.Store.IndexScheduledTransactionID` | storage/store.go:279-287 | adds one row to the index by number |
| `Sqlite.Store.IndexScheduledTransactionBlockID` | storage/store.go:310-317 | adds one row to the index by transaction |
| `Scheduled.ParseScheduledIDs` | emulator/scheduled_transactions.go:33-70 | the decimal forms of the announced numbers in the order of the events, and none at all exactly when an announcing event does not decode |
| `Scheduled.AnnouncedExactly` | emulator/scheduled_transactions.go:33-70 | the parsed numbers are those decoded at the increasing list of exactly the positions of announcing events, and there are none exactly when such an event does not decode |
| `Provenance.NumbersFollowEvents` | emulator/blockchain.go:2302-2412 | in every run, in each block above genesis, the number of the j-th announcing event in the stored result of the process transaction finds the j-th callback listed, the last one among equal numbers, and no other number is recorded |
| `Scheduled.ScanOfDecimal` | emulator/blockchain.go:2384-2392 | printing and scanning is the identity on 64-bit numbers and fails on every larger one |
| `ScheduledLookups.NumbersAreKept` | emulator/blockchain.go:2302-2412 | the numbers recorded for a block are exactly those announced, paired in order with the callbacks |
| `ScheduledLookups.NumberFinds` | emulator/blockchain.go:2384-2392 | with distinct numbers the i-th number finds the i-th callback |
| `PendingBlocks.PendingBlock.constructor` | emulator/pendingBlock.go:61-83 | the new block is one above its parent, with a view 1 to 3 higher, and empty |
| `PendingBlocks.PendingBlock.AddTransaction` | emulator/pendingBlock.go:144-147 | appends the transaction to the list and the map, nothing else |
| `PendingBlocks.PendingBlock.NextTransaction` | emulator/pendingBlock.go:161-168 | the transaction at the execution index, none at the end |
| `PendingBlocks.PendingBlock.ExecuteNextTransaction` | emulator/pendingBlock.go:174-210 | the index moves on in every case; a fatal run records nothing, a failed merge keeps the events, a merged run records events, writes and result |
| `PendingBlocks.PendingBlock.SetClock` | emulator/pendingBlock.go:240-243 | changes the timestamp only |
| `Pending.ExecuteNextWellFormed` | emulator/pendingBlock.go:174-210 | execution keeps the list, the map and the results consistent and moves the index by one |
| `Pending.RunSystemComplete` | emulator/blockchain.go:2261-2412 | a system run that ends lists what it has bodies and results for, the chunk last, each scheduled number strictly between process and chunk |
| `Blockchain.Blockchain.constructor` | emulator/blockchain.go:713-788 | a new emulator holds the genesis block and an empty pending block on top of it |
| `Blockchain.Blockchain.AddTransaction` | emulator/blockchain.go:1307-1335 | the step Add, which accepts exactly when the verdict is good, execution has not started and the transaction is neither pending nor in a standing block |
| `Outcomes.AcceptedExactly` | emulator/blockchain.go:1307-1335 | exactly when a transaction is accepted and what that changes, and exactly when each of the three errors is given instead, with nothing changed |
| `Outcomes.AcceptedWasValid` | emulator/blockchain.go:1324-1330 | in every run, whatever was accepted came from a submission with a good verdict |
| `Outcomes.RefusedExactly` | emulator/blockchain.go:1307-1593 | every kind of step is refused exactly for its own reasons, and a refused step changes nothing |
| `Outcomes.AbandonedExactly` | emulator/blockchain.go:1463-1556 | past its guards a commit is abandoned exactly when the system run fails, a transaction lacks its result or a system transaction repeats, each with its own error |
| `Outcomes.RunsReturnRecorded` | emulator/blockchain.go:1345-1425 | execution returns the outputs recorded in the results, in order and all converted, and halts exactly behind a transaction without a result or with one that does not convert |
| `Failures.FailedTransactionLeaves` | emulator/pendingBlock.go:174-210 | a user transaction that fails leaves its position behind and the events of an output that did not merge, no write and no result |
| `Failures.SystemEnds` | emulator/blockchain.go:2302-2412 | all ways a system run can end: everything ran, converted and did not revert; or the events did not decode; or exactly one transaction stopped it, and what that left |
| `Failures.FailedCommitLeaves` | emulator/blockchain.go:1496-1556 | an abandoned commit leaves everything as it was but the pending work, which is that of the transactions that ran and the residue of the one that stopped |
| `Blockchain.Blockchain.ExecuteNextTransaction` | emulator/blockchain.go:1385-1446 | the step RunOne: exhausted, halted on a failure, or one more transaction executed |
| `Blockchain.Blockchain.ExecuteBlock` | emulator/blockchain.go:1345-1369 | the step RunAll: runs what is left and stops at the first failure, with the outputs so far |
| `Blockchain.Blockchain.ExecuteScheduledTransactions` | emulator/blockchain.go:2302-2412 | runs the process transaction and the callbacks it announces, with exactly the leftovers of each failure point |
| `Blockchain.Blockchain.ExecuteCallbacks` | emulator/blockchain.go:2362-2409 | the callback loop: order, bodies, results, numbers, events and writes after any number of callbacks |
| `Blockchain.Blockchain.ExecuteSystemChunkTransaction` | emulator/blockchain.go:2261-2300 | the chunk is numbered after all others and must not revert |
| `Blockchain.Blockchain.ExecuteSystemTransactions` | emulator/blockchain.go:1502-1536 | scheduled transactions first, if enabled, then the chunk |
| `Blockchain.Blockchain.IndexNumbers` | emulator/blockchain.go:1558-1565 | indexes every scheduled number of the block |
| `Blockchain.Blockchain.IndexTransactions` | emulator/blockchain.go:1567-1575 | indexes every system transaction that is not a static one |
| `Blockchain.Blockchain.SaveBlock` | emulator/blockchain.go:1541-1575 | the store after a commit and its indexing, or unchanged on a count mismatch |
| `Blockchain.Blockchain.StoreBlock` | emulator/blockchain.go:1538-1593 | stores the record, starts the next pending block and moves the entropy to the committed block, or leaves only the work of the attempt |
| `Blockchain.Blockchain.CommitBlock` | emulator/blockchain.go:1463-1593 | the step Seal, guards included |
| `Blockchain.Blockchain.ExecuteAndCommitBlock` | emulator/blockchain.go:1604-1626 | executes and, if nothing failed, commits |
| `Blockchain.Blockchain.SendTransaction` | emulator/blockchain.go:1280-1297 | adds and, with auto-mining, executes and commits at once |
| `Blockchain.Blockchain.Tick` | emulator/blockTicker.go:42-52 | execute, then commit whatever execution returned |
| `Blockchain.Blockchain.ResetPendingBlock` | emulator/blockchain.go:1629-1650 | the step Renew: a fresh pending block on the latest one |
| `Blockchain.Blockchain.RollbackToBlockHeight` | emulator/blockchain.go:570-582 | the step Prune: the store rolled back and a fresh pending block on the block then latest, or refused |
| `Blockchain.Blockchain.SetClock` | emulator/blockchain.go:2171-2174 | the step SetClock |
| `Runs.StartInv` | emulator/blockchain.go:738-788 | a new emulator satisfies the invariant |
| `Runs.NextKeeps` | emulator/blockchain.go:1307-1650 | every step, successful or not, keeps the invariant: good linked history, tables a function of it, pending block on top and disjoint from it |
| `Runs.Run` | emulator/blockchain.go:1307-1650 | so it holds in every state of every run, of exactly the commits then standing |
| `Safety.ChainShape` | emulator/pendingBlock.go:61-113 | in every run stored heights are exactly 0 to latest, each block names its predecessor, views rise by 1 to 3 so that height <= view <= 3 * height, and the pending block continues the line |
| `Safety.HistoryIsImmutable` | storage/store.go:806-838 | blocks, events and registers at or below a committed height are unchanged by any later steps that do not roll back below it |
| `Safety.RollbackRestores` | emulator/blockchain.go:570-582 | whatever happened above a tip, rolling back to it restores the seven tables row for row and gives a fresh pending block on it |
| `Delivery.SealSucceeds` | storage/store.go:714-727 | a commit past its guards succeeds exactly when every transaction has a result, the system run ended and no system identifier repeats |
| `Delivery.FailurePoisons` | emulator/pendingBlock.go:181-207 | a fatal run or failed merge poisons the pending block |
| `Delivery.PoisonedForever` | emulator/blockchain.go:1463-1556 | no later steps short of a reset or rollback commit a poisoned block or change the store |
| `Delivery.NothingLost` | emulator/blockchain.go:1307-1593 | accepted transactions are, in order, those committed and then those pending |
| `Delivery.DeliveredOnce` | emulator/blockchain.go:1307-1593 | in every run without resets and rollbacks each accepted transaction is in exactly one position of one block or of the pending block |
| `Delivery.CommittedHasResult` | storage/store.go:714-727 | every committed transaction reads back a result naming its own block |
| `Ticker.PoisonedOrRecorded` | emulator/pendingBlock.go:181-207 | a pending block is poisoned exactly when an executed transaction lacks its result |
| `Ticker.TickCommits` | emulator/blockTicker.go:42-52 | an uninterrupted tick commits exactly when the block was not poisoned, every transaction left runs and merges, every one but the last converts, and the system transactions run without repeating; then all pending transactions are committed and the pending block is empty, and otherwise the store is unchanged |
| `Ticker.RunsThroughExactly` | emulator/blockchain.go:1345-1369 | executing a block leaves it complete and with all results exactly when it was not poisoned before and runs through |
| `Ticker.TickSeals` | emulator/blockchain.go:1463-1593 | the commit of a tick succeeds exactly when the block is complete and unpoisoned and its system transactions run |
| `Ticker.PromiseHolds` | emulator/pendingBlock.go:91-113 | once execution has started, the next block committed is exactly the block transactions were shown, under any steps but resets, rollbacks and clock changes |
| `Ticker.ClockBreaksPromise` | emulator/pendingBlock.go:240-243 | setting the clock changes the pending identifier exactly when it changes the time |
| `Replay.SystemReplay` | emulator/blockchain.go:2302-2412 | a completed system run is a sequential run of process, callbacks and chunk on top of the user transactions |
| `Indexes.EachRun` | emulator/pendingBlock.go:174-210 | in a sequential run each transaction is given its position and exactly the registers its predecessors left |
| `Execution.SealIsFaithful` | emulator/blockchain.go:1463-1593 | committing a pending block that replays its transactions stores, position by position, the transactions, results, events and writes of running them one after the other |
| `Sequential.SequentialExecution` | emulator/blockchain.go:1463-1593 | in every run, the registers read back at a block committed from a pending block that replays its transactions are those they left from the registers of the height below, seeded with the identifier of the block committed last |
| `Origins.RunEntropy` | emulator/blockchain.go:1589-1590 | in every run, rollbacks and resets included, the entropy is the identifier of the block committed last, standing or not, and the zero identifier before the first commit |
| `Origins.RunTime` | emulator/pendingBlock.go:61-83 | in every run the time of the pending block is that of the last step that committed, rolled back, reset or set the clock, and at first that of the start |
| `Provenance.BlockOrigin` | emulator/blockchain.go:1463-1593 | every standing block above genesis was made by a commit of the run, on the blocks below it, with the entropy and the time that the run before it left |
| `Provenance.ResultsTell` | emulator/blockchain.go:1109-1150 | in every run, the result shown for the k-th transaction of a block tells the events, the status and the error of a run of it with index k, in that block and collection |
| `Provenance.GenesisReads` | emulator/blockchain.go:738-788 | in every state of every run, height 0 reads back the genesis block, the bootstrapped registers and the bootstrap events |
| `Sequential.UndisturbedReplays` | emulator/blockchain.go:1345-1446 | in every run, a pending block without a failed commit or a clock change since execution started replays its transactions |
| `Exactness.SequentialExactly` | emulator/blockchain.go:1463-1593 | whatever the system transactions do, every commit of a pending block is explained by a sequential run if and only if the block, when it can be committed at all, replays its user transactions under its present header |
| `Conservation.ConservedExactly` | emulator/blockchain.go:1538-1539 | the events stored for a block are those of its results in order if and only if the pending block held exactly the events of its results when the commit was called |
| `Conservation.EventsConserved` | storage/store.go:638-680 | in every run without leftovers of a failed commit the unfiltered events read back are those of the results in order |
| `Indexes.SealNumbered` | emulator/blockchain.go:2316-2409 | every commit stores, at each position, the result of a run of the transaction listed there with that position as index |
| `Indexes.IndexesInOrder` | emulator/pendingBlock.go:181-207 | in every run, every standing block above genesis numbers its user, process, scheduled and chunk transactions 0 to n - 1 in execution order, whatever failed before |
| `Indexes.EventsCarryIndexes` | emulator/blockchain.go:2316-2409 | so the events of the i-th transaction of any block of any run carry index i |
| `Leftovers.RetryDuplicatesEvents` | emulator/blockchain.go:2346-2349 | a concrete run in which a retried commit stores an event twice and no sequential run explains the block |
| `Leftovers.ClockBreaksSequence` | emulator/blockchain.go:2171-2174 | a concrete run in which the clock is set during execution and no sequential run explains the block |
| `Lookups.NoDanglingResults` | emulator/blockchain.go:1090-1157 | a sealed answer to any lookup names a block stored now, by identifier and by height, however stale the indexes are |
| `Lookups.NeverDangling` | emulator/blockchain.go:2006-2158 | the same in every state of every run, rollbacks included |
| `Lookups.SystemListAnswer` | storage/store.go:414-431 | the list read for a standing block is the one committed with it, though lists survive rollbacks |
| `ScheduledIndexes.RunRemembers` | emulator/blockchain.go:1558-1575 | in every run, rollbacks included, the two scheduled indexes and the system lists hold exactly what the blocks ever made put there, later ones over earlier ones, and every standing block was the last made at its height |
| `ScheduledIndexes.RunKeepsIndex` | emulator/blockchain.go:1558-1575 | without rollbacks they hold the entries of the standing blocks and no other |
| `ScheduledIndexes.NumberEntry` | storage/store.go:278-307 | the entries readable for a number are those of the blocks ever made that ran it, the latest at each height, and there is none exactly when no block did |
| `ScheduledIndexes.IdEntry` | storage/store.go:309-337 | the same for the entries of a transaction |
| `ScheduledIndexes.ListEntry` | storage/store.go:414-431 | the list readable for a block, standing or rolled back, is the one last stored for it |
| `ScheduledLookups.NumberInBlockExactly` | emulator/blockchain.go:2103-2124 | in every run a number asked for in a block has one answer: not found unless the last list of the block has it, and the result recorded there if the block stands, unknown otherwise |
| `ScheduledLookups.ByNumberExactly` | emulator/blockchain.go:2128-2158 | in every run, asking by number can give exactly what the blocks ever made that ran it answer, the latest at each height, stale ones included, and not found when none did |
| `ScheduledLookups.ByTransactionExactly` | emulator/blockchain.go:1090-1107 | the same by the identifier of a transaction that is neither pending, nor a user transaction, nor static |
| `ScheduledLookups.ForwardNumbers` | emulator/blockchain.go:2128-2158 | without rollbacks the possible answers are exactly the results of the standing blocks that ran the number, and not found exactly when none did |
| `ScheduledLookups.ForwardTransactions` | emulator/blockchain.go:1090-1107 | the same by transaction, with unknown exactly when no standing block ran it |
| `ScheduledLookups.ScheduledLookupsAgree` | emulator/blockchain.go:2103-2158 | the lookup by number and block gives the recorded result only, and those by number and by transaction give it too exactly when the number and the transaction were never run at another height, not even in blocks rolled back since, or the transaction has that very user result |
| `ScheduledLookups.ScheduledRunsAgree` | emulator/blockchain.go:2103-2158 | the same over every run |
| `Repeats.RepeatedNumberIsAmbiguous` | emulator/blockchain.go:2128-2158 | a concrete run of two commits after which neither block's result is the only answer by number, nor the only one by transaction |
| `Repeats.RepeatedIndexesDiffer` | storage/memstore/memstore.go:173-211 | after the same run both scheduled indexes of the row store can give what the maps of the in-memory store do not |
| `Repeats.StaleEntryHidesBlock` | storage/sqlite/store.go:140-171 | a concrete run with a rollback after which a standing block ran the number and asking by number can still give unknown |
| `Blockchain.Blockchain.GetTransaction` | emulator/blockchain.go:1060-1081 | finds a transaction exactly when it is pending, stored or static, and what it finds has the asked identifier |
| `Blockchain.Blockchain.SystemTransactionResult` | emulator/blockchain.go:1130-1157 | an answer through the composite key, unknown when there is none |
| `Blockchain.Blockchain.GetTransactionResult` | emulator/blockchain.go:1090-1128 | pending, then user results, then the index by transaction, then unknown |
| `Blockchain.Blockchain.GetScheduledTransactionResultByBlockID` | emulator/blockchain.go:2103-2124 | an answer by number within a block |
| `Blockchain.Blockchain.GetScheduledTransactionResult` | emulator/blockchain.go:2128-2158 | an answer by number through the index |
| `Blockchain.Blockchain.GetSystemTransactionResult` | emulator/blockchain.go:2008-2040 | for a standing block the result recorded for a listed system transaction, the system chunk for the zero identifier, and nothing otherwise or in genesis |
| `ScheduledLookups.BySystemExactly` | emulator/blockchain.go:2008-2040 | in every run a system transaction asked for in a block has one answer, by the list last stored for the block, standing or not |
| `ScheduledLookups.SystemRunsGive` | emulator/blockchain.go:2008-2040 | over every run, a standing block gives exactly the recorded result of a transaction it lists, that of the system chunk for the zero identifier, and nothing otherwise or in genesis |
| `ScheduledLookups.StaticIsUnknown` | emulator/blockchain.go:1567-1575 | asked by identifier, the process transaction and the system chunk are unknown, however often they ran |
| `ScheduledLookups.PendingGives` | emulator/blockchain.go:1090-1096 | pending is the one answer exactly for the pending transactions |
| `Blockchain.Blockchain.GetBlockByID` | emulator/blockchain.go:977-988 | the standing block with that identifier, or none |
| `Blockchain.Blockchain.SystemIDs` | storage/store.go:414-431 | the system transactions of a block, and not found for genesis |
| `Blockchain.Blockchain.CollectionIDs` | emulator/blockchain.go:1021-1031 | the guaranteed collection of a block names its user transactions in submission order |
| `Blockchain.Blockchain.Transactions` | emulator/blockchain.go:1891-1897 | one transaction per identifier, in order |
| `Blockchain.Blockchain.GetTransactionsByBlockID` | emulator/blockchain.go:1873-1910 | the transactions of a standing block above genesis: users in submission order, then system ones in execution order; an error for genesis and unknown blocks |
| `Blockchain.Blockchain.GetTransactionResultsByBlockID` | emulator/blockchain.go:1912-1950 | the sealed results of the same transactions at the same positions |
| `Blockchain.Blockchain.UserResults` | emulator/blockchain.go:1928-1934 | the stored results of the user transactions, one per transaction, in order |
| `Blockchain.Blockchain.SystemResults` | emulator/blockchain.go:1941-1947 | the stored results of the system transactions, one per transaction, in order |
| `BlockQueries.ListsAligned` | emulator/blockchain.go:1873-1950 | both lists are equally long, agree on the transaction at every position, and every result is sealed |
| `Blockchain.Blockchain.BlockEventsAt` | emulator/blockchain.go:1249-1265 | block and events of one height, the events filtered by position and kind, or none above the tip |
| `Blockchain.Blockchain.GetEventsForHeightRange` | emulator/blockchain.go:1245-1269 | terminates with one entry per height from start to the smaller of end and tip, in order, also when end is the largest 64-bit number |
| `Blockchain.Blockchain.GetEventsForBlockIDs` | emulator/blockchain.go:1221-1243 | one entry per identifier of the longest known prefix, its events filtered by position and kind |
| `BlockQueries.KnownPrefix` | emulator/blockchain.go:1225-1229 | all identifiers before the end of the prefix are known and the next one is not |
| `Memstore.Store.constructor` | storage/memstore/memstore.go:63-78 | a new store is empty |
| `Memstore.Store.StoreBlock` | storage/memstore/memstore.go:116-125 | block, index and highest height |
| `Memstore.TipIsHighest` | storage/memstore/memstore.go:116-125 | the tip is the highest height ever stored |
| `Memstore.Store.InsertCollections` | storage/memstore/memstore.go:431-434 | adds each collection under its hash |
| `Memstore.Store.InsertTransactions` | storage/memstore/memstore.go:441-444 | adds exactly the given bodies, in whatever order |
| `Memstore.Store.InsertTransactionResults` | storage/memstore/memstore.go:446-449 | adds exactly the given results |
| `Memstore.Store.InsertSystemTransactionResults` | storage/memstore/memstore.go:451-456 | adds exactly the given results under composite keys |
| `Memstore.Store.InsertSystemTransactions` | storage/memstore/memstore.go:256-267 | stores the list of a block that has system or scheduled transactions |
| `Memstore.Store.InsertExecutionSnapshot` | storage/memstore/memstore.go:458-467 | layers the writes over the snapshot one height below, which for height 0 wraps around to an absent one |
| `Memstore.Store.InsertEvents` | storage/memstore/memstore.go:469-477 | appends to the events of the height |
| `Memstore.Store.InsertRecords` | storage/memstore/memstore.go:269-297 | users before system transactions |
| `Memstore.Store.InsertAll` | storage/memstore/memstore.go:244-311 | the state after all inserts of a commit |
| `Memstore.Store.CommitBlock` | storage/memstore/memstore.go:213-312 | refuses on a count mismatch and then changes nothing; otherwise the state after the commit |
| `Memstore.Store.LatestBlock` | storage/memstore/memstore.go:98-107 | the block at the highest height, or none |
| `Memstore.Store.BlockByID` | storage/memstore/memstore.go:127-142 | the block through the index, or none |
| `Memstore.Store.EventsByHeight` | storage/memstore/memstore.go:406-429 | the events of a height, filtered by position and kind |
| `Memstore.Store.Register` | storage/memstore/memstore.go:399-404 | the newest write at or below the top layer of a height |
| `Memstore.MemAnswersChain` | storage/memstore/memstore.go:213-477 | after any commits from height 0 the maps answer every question as the chain does, registers above the tip excepted |
| `Memstore.StoresAgree` | storage/memstore/memstore.go:213-477 | for every commit history and every question the layered maps and the versioned rows agree, and above the tip exactly when the register was never written |
| `Memstore.SnapshotsAreImmutable` | storage/memstore/memstore.go:399-404 | snapshots of committed heights are not changed by later commits |
| `MemIndexes.Indexes.constructor` | storage/memstore/memstore.go:63-78 | both scheduled indexes start empty |
| `MemIndexes.Indexes.IndexScheduledTransactionID` | storage/memstore/memstore.go:173-179 | an entry replaces the one before |
| `MemIndexes.Indexes.IndexScheduledTransactionBlockID` | storage/memstore/memstore.go:193-199 | an entry replaces the one before |
| `MemIndexes.Indexes.IndexNumbers` | emulator/blockchain.go:1558-1565 | every scheduled number of a block points to it |
| `MemIndexes.Indexes.IndexTransactions` | emulator/blockchain.go:1567-1575 | every system transaction of a block that is not static points to it |
| `MemIndexes.NumberIndexesAgree` | storage/memstore/memstore.go:173-191 | without rollbacks the row store can give only what the in-memory index by number gives exactly when no two standing blocks ran the number |
| `Memstore.DifferAboveTip` | storage/memstore/memstore.go:399-404 | after one block that writes a register, the row store answers at the next height and the in-memory store does not |
| `Memstore.SecondBlockDiffers` | storage/memstore/memstore.go:469-477 | of a second block stored at a height the maps append the events and the rows replace them |
| `MemIndexes.TransactionIndexesAgree` | storage/memstore/memstore.go:193-211 | the same for the index by transaction |
| `ForkBlocks.LocalBlockAnswer` | storage/remote/store.go:423-427 | the overlay finds exactly the local blocks of a forked chain |
| `Remote.RunShows` | storage/remote/store.go:423-452 | in every run of commits and rollbacks from the fork the overlay holds exactly the local blocks and the tip of the chain |
| `Remote.ForkedBlockHeight` | storage/store.go:386-393 | the fork height the store remembers, or none |
| `Remote.InitializeStartBlock` | storage/remote/store.go:336-389 | a remembered fork height wins; otherwise the given height, or the remote tip less ten in 64-bit arithmetic, is stored and becomes the latest height |
| `ForkBlocks.InitializedForks` | storage/remote/store.go:336-389 | over an empty store this is a fork with no local blocks |
| `ForkBlocks.ChosenHeightIs` | storage/remote/store.go:336-389 | a given height is taken; without one the fork is ten below the remote tip, wrapping around on a shorter chain |
| `ForkBlocks.ForkedBlockIs` | storage/remote/store.go:423-452 | remote headers without payload up to the root, local blocks above it, nothing above the tip |
| `Remote.ForkIsRemembered` | storage/remote/store.go:338-347 | after any run, opening the store again keeps its fork height and leaves it alone |
| `Remote.Store.constructor` | storage/remote/store.go:263-333 | opens the store over an overlay, new or used before, and a cache, empty or filled before |
| `Remote.Store.Register` | storage/remote/store.go:454-534 | overlay, then cache, then remote at the fork height or below; a remote read fills the cache |
| `Remote.Store.BlockByHeight` | storage/remote/store.go:423-452 | local blocks above the root, remote headers without payload at or below it, nothing above the tip |
| `Remote.Store.LatestBlock` | storage/remote/store.go:409-421 | the block at the tip, a remote one before the first commit |
| `Remote.ForkReads` | storage/remote/store.go:454-534 | if every read is at or above the fork height, any interleaving of reads, commits and rollbacks returns what it would without a cache |
| `Remote.CacheIs` | storage/remote/store.go:480-484 | over a cache that was empty or honestly filled before, the cache holds each register as its first lookup found it |
| `Remote.TransparentExactly` | storage/remote/store.go:454-534 | started over any cache, a run shows no trace of it on any remote chain on which it is honest if and only if each register that falls through is always looked up at one height, and one cached before at the fork height |
| `Remote.StaleBelowFork` | storage/remote/store.go:480-484 | two reads below the fork at different heights get one value |
| `Remote.UnsetReadsEmpty` | storage/remote/store.go:486-534 | a register that nobody has reads as empty and is cached as empty |
| `Pruning.SortByAccessTime` | storage/remote/store.go:189-192 | sorted, and a permutation |
| `Pruning.CacheDirectory.RemoveAll` | storage/remote/store.go:198-200 | removes the path if it can be removed |
| `Pruning.CacheDirectory.DeleteAt` | storage/remote/store.go:201 | closes the gap in place |
| `Pruning.CacheDirectory.PruneByAge` | storage/remote/store.go:194-205 | the list keeps exactly the unexpired caches in order, and exactly the expired ones are removed |
| `Pruning.CacheDirectory.PruneByCount` | storage/remote/store.go:207-214 | removes the oldest down to ten |
| `Pruning.CacheDirectory.PruneCache` | storage/remote/store.go:179-217 | survivors are unexpired, as many as allowed up to ten, none older than one given up, and nothing else is removed |
| `Pruning.LastAreKept` | storage/remote/store.go:207-214 | the newest entries of a sorted list are such a choice |
| `Pruning.KeepsUnique` | storage/remote/store.go:179-217 | unless access times tie there is only one such choice |
| `StatusStream.GenerateUpdates` | adapters/access.go:975-1011 | one update per status after the previous one up to the current one, with block details from finalized and execution details from executed on |
| `StatusStream.Stream.Next` | adapters/access.go:916-973 | one poll of the closure, with 64-bit distance for expiry |
| `StatusStream.StreamIsItsFirstSettlingPoll` | adapters/access.go:916-1011 | whatever the emulator answers, all updates ever sent are those of the first poll that settles the stream |
| `StatusStream.SealedStream` | adapters/access.go:975-1011 | a stream whose first settling poll has a result sends exactly four updates about it, with block and execution details from the right status on, and the re-encoded events if that is asked for |
| `StatusStream.ExpiredStream` | adapters/access.go:938-944 | one whose first settling poll has none sends a single expiry |
| `StatusStream.ReplyExactly` | adapters/access.go:916-973 | exactly when a poll is told not ready, end of data or a conversion error, and that only a settling poll changes the status |
| `StatusStream.ExpiredExactly` | adapters/access.go:938-940 | exactly which 64-bit heights count as expired, those below the start included |
| `StatusStream.ExpiresBelowStart` | adapters/access.go:938-940 | a poll one below the start expires the stream, one at height 0 for the largest start does not |
| `StatusStream.StreamRuns` | adapters/access.go:916-1011 | the statuses sent are none, exactly pending to sealed, or exactly expired, and after either every ready poll ends the stream |

## Left out

- The virtual machine, the Cadence runtime, signature checks and the transaction validator: foreign code, a run function and a verdict in the model.
- CBOR encoding, hexadecimal encoding of stored keys and values, SQLite itself, files and snapshots: commits and rollbacks of one open store are modelled, and of reopening a store only that a fork store finds its start block again.
- The Redis store, gRPC and REST servers, the admin and debugging interfaces, coverage and computation reports, scripts and accounts: plumbing or foreign code.
- Full collections, logs, and the lookups that return a transaction body by scheduled number or block: they only recombine queries modelled here.
- Compaction of layered snapshots: done by a library, modelled as a plain list of layers.
- Widths of heights, views, indexes and times: unbounded, except where wrapping decides a result (event ranges, stream expiry, the snapshot below height 0, scheduled numbers).
- Forked chains as whole runs of the engine: the fork store's reads and blocks are proved over runs of commits and rollbacks, without the pending block.
- Failures of pruning to list a directory entry: entries that cannot be read are not listed and are left alone.
- Blockchain.Blockchain.GetEventsForHeightRange: requires a chain of fewer than 2^64 blocks, since the loop variable would otherwise wrap around at the last one.
- Blockchain.Blockchain.Tick: the endless select loop around the tick is not modelled, and interleavings are covered by the state machine, not by the method.
- Pruning.SortByAccessTime: leaves the order of equal access times open, as the library sort does.
