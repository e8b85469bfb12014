# Verified model of the flash-sale backend

This project models the parts of a C++ flash-sale backend that must stay consistent under concurrency and failure, and
proves what they promise. `dafny verify dfyconfig.toml` checks all of it.

The components, each in its own modules:

- **Storage.** `Bytes`, `Crc32`, `CrcValues`, `Wal`, `WalFiles`, `Snapshot`, `KvTable`, `KvRuns`, `KvEngine`, `KvFailures`: files are byte
  sequences, a crash is a cut behind the last fsync, and every run of the group-commit writer, the snapshot and any number of crashes
  recovers the acknowledged history and a prefix of the group in flight.
- **Inventory.** `Text`, `Inventory`, `InventoryRuns`, `InventoryCodec`, `InventoryRecovery`, `InventoryOrphans`,
  `InventoryService`: the reserve, confirm, release and rollback machine with failed writes and undo, in every
  interleaving of its threads, at every crash point and after restart. `RedisInventory` is the same machine as Lua scripts, kept in lock-step.
- **Flash sale.** `Gate`, `Saga`, `SagaStock`, `SagaPath`: admission, reservation, queue, retrying workers and
  compensation as interleaved atomic steps; tokens and stock are accounted for in every run.
- **Orders and messages.** `OrderMessage` (payload and bounded queue), `OrderService`, `OrderRuns`, `OutboxCodec`, `Outbox`,
  `Broker`, `BrokerRuns`, `BrokerContents`, `BrokerLimits`: canonical codecs, idempotent creation with a stop between any two of its steps,
  at-least-once delivery, bounded retries and dead letters. `Startup` restarts the inventory and the orders together.
- **HTTP.** `Buffer`, `Http`, `HttpGrammar`, `HttpRender`, `HttpConnection`, `HttpServer`: the byte queue, the incremental parser and the
  read loop; when the requests depend on how the stream is split, and when not.
- **Cache and rate limit.** `Subsequence`, `Lru`, `LruRetention`, `SingleFlight`, `SingleFlightTrace`, `TokenBucket`.
- **Formats.** `Layouts`: the bytes of every file and message, written out.

Objects that the source updates in place are classes, its loops are loops, and each is proved against a function that
the lemmas are about. What foreign code answers (storage, network, publisher, order repository, clock, hash-map order)
is an argument. The checksum is an argument too wherever the result does not depend on what it computes.

Where a promised property is false of the code, the code is kept and the exact condition is proved, with the runs or
inputs that break it:

- A batch of more than 100000 mutations or 64 MiB, and a record over the replay limits, gets into the log and makes the
  next open fail (`KvTable.OpensIffDurable`, `KvTable.BatchDurableIff`); so does a snapshot of more than ten million keys
  (`KvEngine.SnapshotOpensIff`).
- The writer goes on behind an append that failed, and what it then acknowledges is safe when that append stopped between
  two records; exactly otherwise the log is not read as it was acknowledged (`KvFailures.ReadWholeIff`), and open may fail or
  drop what was acknowledged (`KvFailures.OpenBehindFailure`).
- A SKU with a `|` or an order text with a tab does not read back from storage (`InventoryCodec.DecodeReservationInvertsIff`,
  `OrderService.RoundTripIff`).
- `rollbackRelease` does not look at the available count (`Inventory.RollbackReleaseBalancedIff`), and a call that looked up
  its SKU before the id was used again works on the wrong one; the ledger is balanced in exactly the runs without either
  (`Inventory.ResumedCallBalancedIff`, `InventoryRuns.EveryRunBalancesIff`).
- More than 50000 orphans are released in one batch that the next start cannot read (`Startup.ReleaseOpensIff`).
- The undo of a failed orphan release is exact only without two orphans of one SKU (`InventoryRecovery.OrphanUndoExactIff`).
- An order whose event is refused and whose record is then not deleted leaves storage and memory different
  (`OrderService.CreateKeepsMirrorIff`); its key can be stored twice, and exactly then the index of a restart is not the
  inverse of the table (`OrderRuns.EveryStopRestores`, `OrderRuns.FailedDeleteBreaks`).
- A give-back of stock whose write fails leaves stock reserved for nobody (`SagaStock.StepCoversIff`,
  `SagaStock.FailedReleaseLeaves`), and a user who comes again after a compensation is queued without stock
  (`SagaStock.HeldMessageHasStockIff`).
- A quantity of 2^32 or more is cut when a message is serialized, which the in-memory queue does not do
  (`OrderMessage.RoundTripIff`).
- A half-written outbox record makes the whole file unreadable (`OutboxCodec.CutOpensIff`).
- Events that share an id leave the broker together (`BrokerRuns.OnlySettledLeaveIff`), and the broker itself makes dead
  letters that share one (`Broker.LettersShareIdIff`).
- Attempt keys of topics with a bar may coincide, and a counter then reaches the limit of another subscription
  (`Broker.KeysMeetIff`, `BrokerLimits.StaysBelowIff`, `BrokerLimits.BarsBreakTheLimit`).
- A key in the cache is loaded again exactly when a caller that missed it earlier joins late
  (`SingleFlight.StartsIff`, `SingleFlight.EveryRunReloadsIff`, `SingleFlight.LoadedTwice`).
- A 413 depends on how much arrived at once (`HttpConnection.SplitDoesNotMatterIff`, `HttpConnection.TwoSplits`).
- Order ids of two promotions may collide (`SagaStock.OrderIdsCollideIff`).
- Redis and the local service answer differently to a repeated reserve of a closed operation and to a repeated
  initialization (`RedisInventory.CallSame`).

A header block that has a request line and no header line is answered with a missing request line, as the code does.
The body length follows section 6.3 of RFC 9112 for Content-Length; the checksum is the CRC-32 of section 3.2.9 of
IEEE 802.3.

## Model

| member | source | states |
|---|---|---|
| `Crc32.Compute` | src/common/serialization/checksum.h:10-20 | the two nested loops compute the checksum function, of which the lemmas below say that it is a shift register fed bit by bit, its residue on every message and its check value |
| `Crc32.RegisterIsFeed` | src/common/serialization/checksum.h:10-20 | the byte-wise loop is one shift register fed with the message bits, byte by byte, least significant bit first |
| `Crc32.FeedInjective` | src/common/serialization/checksum.h:10-20 | registers that differ stay different under equal input |
| `Crc32.BurstDetected` | src/common/serialization/checksum.h:10-20 | messages of equal length that differ only inside a window of 32 bits have different checksums |
| `Crc32.FourByteBurstDetected` | src/common/serialization/checksum.h:10-20 | messages that differ only inside four consecutive bytes have different checksums |
| `CrcValues.Residue` | src/common/serialization/checksum.h:10-20 | every message followed by its checksum, least significant byte first, has the checksum 0x2144df1c |
| `CrcValues.CheckValue` | src/common/serialization/checksum.h:10-20 | the checksum of the text 123456789 is 0xcbf43926, the check value of CRC-32 |
| `Wal.NextOfEncode` | src/storage/wal/wal.cc:57-92 | the next record read from an encoded record followed by anything is that record and its size |
| `Wal.FoundIff` | src/storage/wal/wal.cc:103-183 | a record is found at the read position exactly when its encoding stands there and it is within the limits |
| `Wal.NextOfOversized` | src/storage/wal/wal.cc:57-92 | a record that append takes and whose key or value passes the replay limit makes replay report corruption |
| `Wal.NextOfCut` | src/storage/wal/wal.cc:103-183 | every proper prefix of a record reads as a torn tail |
| `Wal.ReplayWhole` | src/storage/wal/wal.cc:103-183 | replaying whole records applies all of them, in order, and goes on behind them |
| `Wal.ReplayTorn` | src/storage/wal/wal.cc:103-183 | replaying whole records and a torn one applies the whole ones and truncates behind them |
| `Wal.ReplaySucceedsIff` | src/storage/wal/wal.cc:103-183 | replay of appended records succeeds exactly when every record is within the replay limits and is accepted by the callback |
| `Wal.ReplayCut` | src/storage/wal/wal.cc:103-183 | for every list of bounded records and every cut of its bytes, replay applies exactly the whole records before the cut and keeps exactly their bytes |
| `Wal.LogFile.Append` | src/storage/wal/wal.cc:57-92 | the file grows by the encoded record up to where the disk is full, and Ok is answered exactly when all of it was written and, if asked for, synced; closed, empty-key and oversized cases are refused |
| `Wal.LogFile.WriteFields` | src/storage/wal/wal.cc:83-89 | the chain of writes leaves a prefix of all fields, as long as the disk allows, and succeeds exactly when that is all of them |
| `Wal.LogFile.AppendBatch` | src/storage/wal/wal.cc:94-101 | the file grows by the encoded records before the first that is refused, up to where the disk is full; Ok exactly when every record was written and the one fsync behind them succeeded |
| `Wal.LogFile.ReplayInto` | src/storage/wal/wal.cc:103-183 | the loop with seek position and truncation computes the replay function, of which `WalFiles.ReplaySucceedsExactly` says what it does to every file, and a file it accepts keeps only whole records |
| `Wal.LogFile.Truncate` | src/storage/wal/wal.cc:185-191 | the file is empty exactly when the truncation worked; Ok exactly when the fsync did, too |
| `WalFiles.TornIffCutShort` | src/storage/wal/wal.cc:103-150 | a tail is taken for torn exactly when it is shorter than a magic number, has the magic number and is shorter than a header, or has a header that replay takes and is shorter than that announces, by the bytes of the tail alone |
| `WalFiles.ReplaySucceedsExactly` | src/storage/wal/wal.cc:103-183 | for every file: replay succeeds exactly when the file is whole records within the limits, accepted one after the other, and then nothing or one record cut short; it ends with those records applied and the file behind the last of them; every other file is refused and kept as it is |
| `WalFiles.DamageRefused` | src/storage/wal/wal.cc:103-183 | a log of which one record was damaged within four consecutive bytes of its key or value, whatever follows, is refused: neither that record nor what follows is applied, and the file is not cut |
| `Layouts.LogRecord` | src/storage/wal/wal.cc:57-92 | the bytes of a set, delete or batch record: magic, version 1, operation 1, 2 or 3, flags 0, the sizes of key and value, key, value, and the CRC-32 of all behind the magic |
| `Snapshot.LoadInvertsSave` | src/storage/snapshot/snapshot_store.cc:36-123 | a saved table loads back whatever order the hash map listed it in, exactly when it has at most ten million entries |
| `Snapshot.LoadsIff` | src/storage/snapshot/snapshot_store.cc:76-123 | a file loads to a table exactly when it is the sealed listing of at most ten million storable entries that give that table |
| `Snapshot.DamageRejected` | src/storage/snapshot/snapshot_store.cc:76-123 | damage within four consecutive bytes of the checksummed body is always rejected |
| `Snapshot.SaveTo` | src/storage/snapshot/snapshot_store.cc:36-74 | the loop over the entries builds the file, and refuses entries over the size limits |
| `Snapshot.LoadFrom` | src/storage/snapshot/snapshot_store.cc:76-123 | the loop advancing an offset computes the load function, error cases included |
| `Layouts.SnapshotFile` | src/storage/snapshot/snapshot_store.cc:36-74 | the bytes of a snapshot: magic, the number of entries on eight bytes, per entry both sizes, key and value, and the CRC-32 of all between |
| `KvTable.LastWriterWins` | src/storage/local_engine/local_kv_engine.cc:234-265 | a key named by a log ends up the same whatever the table held before; any other key keeps its value |
| `KvTable.LastMutationDecides` | src/storage/local_engine/local_kv_engine.cc:234-265 | the last mutation that names a key decides: a set binds it to its value, a delete unbinds it |
| `KvTable.LastRecordDecides` | src/storage/local_engine/local_kv_engine.cc:234-265 | after a log of sets, deletes and batches, the last record that names a key decides what it is bound to |
| `KvTable.LastInBatchDecides` | src/storage/local_engine/local_kv_engine.cc:234-265 | within a batch, the last mutation that names a key decides |
| `KvTable.MutateAllIdempotent` | src/storage/local_engine/local_kv_engine.cc:234-265 | applying a log to a table that already includes it changes nothing |
| `KvTable.AfterIdempotent` | src/storage/local_engine/local_kv_engine.cc:219-225 | replaying a log of sets, deletes and batches over the table that already includes it changes nothing |
| `KvTable.DecodeInvertsEncode` | src/storage/local_engine/local_kv_engine.cc:201-265 | a batch record decodes to the mutations it was encoded from, exactly when there are at most 100000 of them |
| `KvTable.BatchDecodesIff` | src/storage/local_engine/local_kv_engine.cc:234-258 | a value decodes to a batch exactly when it is the encoding of that batch, which is neither empty nor over 100000 long |
| `KvTable.OpensIffDurable` | src/storage/local_engine/local_kv_engine.cc:43-82 | a log of appended records can be opened over any table exactly when every record is within the replay limits and every batch within the batch limit |
| `KvTable.BatchDurableIff` | src/storage/local_engine/local_kv_engine.cc:201-217 | a batch that writeBatch takes can be read back exactly when it has at most 100000 mutations and its record at most 64 MiB |
| `KvTable.EncodeBatchLoop` | src/storage/local_engine/local_kv_engine.cc:201-217 | the loop encodes the batch and refuses empty batches, nested batches, empty keys and oversized fields |
| `Layouts.BatchValue` | src/storage/local_engine/local_kv_engine.cc:201-217 | the bytes of a batch: the number of mutations, and per mutation its operation, key and value, each behind its length |
| `KvTable.DecodeBatchLoop` | src/storage/local_engine/local_kv_engine.cc:234-265 | the loop over an offset computes the batch decoding, and reports malformed bytes |
| `KvTable.ApplyLoop` | src/storage/local_engine/local_kv_engine.cc:234-265 | a record changes the table by its mutations, of which `KvTable.LastMutationDecides` says what each key is bound to; a malformed batch leaves the table as it was |
| `KvRuns.CrashRecovers` | src/storage/local_engine/local_kv_engine.cc:43-82 | from every reachable state, a crash at any byte behind the last fsync is opened to the applied history and a prefix of the group in flight |
| `KvRuns.SyncedGroupSurvives` | src/storage/local_engine/local_kv_engine.cc:134-178 | a group behind its fsync survives every crash as a whole |
| `KvRuns.StepKeepsInv` | src/storage/local_engine/local_kv_engine.cc:134-225 | every step of clients, writer and snapshot, and every crash, keeps the tie between memory, log, snapshot and history |
| `KvRuns.HistoryOnlyGrows` | src/storage/local_engine/local_kv_engine.cc:134-178 | what was applied once is never dropped or reordered, not even by a crash |
| `KvRuns.EveryRunRecovers` | src/storage/local_engine/local_kv_engine.cc:43-225 | in every run with any crashes and failed truncations, memory is the fold of the history, open after a crash at any byte finds the history and a prefix of the group in flight, and what was submitted is applied, in flight or queued, in order |
| `KvRuns.EveryRunReadsLastWrite` | src/storage/local_engine/local_kv_engine.cc:43-225 | in every run with any crashes, each key reads as the last record of the history that names it says |
| `KvEngine.LocalKvEngine.Open` | src/storage/local_engine/local_kv_engine.cc:43-82 | open succeeds exactly when snapshot and log are readable, and then holds what they decode to |
| `KvEngine.LocalKvEngine.Submit` | src/storage/local_engine/local_kv_engine.cc:109-120 | the request is refused when the engine is closed or its writer has failed; otherwise, while others queue theirs, the caller gets the answer of the turn that takes it: Ok only with the record synced in the log, and always Ok, with all that was queued before applied in order, when records are durable and the disk takes them |
| `KvEngine.LocalKvEngine.Set` | src/storage/local_engine/local_kv_engine.cc:189-193 | an empty key is refused; otherwise the caller gets the answer for one set record |
| `KvEngine.LocalKvEngine.Delete` | src/storage/local_engine/local_kv_engine.cc:195-199 | an empty key is refused; otherwise the caller gets the answer for one delete record |
| `KvEngine.LocalKvEngine.WriteBatch` | src/storage/local_engine/local_kv_engine.cc:201-217 | bad batches are refused; otherwise the caller gets the answer for one record, which is durable exactly within the limits on count and size |
| `KvEngine.LocalKvEngine.Get` | src/storage/local_engine/local_kv_engine.cc:180-187 | the value the table binds the key to; an empty key and an unbound one are refused |
| `KvEngine.ReadYourWrite` | src/storage/local_engine/local_kv_engine.cc:109-199 | a set or delete that was answered is what the table then holds, unless a record taken with it names its key again |
| `KvEngine.LocalKvEngine.TakeGroupLoop` | src/storage/local_engine/local_kv_engine.cc:134-152 | the writer takes a front part of the queue, of which only the first and the last may be barriers: all of it, or 64 requests, or up to the first barrier behind the first request |
| `KvEngine.LocalKvEngine.WriterTurn` | src/storage/local_engine/local_kv_engine.cc:134-178 | one turn appends the records of the group up to where the disk is full, syncs them once, applies them in order up to the first that is refused, answers Ok exactly when all of that worked, and records an error otherwise |
| `KvEngine.DurableLands` | src/storage/local_engine/local_kv_engine.cc:154-165 | durable records that the disk takes are logged whole, applied and acknowledged |
| `KvEngine.LocalKvEngine.TakeSnapshot` | src/storage/local_engine/local_kv_engine.cc:219-225 | behind a barrier the table is published, then the log emptied; what fails leaves all that comes after it as it was |
| `KvEngine.TurnIsSteps` | src/storage/local_engine/local_kv_engine.cc:134-178 | a writer turn is a run of four steps of the crash model, with the same log, table and queue |
| `KvEngine.SnapshotOpensIff` | src/storage/snapshot/snapshot_store.cc:76-123 | a published snapshot opens again exactly when it lists at most ten million keys |
| `KvFailures.OpenBehindFailure` | src/storage/local_engine/local_kv_engine.cc:154-170 | a group that is acknowledged behind a failed append is found by open when that append stopped between two records; when it stopped inside a record, open may fail or drop the acknowledged group |
| `KvFailures.ReadWholeIff` | src/storage/local_engine/local_kv_engine.cc:154-170 | all of a log behind a failed append is kept, and read as what was written whole and what was acknowledged, exactly when that append stopped between two records |
| `Inventory.LandKeepsBalance` | src/business/inventory/inventory_service.cc:95-255 | a change that moves counters and reservation together keeps the ledger balanced and every sum as it was |
| `Inventory.UndoInvertsLand` | src/business/inventory/inventory_service.cc:74-295 | the undo of each call takes its change back exactly |
| `Inventory.AttemptIsLegal` | src/business/inventory/inventory_service.cc:74-295 | every call changes a balanced ledger legally, except a rollback of a release without the stock for it, and only that one |
| `Inventory.RollbackReleaseBalancedIff` | src/business/inventory/inventory_service.cc:257-295 | a rollback of a release keeps the sum always, and the balance exactly when that much is available |
| `Inventory.ResumedCallBalancedIff` | src/business/inventory/inventory_service.cc:136-295 | a call that goes on with the SKU it looked up before keeps the balance exactly when the reservation is still on that SKU and, for a rollback of a release, that much is available |
| `InventoryRuns.StepKeepsInv` | src/business/inventory/inventory_service.cc:51-341 | every step of every thread, failed writes, undo and restarts with a release of orphans included, keeps the ledger balanced in memory and in storage |
| `InventoryRuns.EveryRunBalances` | src/business/inventory/inventory_service.cc:51-341 | in every interleaving with any write failures and restarts, memory and storage are balanced, each SKU keeps the quantity it was added with, and every counter is a non-negative 64-bit value |
| `InventoryRuns.EveryRunBalancesIff` | src/business/inventory/inventory_service.cc:136-295 | in every run of any calls, memory is balanced at every point exactly when each call that changes it finds its reservation on the SKU it looked up and, to roll a release back, the stock |
| `InventoryCodec.DecodeStockInverts` | src/business/inventory/inventory_service.cc:15-25 | stock counters read back as written |
| `InventoryCodec.DecodeReservationInvertsIff` | src/business/inventory/inventory_service.cc:27-38 | a reservation reads back as written exactly when its SKU has no separator |
| `Layouts.StockRecord` | src/business/inventory/inventory_service.cc:15-17 | the key and the text of a stock row: available, reserved, sold |
| `Layouts.ReservationRecord` | src/business/inventory/inventory_service.cc:27-29 | the key and the text of a reservation: SKU, quantity, and 0, 1 or 2 for its state |
| `Text.DigitsDenote` | src/business/inventory/inventory_service.cc:15-17 | a number is written as digits that denote it, without a zero in front |
| `InventoryRecovery.RestoreStocks` | src/business/inventory/inventory_service.cc:57-61 | the scan restores exactly what the stock records decode to, or names a record that does not decode |
| `InventoryRecovery.RestoreReservations` | src/business/inventory/inventory_service.cc:62-66 | the scan restores exactly what the reservation records decode to, or names a record that does not decode |
| `InventoryRecovery.Restore` | src/business/inventory/inventory_service.cc:51-72 | a readable ledger in storage is restored exactly, whatever order the engine lists it in |
| `InventoryRecovery.WriteLands` | src/business/inventory/inventory_service.cc:40-49 | the batch of a call turns storage of one ledger into storage of the changed ledger |
| `InventoryRecovery.EveryCrashRestores` | src/business/inventory/inventory_service.cc:40-72 | at every point of every run storage holds the balanced ledger of the writes that succeeded; it decodes to that ledger, and to no other, exactly when no SKU of a stored reservation has the separator |
| `InventoryOrphans.RestartIsClean` | src/business/inventory/inventory_service.cc:297-341 | after the release of orphans the ledger is balanced, stock is conserved, every reservation still held has an order, and a second restart releases nothing |
| `InventoryRecovery.OrphanUndoExactIff` | src/business/inventory/inventory_service.cc:328-337 | the undo of a failed orphan release, run first to last, restores the ledger exactly when no SKU had two orphans |
| `InventoryService.Service.Persist` | src/business/inventory/inventory_service.cc:40-49 | stock and reservation are written together or not at all |
| `InventoryService.Service.AddSku` | src/business/inventory/inventory_service.cc:74-93 | every status by arguments and table; memory and storage get the row together, or both stay |
| `InventoryService.Service.ReserveStock` | src/business/inventory/inventory_service.cc:95-134 | every status by arguments and table: an operation seen before is answered by its own SKU and quantity, stock is taken exactly when that much is available; the row moves from available to reserved, others stay, and storage changes together with memory or neither does |
| `InventoryService.Service.ConfirmStock` | src/business/inventory/inventory_service.cc:136-173 | every status by the state of the reservation; a reserved one moves its quantity from reserved to sold, others stay, and storage changes together with memory or neither does |
| `InventoryService.Service.ReleaseStock` | src/business/inventory/inventory_service.cc:175-215 | every status by the state of the reservation; a reserved one moves its quantity back to available, others stay, and storage changes together with memory or neither does |
| `InventoryService.Service.RollbackConfirmation` | src/business/inventory/inventory_service.cc:217-255 | every status by the state of the reservation; a confirmed one moves its quantity from sold to reserved, others stay, and storage changes together with memory or neither does |
| `InventoryService.Service.RollbackRelease` | src/business/inventory/inventory_service.cc:257-295 | every status by the state of the reservation; a released one moves its quantity from available to reserved, others stay, and storage changes together with memory or neither does |
| `InventoryService.Service.ReleaseOrphans` | src/business/inventory/inventory_service.cc:297-341 | all orphans are released in memory and storage; when the write fails the undo loop runs over the changes; a missing stock ends the call at once |
| `InventoryService.Service.UndoChanges` | src/business/inventory/inventory_service.cc:328-337 | the undo loop computes the first-to-last undo |
| `InventoryService.Accumulate` | src/business/inventory/inventory_service.cc:384-400 | the loop finds a bad reservation, or the totals of reserved and confirmed quantities per SKU |
| `InventoryService.ValidateInvariants` | src/business/inventory/inventory_service.cc:378-407 | the checker accepts exactly the balanced ledgers |
| `InventoryService.ReboundConfirmBreaks` | src/business/inventory/inventory_service.cc:136-173 | if an operation id is used for two SKUs, a confirmation that looked before the change leaves an unbalanced ledger |
| `Gate.AcquireIsSound` | src/business/promotion/flash_sale_gate.cc:54-83 | an acquire keeps the counter equal to the users and within the quota, changes the users exactly when it accepts, and a rollback takes it back |
| `Gate.RollbackIsSound` | src/business/promotion/flash_sale_gate.cc:85-92 | a rollback removes the user and keeps the counter equal to the users |
| `Gate.DecisionTable` | src/business/promotion/flash_sale_gate.cc:60-82 | each of the five answers exactly by the state of the promotion and its set of users: accepted if and only if it runs, the user is new and the users are fewer than the quota; exhausted if and only if they are as many |
| `Gate.FirstComeFirstServed` | src/business/promotion/flash_sale_gate.cc:54-83 | of new users that come one after the other exactly as many are admitted as there are places, in their order |
| `Gate.AdmissionGate.Configure` | src/business/promotion/flash_sale_gate.cc:5-11 | a new gate is empty; bad arguments and a second configuration are refused |
| `Gate.AdmissionGate.Preheat` | src/business/promotion/flash_sale_gate.cc:27-34 | only a created promotion is preheated |
| `Gate.AdmissionGate.Start` | src/business/promotion/flash_sale_gate.cc:36-43 | only a preheating promotion is started |
| `Gate.AdmissionGate.Finish` | src/business/promotion/flash_sale_gate.cc:45-52 | only a running promotion is finished |
| `Gate.AdmissionGate.TryAcquire` | src/business/promotion/flash_sale_gate.cc:54-83 | each answer exactly by the state of the promotion and its set of users; the user joins exactly when accepted, the counter is the number of users and within the quota |
| `Gate.AdmissionGate.RollbackUser` | src/business/promotion/flash_sale_gate.cc:85-92 | exactly the user leaves and the counter is the number of users; unknown promotions and empty users are refused |
| `Saga.StepKeepsTokens` | src/business/flash_sale/flash_sale_order_service.cc:32-75 | whatever fails, every step keeps each admitted user owned by exactly one submitter, queued message, worker or processed order |
| `SagaStock.StepKeepsStock` | src/business/flash_sale/flash_sale_order_consumer.cc:9-51 | whatever write fails, every step keeps the ledger balanced, sold equal to what was processed, and reserved stock owned or left by a give-back that failed |
| `SagaStock.EveryRunConservesTokens` | src/business/flash_sale/flash_sale_order_consumer.cc:32-51 | in every interleaving, admitted is the number of users and of submitters in flight, queued messages, messages held by workers and processed orders together, and within the quota |
| `SagaStock.EveryRunAdmitsWhileThereIsRoom` | src/business/promotion/flash_sale_gate.cc:60-82 | after every run, a user who comes is admitted exactly when the promotion runs, no owner of an admission is that user and the owners are fewer than the quota |
| `SagaStock.EveryRunAccountsForStock` | tools/flash_sale_soak_test.cc:90-93 | in every run, whatever fails, sold is the sum of processed quantities and every reserved operation has exactly one owner or is one whose give-back failed; once the path has drained and no give-back failed, nothing is reserved |
| `SagaStock.StepCoversIff` | src/business/flash_sale/flash_sale_order_consumer.cc:23-30 | a step leaves reserved stock without an owner exactly when it gives reserved stock back and that write fails |
| `SagaStock.FailedReleaseLeaves` | src/business/flash_sale/flash_sale_order_consumer.cc:23-51 | for every stock that can serve one request there is a run in which no attempt stores the order and the release of the compensation is not written; it drains the path and leaves the quantity reserved |
| `SagaStock.HeldMessageHasStockIff` | src/business/inventory/inventory_service.cc:106-110 | in every run, a message in flight has reserved stock behind it exactly when its order was never given back, so a user who comes again after a compensation is queued without stock |
| `SagaStock.FinishedAdmitsNobody` | src/business/promotion/flash_sale_gate.cc:45-83 | after the end of a promotion every run only gives admissions back |
| `SagaStock.AdmitsOnlyWhileRunning` | src/business/promotion/flash_sale_gate.cc:54-83 | a step admits a user only while the promotion runs |
| `SagaStock.WorkerStepsDown` | src/business/flash_sale/flash_sale_order_consumer.cc:32-51 | whatever fails, each step of a worker brings it closer to its end, which is at most 2 * max_attempts + 3 steps away |
| `SagaStock.OrderIdInjective` | src/business/flash_sale/flash_sale_order_service.cc:5-7 | within one promotion, order ids are equal exactly when the users are |
| `SagaStock.OrderIdsCollideIff` | src/business/flash_sale/flash_sale_order_service.cc:5-7 | order ids of two promotions collide exactly when one promotion id absorbs a dash and part of the user |
| `SagaPath.FlashSalePath.Submit` | src/business/flash_sale/flash_sale_order_service.cc:21-76 | submit is a run of the atomic steps; every status and code exactly by the arguments, the state and users of the gate, the stock and the queue; it leaves no submitter behind, queues the message exactly when it answers queued, and otherwise leaves gate and queue as they were |
| `SagaPath.FlashSalePath.PushLast` | src/business/flash_sale/flash_sale_order_service.cc:58-75 | the message is queued, or its stock and its token go back |
| `SagaPath.FlashSalePath.Process` | src/business/flash_sale/flash_sale_order_consumer.cc:9-21 | an attempt succeeds exactly when the order is stored and the confirmation accepted, and else changes nothing but the attempt |
| `SagaPath.FlashSalePath.Compensate` | src/business/flash_sale/flash_sale_order_consumer.cc:23-30 | the message is buried, its stock released and its token returned |
| `SagaPath.FlashSalePath.ProcessOnce` | src/business/flash_sale/flash_sale_order_consumer.cc:32-51 | one message is processed exactly when some attempt within the limit stores its order and has its confirmation accepted, and otherwise buried and compensated, within 2 * max_attempts + 4 atomic steps; the empty and unconfigured cases change nothing |
| `OrderMessage.RoundTripIff` | src/messaging/order_message.cc:58-90 | a message survives serialize and deserialize exactly when it is valid, no field is over 4096 bytes and the quantity is below 2^32 |
| `OrderMessage.LargeQuantityIsCut` | src/messaging/order_message.cc:68-68 | a larger quantity is not refused: the reader gets it modulo 2^32 |
| `OrderMessage.AcceptedIsCanonical` | src/messaging/order_message.cc:72-90 | every accepted payload serializes back to identical bytes |
| `Layouts.OrderPayload` | src/messaging/order_message.cc:58-70 | the bytes of a message: FOQ1, version 1 on two bytes, promotion, order, key, user and SKU, each behind its length, and the quantity, most significant bytes first |
| `OrderMessage.AppendU32` | src/messaging/order_message.cc:15-17 | the shifting loop appends the big-endian bytes |
| `OrderMessage.ReadU32` | src/messaging/order_message.cc:27-33 | the shifting loop reads a big-endian number, or reports that the bytes end |
| `OrderMessage.OrderQueue.Push` | src/messaging/order_queue.cc:5-14 | a valid message joins the back unless 100000 are queued |
| `OrderMessage.OrderQueue.Pop` | src/messaging/order_queue.cc:16-25 | messages come out in the order they were accepted; an empty queue times out |
| `OrderService.RoundTripIff` | src/business/order/order_service.cc:89-105 | a stored order reads back exactly when none of its texts holds a tab |
| `OrderService.ReadsIfState` | src/business/order/order_service.cc:94-105 | a record of a tab-free order reads back exactly when its state is one of 0 to 3 |
| `Layouts.OrderRecord` | src/business/order/order_service.cc:89-92 | the text of an order: id, idempotency key, user, SKU, quantity and state 0 |
| `OrderService.CreateAnswers` | src/business/order/order_service.cc:37-69 | no call drops or changes an order; it answers with the stored order of the key, or leaves table and index as they were |
| `OrderService.EveryRunIsConsistent` | src/business/order/order_service.cc:37-69 | in every run, undo included, index and table are inverse maps, keys are unique, and storage holds exactly the orders when the deletes of the undo succeed |
| `OrderService.CreateKeepsMirrorIff` | src/business/order/order_service.cc:57-68 | a call keeps storage and memory equal exactly unless its event is refused and its record then not deleted |
| `OrderService.RetryReturnsTheOrder` | src/business/order/order_service.cc:45-54 | however much later, a retry with the same data returns the stored order and changes nothing |
| `OrderService.Orders.CreateOrder` | src/business/order/order_service.cc:37-69 | every status by the call, the table and the index: a known key is answered with its order if and only if user, SKU and quantity are the same; a new order has the fields of the call; refused calls leave table and index as they were, and these stay inverse |
| `OrderService.Orders.Restore` | src/business/order/order_service.cc:12-24 | over whatever records there are, in whatever order: it succeeds exactly when all decode, and then table and index hold exactly what they decode to |
| `OrderRuns.CreateIsSteps` | src/business/order/order_service.cc:37-69 | a create call is a run of its steps: lookup, write, publish, delete |
| `OrderRuns.RebuiltIs` | src/business/order/order_service.cc:12-24 | a restart rebuilds exactly the stored orders, and an index inverse to the table exactly when no two records share a key |
| `OrderRuns.StepKeepsInv` | src/business/order/order_service.cc:12-69 | every step of a call, failed deletes included, and every restart keep what was acknowledged in memory and what is in memory stored |
| `OrderRuns.EveryStopRestores` | src/business/order/order_service.cc:12-69 | a stop between any two steps of any run, failed deletes and earlier restarts included: the stored orders can come back exactly when none has a tab; then all records decode, every restart rebuilds exactly them, and its index is inverse to the table exactly when no two records share a key; without tabs every acknowledged order is among them |
| `OrderRuns.RestoresIff` | src/business/order/order_service.cc:12-24 | a restart can give back the stored orders exactly when none of their texts holds a tab |
| `OrderRuns.DeletesKeepKeys` | src/business/order/order_service.cc:37-69 | while every delete succeeds and no text has a tab, no two records share an idempotency key |
| `OrderRuns.FailedDeleteBreaks` | src/business/order/order_service.cc:61-68 | after a failed delete the same key makes a second record, and no restart builds an index inverse to the table |
| `Startup.BothRestart` | src/business/order/order_service.cc:12-33 | for any runs of both services, failed deletes included, stopped at any points: after the release of orphans stock is balanced and conserved, every operation still reserved has an order and a second restart releases nothing; the exact conditions under which ledger, orders and index are those that were stored |
| `Startup.ReleaseOpensIff` | src/business/inventory/inventory_service.cc:307-329 | the one batch of an orphan release leaves a log that opens again exactly when it releases at most 50000 orphans and takes at most 64 MiB |
| `Startup.OrphansExist` | src/business/inventory/inventory_service.cc:311-313 | the orphans of a balanced ledger can be listed, each once and each with its stock, which the release asks for |
| `Buffer.Buffer.Append` | src/network/buffer.cc:33-37 | the contents grow by the bytes, whether the array grew, was compacted or had room |
| `Buffer.Buffer.MakeSpace` | src/network/buffer.cc:45-54 | the contents stay and there is room; the array is kept exactly when moving the contents is enough, and grows to just the size needed otherwise |
| `Buffer.Buffer.Compact` | src/network/buffer.cc:49-52 | the overlapping forward copy keeps the contents |
| `Buffer.Buffer.Retrieve` | src/network/buffer.cc:14-20 | the first bytes are dropped, all of them when there are not more |
| `Buffer.Buffer.RetrieveAll` | src/network/buffer.cc:22-25 | the contents are empty |
| `Buffer.Buffer.TakeAll` | src/network/buffer.cc:27-31 | the contents are returned and the buffer is empty |
| `Buffer.Buffer.ReadFd` | src/network/buffer.cc:56-81 | the contents grow by the bytes read, also when they pass the free end of the array |
| `Http.ParseExtends` | src/gateway/http/http_parser.cc:37-110 | a request or an error, once found, is the same whatever bytes follow |
| `Http.PrefixIsPartial` | src/gateway/http/http_parser.cc:37-110 | every proper prefix of a complete request is incomplete |
| `Http.CompleteShape` | src/gateway/http/http_parser.cc:93-109 | a complete request has a host, its body is the bytes behind the blank line, as many as Content-Length says and none without it, and stays within the limits |
| `Http.PartialIsSmall` | src/gateway/http/http_parser.cc:45-106 | what still waits for bytes is smaller than the largest request, so waiting alone never passes the connection cap |
| `Http.TrimView` | src/gateway/http/http_parser.cc:12-22 | the two cursor loops compute the trimmed text |
| `Http.ReadHeaders` | src/gateway/http/http_parser.cc:66-84 | the cursor loop computes the header map, or the first error |
| `Http.ParseRequest` | src/gateway/http/http_parser.cc:37-110 | the parser computes the parse function: request, bytes consumed, incomplete, or the first error |
| `HttpRender.ParseInvertsRender` | src/gateway/http/http_parser.cc:37-110 | a well-formed request that a client writes is read back field by field, names in lower case, whatever follows it |
| `HttpRender.RefusedRequests` | src/gateway/http/http_parser.cc:60-102 | a long target, a repeated name, a missing host, another transfer encoding, a malformed and an oversized length are refused, each with its error, in this order |
| `HttpGrammar.ParseExactly` | src/gateway/http/http_parser.cc:37-110 | for every text: it is read as a complete request exactly when it starts with a block of the grammar, a blank line and a body of the announced length, and the block fits the header limit |
| `HttpGrammar.HeadExactly` | src/gateway/http/http_parser.cc:53-103 | for every block: verb, target, header map and length are read exactly when the request line has three words, the last of them HTTP/1.1, every line a colon behind a name that is new, and the map gathered from them a host, a plain encoding and a length in digits |
| `HttpGrammar.WordsExactly` | src/gateway/http/http_parser.cc:58-64 | the words read from a line are exactly the runs of characters between its spaces |
| `HttpGrammar.TrimIs` | src/gateway/http/http_parser.cc:12-22 | a trimmed text is what is left without the spaces at its ends |
| `HttpGrammar.LowerFolds` | src/gateway/http/http_parser.cc:24-29 | lower case changes capital letters only, and nothing twice |
| `HttpGrammar.NoRequestLine` | src/gateway/http/http_parser.cc:53-56 | a block without a line break has no request line |
| `HttpGrammar.HeaderLinesExactly` | src/gateway/http/http_parser.cc:66-84 | the header loop succeeds exactly on good lines with new names, and gathers exactly their values |
| `HttpGrammar.AddLineExactly` | src/gateway/http/http_parser.cc:72-82 | a line is taken exactly when it has a colon behind a name that is new, and a value that is not too long |
| `HttpGrammar.ContentLengthExactly` | src/gateway/http/http_parser.cc:97-100 | a length is digits only and its decimal value, below 2^64 |
| `HttpGrammar.RefusedHeads` | src/gateway/http/http_parser.cc:53-81 | another version, a line of other than three words, a long target, a header line without a colon or with nothing before it and a repeated name are refused, each with its error, at the first such line |
| `HttpRender.LengthIsDigits` | src/gateway/http/http_parser.cc:97-100 | a text read as a length to its end is digits only |
| `HttpConnection.ExtractExtends` | src/gateway/http/http_server.cc:57-103 | more bytes never change the requests already extracted: they only continue what was waiting |
| `HttpConnection.SplitDoesNotMatterIff` | src/gateway/http/http_server.cc:45-105 | requests, waiting bytes and end of a connection depend only on the byte stream, not on how it was split into reads, exactly when no read takes the waiting bytes over the cap; and exactly otherwise there is a 413 |
| `HttpConnection.OverflowShuts` | src/gateway/http/http_server.cc:53-56 | the first read over the cap shuts the connection with the requests of the bytes before it |
| `HttpConnection.SplitMatters` | src/gateway/http/http_server.cc:45-56 | a request of more than 8 MiB, in reads of at most 64 KiB: with 65535 following bytes in the read of its last byte it gets a 413, without them it is answered |
| `HttpConnection.TwoSplits` | src/gateway/http/http_server.cc:45-56 | there is such a request, so one stream has two splits into reads of at most 64 KiB, one with a 413 and one without |
| `HttpConnection.SmallStreamsFit` | src/gateway/http/http_server.cc:53-56 | a stream that fits the cap never meets it, however it is split |
| `HttpConnection.PipelineIsRead` | src/gateway/http/http_server.cc:57-103 | requests written one after the other come out as they were written |
| `HttpConnection.LetterThenMore` | src/gateway/http/http_server.cc:70-72 | after a request the connection goes on exactly when no Connection header of it mentions close, in any case |
| `HttpConnection.KeepAliveIff` | src/gateway/http/http_server.cc:70-72 | a request keeps its connection exactly when no field the client wrote is named connection and says close, in any case |
| `HttpServer.Connection.OnRead` | src/gateway/http/http_server.cc:45-56 | whatever arrives, what was dispatched is what the stream contains up to what still waits; 413 is answered exactly when the cap is passed, and the end of the stream or an error closes with nothing else changed |
| `HttpServer.Connection.TakeRequests` | src/gateway/http/http_server.cc:57-103 | the loop ends, dispatches whole requests in order, and stops at an incomplete one, an invalid one, a last one or one in flight |
| `HttpServer.Connection.OnAsyncResponse` | src/gateway/http/http_server.cc:107-113 | the next request may be taken, unless this was the last |
| `Lru.StepKeepsValid` | src/cache/sharded_cache.cc:21-72 | list and table hold the same keys without duplicates, at most capacity of them |
| `Lru.StepKeepsNested` | src/cache/sharded_cache.cc:21-72 | one operation keeps the smaller shard a part of the larger, and a hit of the smaller is the same hit of the larger |
| `Lru.Inclusion` | src/cache/sharded_cache.cc:21-72 | on every timed trace, the smaller recency list is a subsequence of the larger and every hit of the smaller is a hit of the larger with the same value |
| `Lru.HitIsLastSet` | src/cache/sharded_cache.cc:21-61 | after every trace, a hit returns the value set last, not erased since and not expired |
| `Lru.SetThenGet` | src/cache/sharded_cache.cc:21-61 | a key just set is found until its time to live has passed |
| `Lru.EvictsLeastRecent` | src/cache/sharded_cache.cc:53-59 | after every trace, a set that evicts a key evicts the one used least recently |
| `LruRetention.StepKeepsExactly` | src/cache/sharded_cache.cc:21-72 | which keys are in the table after an operation, exactly by the table, the list and the clock before it; every other key has its entry unchanged |
| `LruRetention.OthersStayHits` | src/cache/sharded_cache.cc:21-72 | an erase or a lookup leaves every other key the hit it was, with its value |
| `LruRetention.StaysWhileFewOthers` | src/cache/sharded_cache.cc:21-72 | after any trace, a key that is set stays a hit with its value until it expires, as long as fewer other keys than the shard has places are read or written |
| `Lru.CacheShard.Read` | src/cache/sharded_cache.cc:21-38 | an expired entry is dropped, a live one moves to the front; every call with a key is one hit or one miss |
| `Lru.CacheShard.Write` | src/cache/sharded_cache.cc:40-61 | the entry is replaced or inserted in front, and the last one evicted beyond the capacity |
| `Lru.CacheShard.Remove` | src/cache/sharded_cache.cc:63-72 | the key leaves list and table |
| `SingleFlight.EveryRunLoadsOnce` | src/cache/sharded_cache.cc:74-112 | in every interleaving, no two callers load one key at once, each flight is loaded at most once, every waiter has a result or a leader at work, whoever returns has the result of the one load, a hit is a value put or loaded for its key, and whoever loads a key that is in the cache arrived before it was |
| `SingleFlight.StartsIff` | src/cache/sharded_cache.cc:76-96 | in every run, a caller of a cached key starts to load it exactly when it arrived before the key came into the cache, has not joined since its miss, and there is no flight |
| `SingleFlight.EveryRunReloadsIff` | src/cache/sharded_cache.cc:76-96 | in every run, no flight begins for a cached key exactly when no caller that missed joins while its key is cached without a flight |
| `SingleFlight.ReloadedByLateCallers` | src/cache/sharded_cache.cc:74-112 | in every run without drops, a key loaded with success is loaded again by such callers only |
| `SingleFlight.LoadedTwice` | src/cache/sharded_cache.cc:76-96 | there is such a run for every key |
| `SingleFlightTrace.EveryAnswerHasASource` | src/cache/sharded_cache.cc:74-112 | in every run, whoever returned has what the loader answered to the leader of its flight, which is for the same key; every hit and every cached value was put for its key, or loaded for it with success |
| `RedisInventory.CallSame` | src/kv/redis_inventory_fast_path.cc:11-48 | one call keeps the Redis hashes and the local ledger the same; the answers agree exactly outside two cases a caller can look up |
| `RedisInventory.Lockstep` | src/kv/redis_inventory_fast_path.cc:11-48 | after every common sequence of calls on one SKU both hold equal counters and the same quantity and state per operation |
| `RedisInventory.TransitionSame` | src/kv/redis_inventory_fast_path.cc:23-48 | each of the four transition scripts does what the local call does, with the same answer |
| `RedisInventory.Hashes.EvalInitialize` | src/kv/redis_inventory_fast_path.cc:11-14 | code 1 and a new hash, 2 for the same total, 0 for another |
| `RedisInventory.Hashes.EvalReserve` | src/kv/redis_inventory_fast_path.cc:15-22 | code 2 or -2 by the stored record, 0 without the stock, else 1 with the quantity moved from available to reserved |
| `RedisInventory.Hashes.EvalTransition` | src/kv/redis_inventory_fast_path.cc:23-48 | code -1 for an unknown operation, 1 for one already there, -2 in another state, else 1 with counters moved by the signs of the script and the record rewritten |
| `OutboxCodec.DecodeInvertsEncode` | src/messaging/outbox.h:172-183 | an event that can be written decodes to itself |
| `Layouts.OutboxRecord` | src/messaging/outbox.h:185-194 | the bytes of an event: magic, size, id, topic, key and payload, each behind its length, the sequence on eight bytes, and the CRC-32 of the payload |
| `OutboxCodec.OpenInvertsWrite` | src/messaging/outbox.h:80-89 | opening what was written gives the events back, in order |
| `OutboxCodec.OpensIffWritten` | src/messaging/outbox.h:80-89 | a file opens to some events exactly when it is what writing those events leaves |
| `OutboxCodec.CutOpensIff` | src/messaging/outbox.h:195-212 | a file cut anywhere opens exactly when the cut falls between two records, and then with the records before it |
| `OutboxCodec.DamageRejected` | src/messaging/outbox.h:206-211 | damage within four consecutive bytes of a payload makes open fail, whatever precedes and follows |
| `OutboxCodec.ReadAll` | src/messaging/outbox.h:80-89 | the loop computes the events of the file, or reports corruption |
| `Outbox.StepKeepsInv` | src/messaging/outbox.h:92-132 | every append, publish, rewrite and restart keeps the undelivered events in the file, in order |
| `Outbox.NothingIsLost` | src/messaging/outbox.h:70-132 | in every run, failed publishes, failed rewrites and restarts included, the file opens, every acknowledged event was published or is still to be delivered as often as it was acknowledged, and what is undelivered is in the file in the order it was appended |
| `Outbox.RunIsExact` | src/messaging/outbox.h:113-132 | until a restart, every acknowledged event is published exactly once or still to be delivered |
| `Outbox.FailedIsSub` | src/messaging/outbox.h:125-128 | the events that fail keep their order |
| `Outbox.SortedByAnswer` | src/messaging/outbox.h:125-126 | what was published is what the publisher took, and what failed is what it did not |
| `Outbox.PublishAll` | src/messaging/outbox.h:125-126 | the loop publishes each event of the batch once and collects those that fail |
| `Outbox.FileOutbox.Open` | src/messaging/outbox.h:70-90 | open succeeds exactly when the file is whole, and then holds its events |
| `Outbox.FileOutbox.AppendEvent` | src/messaging/outbox.h:92-111 | an acknowledged event, with a generated id if it had none, is behind the others in file and memory; one that was not synced is in the file only; a refused one in neither |
| `Outbox.GeneratedIdsMeetIff` | src/messaging/outbox.h:96-101 | two events of a topic get one generated id exactly when clock and number of pending events are the same |
| `Outbox.FileOutbox.DrainBatch` | src/messaging/outbox.h:113-132 | while others append: the failed events return to the front in order, those that arrived stay behind, each event is published once or pending, and the file is rewritten to what is pending |
| `Outbox.FileOutbox.Rewrite` | src/messaging/outbox.h:213-223 | the loop writes exactly the pending events |
| `BrokerRuns.LeavesIff` | src/messaging/in_memory_broker.cc:36-93 | with unique ids, an event leaves its topic exactly when it was taken and every subscription handled it or gave up on it in that call, and for each that gave up the dead-letter topic has an event with its key and payload and the id of its dead letter |
| `BrokerRuns.DeliverLeaves` | src/messaging/in_memory_broker.cc:36-93 | with unique ids, every queue after a delivery: what stays, in order, and behind it exactly one dead letter for each taken event and each subscription that gives up |
| `BrokerContents.EveryRunInventsNothing` | src/messaging/in_memory_broker.cc:16-93 | in every run, through any retries and dead-letter topics, every queued event stands in its own topic and carries the key and payload of an event that was published |
| `Broker.BatchLettersAre` | src/messaging/in_memory_broker.cc:66-79 | a delivery makes exactly one dead letter for each taken event and each subscription that gives up on it, in order |
| `Broker.BatchCounts` | src/messaging/in_memory_broker.cc:52-79 | the counters of each taken event move by what they were at the start of the call; those of other events stay |
| `BrokerRuns.OnlySettledLeaveIff` | src/messaging/in_memory_broker.cc:83-86 | only events that were taken and settled leave a topic, whatever is taken and answered, exactly when its ids are distinct |
| `BrokerRuns.EveryRunIsOrdered` | src/messaging/in_memory_broker.cc:16-93 | in every run every queue is strictly sorted by sequence |
| `BrokerLimits.EveryRunIsBounded` | src/messaging/in_memory_broker.cc:52-79 | in every run each stored counter is that of a handler, below its limit; and all counters stay below all limits, as long as nobody subscribes, exactly when no subscription shares a key with a handler that gets more attempts |
| `BrokerLimits.StaysBelowIff` | src/messaging/in_memory_broker.cc:52-79 | from every state of a run, all counters stay below all limits without new subscriptions exactly when no subscription is outcounted |
| `BrokerLimits.Reach` | src/messaging/in_memory_broker.cc:52-79 | a handler that gets more attempts brings a counter that another subscription shares up to that one's limit |
| `BrokerLimits.BarsBreakTheLimit` | src/messaging/in_memory_broker.cc:56-56 | topics a and a|1 have a common key, and one failed delivery leaves its counter at the limit of the other subscription |
| `BrokerRuns.AlwaysFailing` | src/messaging/in_memory_broker.cc:51-91 | whatever else the topic holds, however much each delivery takes and whatever arrives: an event that a lone subscriber always fails stays until it was taken max_attempts times, then it is gone, with one dead letter and no counter |
| `BrokerRuns.FailedRound` | src/messaging/in_memory_broker.cc:51-91 | one delivery counts an attempt of the event it takes or, at the limit, replaces the event by its dead letter; an event it does not take stays as it was |
| `Broker.KeyInjective` | src/messaging/in_memory_broker.cc:56-56 | under one topic an attempt key names one subscription and one event |
| `Broker.LettersShareIdIff` | src/messaging/in_memory_broker.cc:70-73 | dead letters share an id exactly when attempt and the text of dead-letter topic and event id are the same, so two subscriptions with one dead-letter topic make letters with one id |
| `Broker.KeysMeetIff` | src/messaging/in_memory_broker.cc:56-56 | attempt keys of two topics coincide exactly when one topic absorbs the other and its subscription id |
| `Broker.InMemoryBroker.PublishEvent` | src/messaging/in_memory_broker.cc:16-24 | the event joins the back of its topic with its own key and payload, the next sequence, and its id or a generated one; an empty topic is refused |
| `Broker.InMemoryBroker.SubscribeTo` | src/messaging/in_memory_broker.cc:26-34 | the subscription joins the back with the next id, its attempts or one, and its dead-letter topic or the topic with .DLQ |
| `Broker.InMemoryBroker.HandOver` | src/messaging/in_memory_broker.cc:52-79 | the event leaves exactly when every subscription has no handler, answered well or is out of attempts; each counter is cleared or one more; and there is a letter with the key and payload of the event, and its id written out, for each subscription that gives up and for no other |
| `Broker.InMemoryBroker.DeliverTopic` | src/messaging/in_memory_broker.cc:36-93 | deliver computes the delivery function, also when others publish meanwhile, and reports whether a handler failed |
| `TokenBucket.WindowBound` | src/traffic/token_bucket.h:14-29 | in every run on a monotone clock and every window, grants are at most burst plus rate times length |
| `TokenBucket.GrantsIff` | src/traffic/token_bucket.h:14-20 | a call is granted exactly when it asks for a positive amount within the burst that balance and refill cover |
| `TokenBucket.AlwaysInRangeIff` | src/traffic/token_bucket.h:11-29 | the balance stays between zero and the burst in every run exactly when neither setting is negative |
| `TokenBucket.RateLimiter.TryAcquire` | src/traffic/token_bucket.h:14-29 | the balance is the old one and the refill up to the burst; it is granted exactly within that, and then less the amount |

## Left out

- MySQL order store and connection pool: transactions live in a library; the order repository is an answer of a step.
- Redis and Kafka clients, the Kafka consumer and its dead-letter tool: foreign calls; the queue-based consumer has the same logic.
- Event loop, channels, acceptor, socket writes and response overflow: input and output plumbing around the read loop.
- Request ids and their counter, routing, metrics, logging, configuration and the main program: wiring.
- Users, password hashing and sessions: wrappers of a cryptographic library and simple lookups.
- `replaceStock`, `repairStock` and the reconciler: they overwrite counters from outside and end the tie to the reservations.
- Damage of a log that passes its checksum: the CRC-32 finds damage within four consecutive bytes, and no more is promised.
- The text of the event that a new order publishes: the publisher only answers whether it took it.
- Directory fsync and the temporary file of a snapshot or outbox rewrite: a rename either happened or did not.
- A half-written outbox append followed by more appends: runs contain whole appends only, and the cut is covered by the codec.
- The in-memory outbox without a file: it is the durable one without its file.
- Spread of cache keys over shards: one shard is modelled, and a key always meets the same one.
- Loaders and handlers that throw, and null arguments.
- 64-bit wrap-around of sequence numbers, subscription ids, attempt counters and cache deadlines.
- Lua numbers of 10^14 and more, which print in exponent form, and 64-bit overflow of Redis counters.
- Rounding of the token bucket's floating-point numbers: it is modelled over reals.
- InventoryRuns.EveryRunBalances: covers the runs in which every call that changes memory finds its reservation on the SKU it looked up and its stock, because `InventoryRuns.EveryRunBalancesIff` shows that those are exactly the balanced ones; a restart from records that do not read back is not a step.
- SagaStock.EveryRunAccountsForStock: the inventory calls of the path are atomic here and interleaved in `InventoryRuns`.
- KvRuns.EveryRunRecovers: appends fail only by a crash, because `KvFailures.OpenBehindFailure` shows what is lost behind one that fails otherwise.
- KvFailures.OpenBehindFailure: which error a log has whose failed append stopped four or more bytes into a record is said only when the rest of that record is longer than all that follows, because otherwise it depends on the checksum of mixed bytes; `KvFailures.ReadWholeIff` covers every stop.
- Wal.LogFile.Truncate: that an unsynced truncation may come undone in a crash is not modelled, because the snapshot then includes the log and `KvTable.AfterIdempotent` covers its replay.
