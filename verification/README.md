# Verification of ORTOA

ORTOA is a key-value store whose server cannot tell reads from writes. The repository holds
two systems: ORTOA-LBL (`ortoa-lbl/`, C++), where a proxy hides every operation behind
re-encrypted two-bit labels, and ORTOA-TEE (`ortoa-tee/`), where an enclave re-encrypts whole
values. This project models both in Dafny and proves what they keep over all their runs.
`dafny verify dfyconfig.toml` checks it.

## What is modelled

**The label protocol** (`Bits`, `Labels`, `Entries`, `Partition`, `ClientHelper`, `KvServer`,
`Proxy`). A value is padded to V bytes and cut into 4V two-bit slots; slot n is stored as
`(pad XOR bits, label[bits])`. Cryptography is symbolic: a label is the term
`Derived(masterKey, subkey)`, a box opens under its sealing key and nonce only, and the pad
bits are an arbitrary function of master key and subkey. Entries and what the server makes of
them are specification functions; the loops of the client helper and of the server are methods
over arrays proved against those functions.

**The concurrent protocol** (`Protocol`, `Linearizability`, `MasterKeys`, `ProtocolRuns`,
`Rotation`, `Outcomes`, `LockTable`, `ProtocolAccounting`, `Delivery`, `Overtaking`,
`Scenarios`). `handleOp` is a state machine with one step per access to shared state; any number
of calls interleave, RPCs are messages, the server reads and writes its store in separate steps,
and an RPC may fail before or after its message left. The main theorem says that every run
refines a plain map, late creates included, if no two steps draw the same master key; the server
stays up exactly in the timely runs, in which no access writes back a block that some other
operation than the one before it in lock order had left. `Outcomes` says exactly when a call
gives up or fails, `Rotation` that every block is stored under labels never seen before, and
`Scenarios` that every sequence of operations has a run that completes it.

**The thread pool** (`ThreadPool`, `PoolRuns`, `Fanout`, `Blocks`). The pool's methods are
proved for a single thread; then pushers, workers, pause, `reset` and `wait_for_tasks`
interleave. The counter is bumped outside the mutex, so the obvious invariant is replaced by
the true one. `Fanout` runs the parts of one operation on this pool and shows that no
interleaving can be told from one sequential pass.

**The enclave** (`EncryptionEngine`, `Tee`, `TeeRuns`). The non-deterministic encoding of
values, and the host's lock-free read, enclave call and write back.

**Experiment expansion** (`Experiments`, `Parameters`) from the Python benchmark driver.

## What the code does that its design does not say

- `decryptPortion` advances its pointers by `start` slots (`ortoa-lbl/server.cpp:65-71`) where
  the proxy advances by `4 * start` (`ortoa-lbl/clientHelper.cpp:133-136`). The factor is the
  parameter `stride`: 1 as written, 4 as laid out by the proxy. With the shipped constants
  the server as written rewrites 168 of 640 slots, so of a value longer than 42 bytes a GET
  returns the rest as bits 3. The theorems hold for both strides and say what each returns,
  and `Scenarios` runs the shipped configuration into the damage.
- `create` is a oneway RPC (`ortoa-lbl/KV_RPC.thrift:11`), so the lock at
  `ortoa-lbl/proxy.cpp:56` may be released before the entry arrives, and creates of one key may
  arrive in any order. A late create does no harm until an access has read the wrong block and
  writes it back; then, with new master keys, the server exits. Delivery before the unlock is
  sufficient, and so is delivery in lock order before the next access of the key.
- The `keySet` test at `ortoa-lbl/proxy.cpp:39` is outside the lock, so a key may be created
  twice. The model allows it and the theorems cover it.
- `padToLen` throws for a value longer than V, after the lock was taken; the key then stays
  locked for good.
- `get_tasks_total() == get_tasks_queued() + get_tasks_running()` as documented at
  `ortoa-lbl/BS_thread_pool.hpp:293` fails of the real queued and running tasks while a push
  is between its two lines. `wait_for_tasks` can return with a task queued, and it can sleep
  with nothing left to wait for, and so can `reset`: the increment at line 432 notifies workers
  only. `PoolRuns.ForgottenIff` says exactly when.
- `ortoa-tee/src/host/host.cpp:63-82` takes no lock: a GET that overlaps a PUT of its key may
  write the replaced value back.
- The enclave's output buffer is as long as the stored ciphertext (`ortoa-tee/src/ortoa.edl:12-16`),
  so a PUT of a value with a longer encryption, or to a missing key, stores bytes that do not
  decrypt.

## Model

| member | source | states |
|---|---|---|
| Bits.AssembleInvertsGetBits | ortoa-lbl/clientHelper.cpp:27-41 | cutting a byte into four two-bit groups and writing them back gives the byte, whatever the target held |
| Bits.GetBitsInvertsAssemble | ortoa-lbl/clientHelper.cpp:29-41 | each group written is the group read back, so four writes determine the byte |
| Bits.AssembleForgetsJunk | ortoa-lbl/clientHelper.cpp:277-303 | the uninitialised `c` cannot be seen after four writes |
| Bits.CrumbsAreDigits | ortoa-lbl/clientHelper.cpp:29-31 | the four two-bit groups are the digits of the byte to the base 4, lowest first |
| Partition.PartSizeIsCeiling | ortoa-lbl/clientHelper.cpp:68-69 | the part size is the ceiling of V/T and between 1 and V |
| Partition.PartsCoverEachByteOnce | ortoa-lbl/clientHelper.cpp:128-131 | every byte of a value belongs to exactly one of the T parts |
| Partition.PartsCoverEachSlotOnce | ortoa-lbl/clientHelper.cpp:133-136 | the same for the slots the proxy's parts build |
| Partition.PartsAreConsecutive | ortoa-lbl/clientHelper.cpp:133-136 | part p starts, in values and in table bytes, where part p-1 ended; parts past the value are empty |
| Partition.CoverageIsExact | ortoa-lbl/server.cpp:60-75 | the server's parts reach exactly a gap-free prefix of the slots, never past the buffer, and all slots iff the stride is 4 or one part holds the value |
| Partition.ShippedCoverage | ortoa-lbl/server.cpp:60-71 | 160 bytes and 64 parts: 168 of 640 slots as written, 640 with stride 4 |
| Labels.PadToLen | ortoa-lbl/clientHelper.cpp:23-25 | a value that fits is followed by spaces up to the length; one that does not fit fails |
| Labels.SubkeysAreDistinct | ortoa-lbl/clientHelper.cpp:281-292 | (n,k) -> 5n+k is injective for k below 5 |
| Labels.LabelsAreDistinct | ortoa-lbl/clientHelper.cpp:281-292 | two labels of one master key are equal only for the same slot and bits |
| Labels.ReadBack | ortoa-lbl/clientHelper.cpp:266-312 | decoding a stored block returns the value as far as the server reaches, for every pad function and value that fits |
| Labels.VisibleIsWhole | ortoa-lbl/clientHelper.cpp:294-311 | a value reads back intact iff every crumb the server does not rewrite is 3 |
| Labels.EveryValueWhole | ortoa-lbl/clientHelper.cpp:294-311 | every value of a length reads back intact iff 4 times the length is covered |
| Labels.OnePadPerValue | ortoa-lbl/clientHelper.cpp:78-90 | stored pad bits and a value leave exactly one pad |
| Entries.CreateLabelsEncode | ortoa-lbl/clientHelper.cpp:78-90 | a created block satisfies the slot invariant |
| Entries.BuildAccessRewrites | ortoa-lbl/clientHelper.cpp:153-216 | a GET or PUT entry opens, for every old crumb of every slot, to the new slot: the same crumb, or the new value's |
| Entries.AccessMovesEncoding | ortoa-lbl/server.cpp:75-107 | an access turns the slot invariant under the old key into the one under the new key; nothing fails to open; uncovered slots come back blank |
| Entries.ExactlyOneBoxOpens | ortoa-lbl/server.cpp:78-99 | of all cells of all four tables the label stored in a covered slot opens just the one its pad bits select, in its slot |
| Entries.AccessShowsOnly | ortoa-lbl/server.cpp:75-107 | whatever the target, table sizes and the boxes that open under the labels of the covered slots are those the stored block names |
| Entries.GetAndPutLookAlike | ortoa-lbl/clientHelper.cpp:360-408 | against one stored block, covered as far as the server reaches, a GET and a PUT of any value are indistinguishable even to a server that tries every box |
| Entries.ExactlyOnePadVector | ortoa-lbl/clientHelper.cpp:163-210 | for every stored pad vector and every value exactly one vector of pads explains it |
| Entries.EntriesAgreeIffNoncesDo | ortoa-lbl/clientHelper.cpp:191-210 | every cell is sealed under its own nonce: two entries for one operation are equal iff all their nonces are |
| ClientHelper.OpScure.constructor | ortoa-lbl/clientHelper.cpp:43-46 | start-up without a saved file: exactly the registered keys are unlocked |
| ClientHelper.OpScure.CreateEntryParallel | ortoa-lbl/clientHelper.cpp:66-93 | a part fills exactly its slots with pad XOR bits and label |
| ClientHelper.OpScure.ConstructCreateEntry | ortoa-lbl/clientHelper.cpp:95-120 | all parts together build the whole create entry under a new master key; too long a value fails and changes nothing |
| ClientHelper.OpScure.GetCells | ortoa-lbl/clientHelper.cpp:163-210 | the four cells of a slot re-encode each possible old crumb, in the order of the old pad |
| ClientHelper.OpScure.PutCells | ortoa-lbl/clientHelper.cpp:360-408 | the four cells of a slot all carry the new value's crumb |
| ClientHelper.OpScure.GetEntryParallel | ortoa-lbl/clientHelper.cpp:122-225 | a part fills exactly its rows of the four tables, for a GET |
| ClientHelper.OpScure.PutEntryParallel | ortoa-lbl/clientHelper.cpp:314-422 | a part fills exactly its rows of the four tables, for a PUT |
| ClientHelper.OpScure.ConstructGetEntry | ortoa-lbl/clientHelper.cpp:227-264 | the GET entry leads from the old master key to the new one, which replaces it |
| ClientHelper.OpScure.ConstructPutEntry | ortoa-lbl/clientHelper.cpp:424-463 | the same for PUT; too long a value fails and changes nothing |
| ClientHelper.OpScure.ReadValueFromLabels | ortoa-lbl/clientHelper.cpp:266-312 | the loops decode every label and cut to the recorded size |
| ClientHelper.JunkIsOverwritten | ortoa-lbl/clientHelper.cpp:277-303 | after four groups the assembled byte does not depend on what `c` held |
| KvServer.Handler.Create | ortoa-lbl/server.cpp:49-55 | the entry's labels replace the key's block |
| KvServer.Handler.DecryptPortion | ortoa-lbl/server.cpp:57-110 | a portion rewrites exactly its slots from the cells their pads select, and exits iff one does not open |
| KvServer.Handler.OpenSlot | ortoa-lbl/server.cpp:78-99 | stored pad bits choose the table, the stored label opens its cell |
| KvServer.Handler.Access | ortoa-lbl/server.cpp:112-154 | the answer is the stored block rewritten over the covered prefix and becomes the stored block; exit iff some covered slot does not open |
| KvServer.PortionInBounds | ortoa-lbl/server.cpp:65-75 | no portion leaves the buffer, for either stride |
| Linearizability.AccessMade | ortoa-lbl/proxy.cpp:65-80 | building an entry moves the proxy to a new version of the key, on top of the one before it, and keeps the invariant |
| Linearizability.Delivering | ortoa-lbl/server.cpp:49-55 | a create stores its version whenever it arrives, under the lock or after it |
| Linearizability.ExitsIffNotTimely | ortoa-lbl/server.cpp:94-99 | the failed-open exit is taken exactly after a read of a block that the operation before had not left |
| Linearizability.Unlocking | ortoa-lbl/proxy.cpp:56-90 | the unlock publishes the call's version, delivered or not |
| Linearizability.Arriving | ortoa-lbl/proxy.cpp:36-39 | new calls may start at any time |
| Linearizability.StepKeepsInv | ortoa-lbl/proxy.cpp:36-98 | every step keeps the invariant over proxy, messages, store and log |
| MasterKeys.OnlyDrawsChangeKeys | ortoa-lbl/clientHelper.cpp:231-261 | a key's master key changes exactly when a create, GET or PUT of it builds its entry, and becomes the key drawn in that step |
| MasterKeys.EveryKeyWasDrawn | ortoa-lbl/clientHelper.cpp:231-234 | the master key of every operation in the log was drawn for that operation |
| ProtocolRuns.LblIsLawful | ortoa-lbl/clientHelper.cpp:66-463 | the label encoding satisfies the laws the protocol proof needs |
| ProtocolRuns.ForeignRefuses | ortoa-lbl/server.cpp:94-99 | a block whose covered slots carry no label of the old master key opens no box of an access, so the server exits |
| ProtocolRuns.FreshDrawsMakeNewKeys | ortoa-lbl/clientHelper.cpp:231-234 | if no two steps draw the same key, all operations have different master keys and blocks not stored by the run carry no label of them |
| ProtocolRuns.TimelyRunKeepsInv | ortoa-lbl/proxy.cpp:36-98 | the invariant holds in every state of every timely run |
| ProtocolRuns.NewKeysRunKeepsInv | ortoa-lbl/proxy.cpp:36-98 | the invariant holds in every state of every run with new master keys, late creates included |
| ProtocolRuns.RunsAreLinearizable | ortoa-lbl/proxy.cpp:36-98 | in every interleaving, RPC failures and late creates included: completed GETs return the visible part of the latest PUT in lock order; every unlocked key whose store has caught up encodes its latest value and, with new master keys, no other does; in timely runs the server never exits |
| ProtocolRuns.SlotInvariantIffCaughtUp | ortoa-lbl/proxy.cpp:51-56 | with new master keys the slot invariant holds of an unlocked key iff its last operation has reached the store and no older one after it |
| ProtocolRuns.ServerExitsIffNotTimely | ortoa-lbl/server.cpp:94-146 | with new master keys the server has exited exactly if an access wrote back a block that its predecessor had not left |
| ProtocolRuns.GetReturnsLatestPut | ortoa-lbl/server.cpp:65-71 | a GET returns the latest PUT itself if the value is covered, and iff all its uncovered crumbs are 3 |
| ProtocolRuns.EveryAccessShowsOnlyTheBlock | ortoa-lbl/server.cpp:75-107 | in every run with new master keys, at every access the server works on, the boxes that open are those the block it read names, and none at all if it read a late block; without new keys, the same of timely reads in timely runs |
| ProtocolRuns.GetsAndPutsLookAlikeInRuns | ortoa-lbl/server.cpp:75-107 | accesses of any two such runs that read equal blocks, both in time or both late, are indistinguishable, GET or PUT |
| Rotation.EveryBlockIsStoredAnew | ortoa-lbl/clientHelper.cpp:227-264 | in every run with new master keys, at every create, GET and PUT the server carries out, the block it stores has in all covered slots labels of the key drawn for that call, and none in common with any block in the store or with the block the access read |
| Outcomes.CallsEndAsTheyMust | ortoa-lbl/proxy.cpp:39-95 | in every run, whatever is delivered when: a call gives up iff it is a GET that found its key unknown or its exchange found the lock not free; an exception ends it iff its RPC failed or its value does not fit; it creates only what it found unknown and accesses only what it found known; only GETs that decoded a reply return anything |
| Outcomes.ExitedServerIsSilent | ortoa-lbl/server.cpp:94-99 | after its exit the server stores nothing and sends no reply |
| Delivery.OrderlyReadIsFresh | ortoa-lbl/KV_RPC.thrift:11 | if creates of a key are delivered in lock order and none is in flight when an access is read, the read finds what the operation before it left |
| Delivery.OrderlyRunsAreTimely | ortoa-lbl/KV_RPC.thrift:11 | such runs are timely, hence linearizable and without exit |
| Delivery.PromptRunsAreOrderly | ortoa-lbl/proxy.cpp:53-56 | if every create arrives before its key is unlocked, the run is orderly |
| Overtaking.OvertakingReadIsDoomed | ortoa-lbl/proxy.cpp:51-56 | with new master keys, an access read while the create before it is in flight makes the server exit when it is written back |
| Scenarios.LateCreateStopsTheServer | ortoa-lbl/KV_RPC.thrift:11 | a run of every configuration: PUT unlocks before its create is delivered, a GET follows, the server exits |
| Scenarios.EverySequenceCompletes | ortoa-lbl/proxy.cpp:36-98 | every sequence of operations on a registered key that fit and begin with a PUT has an orderly run with new master keys in which each completes and each GET returns the visible part of the latest PUT before it |
| Scenarios.PutPutGet | ortoa-lbl/proxy.cpp:64-90 | in particular PUT v, PUT w, GET: the PUT of the known key is carried out and the GET returns w |
| Scenarios.FailedCreateMayStillTakeEffect | ortoa-lbl/proxy.cpp:53 | a create whose RPC throws: a run in which nothing of it arrives and one in which the server stores its value |
| Scenarios.FailedPutMayStillTakeEffect | ortoa-lbl/proxy.cpp:84 | the same of a PUT to a key with a value, thrown while it sends or while it waits for the reply |
| Scenarios.DamagedValue | ortoa-lbl/server.cpp:65-71 | a server that does not reach all of a value returns another one in some orderly run |
| Scenarios.EveryValueReturnsIntactIff | ortoa-lbl/server.cpp:60-71 | in all timely runs all completed GETs return the latest PUT iff the stride is 4 or one part holds the value |
| Scenarios.ShippedServerDamagesAValue | ortoa-lbl/server.cpp:60-71 | 160 bytes, 64 parts, stride as written: 43 zero bytes are PUT and a GET returns something else |
| LockTable.MutexStep | ortoa-lbl/proxy.cpp:46-90 | the per-key try-lock admits one holder |
| LockTable.TallyPartitions | ortoa-lbl/proxy.cpp:44-93 | calls are the in-flight ones, the failed ones, accesses and aborted |
| ProtocolAccounting.StepMoves | ortoa-lbl/proxy.cpp:36-98 | every protocol step is a move of the lock table |
| ProtocolAccounting.CallsAreAccountedFor | ortoa-lbl/proxy.cpp:39-95 | in every run accesses counts the calls past their increment and aborted those that gave up, once each; the others are in flight or failed; at most one holds a key; the log has each locked call once |
| ProtocolAccounting.RegisteredKeyIsFreeIffUnheld | ortoa-lbl/proxy.cpp:46-90 | a registered key is locked exactly as long as some call holds it |
| ProtocolAccounting.LockOrderRespectsRealTime | ortoa-lbl/proxy.cpp:46-90 | a call that ended before another began precedes it in lock order |
| ProtocolAccounting.ThrownCallLocksItsKeyForever | ortoa-lbl/proxy.cpp:46-56 | after an exception the key stays locked and no later operation on it takes effect |
| ProtocolAccounting.UnregisteredKeyNeverChanges | ortoa-lbl/clientHelper.cpp:43-46 | in every run a key without a registered lock never changes, in the proxy or in the store |
| Proxy.Send_OpHandler.HandleOp | ortoa-lbl/proxy.cpp:36-98 | one call alone refines a map: the abort, read, write and throw cases, failing RPCs included, with counters, locks, result and the new master key |
| Proxy.Send_OpHandler.CreateLocked | ortoa-lbl/proxy.cpp:46-59 | creating a key under its lock; a failed create has reached the store iff its request was not lost |
| Proxy.Send_OpHandler.BuildCreate | ortoa-lbl/proxy.cpp:48-51 | the create entry encodes the value and the tables record it |
| Proxy.Send_OpHandler.BuildEntry | ortoa-lbl/proxy.cpp:66-82 | the entry rewrites the stored encoding for the operation and the tables record a PUT |
| Proxy.Send_OpHandler.AccessLocked | ortoa-lbl/proxy.cpp:65-91 | reading or writing a known key under its lock; a failed access has rewritten the block iff its request was not lost |
| ThreadPool.Pool.PushTask | ortoa-lbl/BS_thread_pool.hpp:425-434 | a finished push is queued last and counted once, so the counter again counts the queue |
| ThreadPool.Pool.Worker | ortoa-lbl/BS_thread_pool.hpp:568-587 | an unpaused running worker executes the whole queue in order and leaves the counter at 0; a paused or stopped one takes nothing |
| ThreadPool.Pool.WaitForTasks | ortoa-lbl/BS_thread_pool.hpp:508-514 | the wait ends with nothing to wait for: all executed in order, or, paused, all kept |
| ThreadPool.Pool.Reset | ortoa-lbl/BS_thread_pool.hpp:441-451 | queue, counter and pause survive the change of threads, and the pool runs again |
| PoolRuns.RunKeepsInv | ortoa-lbl/BS_thread_pool.hpp:425-587 | the counter, mutex, reset, order, execution and trace invariants hold in every interleaving |
| PoolRuns.DocumentedTotalIffNoPushUnderWay | ortoa-lbl/BS_thread_pool.hpp:286-300 | total == queued + running, and get_tasks_running is right, iff no push is between enqueue and count |
| PoolRuns.WaitMeansDoneIffNoPushUnderWay | ortoa-lbl/BS_thread_pool.hpp:508-514 | a wait that is over means all tasks done (paused: none running) iff no push is under way |
| PoolRuns.WaitCanEndEarly | ortoa-lbl/BS_thread_pool.hpp:425-434 | a one-step run in which the wait is over with a task queued |
| PoolRuns.TasksRunInOrderAndOnce | ortoa-lbl/BS_thread_pool.hpp:568-587 | no worker takes from an empty queue, tasks start in push order and once, a future is ready only after all of its task's writes |
| PoolRuns.WorkerStepsTerminate | ortoa-lbl/BS_thread_pool.hpp:568-587 | in a running unpaused pool each worker step lowers a measure bounded by 0 |
| PoolRuns.QuietPoolIsDone | ortoa-lbl/BS_thread_pool.hpp:573-585 | when no worker of an unpaused pool can step, the queue is empty and all futures are ready |
| PoolRuns.PausedIsTheLastWord | ortoa-lbl/BS_thread_pool.hpp:441-451 | in every interleaving the pool is paused iff that is the last word of pause, unpause and reset, where a reset that ends goes by what held before it began |
| PoolRuns.PoolHasTheThreadsAsked | ortoa-lbl/BS_thread_pool.hpp:522-531 | except between its old and its new threads, a pool has as many as its constructor or its last reset was asked for |
| PoolRuns.PausedPoolStartsNothing | ortoa-lbl/BS_thread_pool.hpp:575 | while a pool is paused no task starts |
| PoolRuns.NothingToWaitForIff | ortoa-lbl/BS_thread_pool.hpp:512 | the predicate of the wait holds iff the pushes under way are as many as the tasks to wait for |
| PoolRuns.ForgottenIff | ortoa-lbl/BS_thread_pool.hpp:508-514 | a waiting thread sleeps with everything done iff, nothing running, the last push under way was counted or the pause held back the queue while it slept, and no push, effective unpause or spurious wake-up came since |
| PoolRuns.ForgottenSleepsOn | ortoa-lbl/BS_thread_pool.hpp:581-584 | such a thread sleeps until one of those releases it |
| PoolRuns.VainSleepMissedAPush | ortoa-lbl/BS_thread_pool.hpp:581-584 | a finishing task always wakes the waiting thread, so a predicate that holds in its sleep came true at a step that notifies nobody |
| PoolRuns.WaitForTasksCanSleepForever | ortoa-lbl/BS_thread_pool.hpp:432-433 | a run of wait_for_tasks into that state, whatever the task does: it finishes before its push has counted it |
| PoolRuns.ResetCanSleepForever | ortoa-lbl/BS_thread_pool.hpp:441-451 | a run of reset into that state, with the task still queued |
| Fanout.FanoutIsConfluent | ortoa-lbl/server.cpp:136-144 | interleavings that write the same slots leave the same buffer |
| Fanout.GatheredPartsWroteTheirPortions | ortoa-lbl/server.cpp:142-144 | after the get() loop exactly the covered slots have been written, in every pool run |
| Fanout.GatheredBufferIsOnePass | ortoa-lbl/server.cpp:136-144 | the gathered buffer is that of one left-to-right pass, for either stride, overlaps included |
| Fanout.ParallelAccessIsSequentialAccess | ortoa-lbl/server.cpp:112-146 | the parallel access fails iff the sequential one does and otherwise computes its answer |
| Fanout.NoPartFailsIfTheAccessSucceeds | ortoa-lbl/server.cpp:94-99 | no part meets a closed box at any point of any run if the sequential access meets none |
| Fanout.ProxyFanoutBuildsWholeTable | ortoa-lbl/clientHelper.cpp:251-259 | the proxy's parts build the whole table whatever the buffer held |
| Blocks.Blocks.constructor | ortoa-lbl/BS_thread_pool.hpp:149-160 | bounds are ordered and the count is min(requested, max(1, total)) |
| Blocks.Blocks.BlocksAreConsecutive | ortoa-lbl/BS_thread_pool.hpp:168-182 | blocks follow each other from first to last index; only the last exceeds block_size, by total mod count |
| Blocks.Blocks.EachIndexIsInOneBlock | ortoa-lbl/BS_thread_pool.hpp:168-182 | every index lies in exactly one block |
| EncryptionEngine.SeparatorStays | ortoa-tee/src/libcommon/src/encryption_engine.cpp:3-10 | extraction cuts at the last separator |
| EncryptionEngine.ExtractKey | ortoa-tee/src/libcommon/src/encryption_engine.cpp:3-10 | the downward scan computes that cut; a string without a separator comes back whole |
| EncryptionEngine.RandStr | ortoa-tee/src/libcommon/src/encryption_engine.cpp:18-25 | len digits, one per random number; none for a negative len |
| EncryptionEngine.EncryptNonDeterministic | ortoa-tee/src/libcommon/src/encryption_engine.cpp:521-523 | the ciphertext is of the plaintext, `#` and the last digits of the first ten numbers drawn |
| EncryptionEngine.EncryptionsAgreeIff | ortoa-tee/src/libcommon/src/encryption_engine.cpp:18-25 | two encryptions are equal iff their plaintexts are and the ten numbers drawn for each agree modulo 10 |
| EncryptionEngine.DecryptNonDeterministic | ortoa-tee/src/libcommon/src/encryption_engine.cpp:506-527 | decryption, cut at the first NUL, then at the last separator |
| EncryptionEngine.DecryptEncrypt | ortoa-tee/src/libcommon/src/encryption_engine.cpp:506-527 | what decryption recovers of every plaintext |
| EncryptionEngine.RoundTripIffNoNul | ortoa-tee/src/libcommon/src/encryption_engine.cpp:506-527 | the round trip holds iff the plaintext has no NUL; separators do no harm |
| EncryptionEngine.ReencryptionKeepsTheValue | ortoa-tee/src/enclave/ecalls.cpp:17-22 | any chain of GET re-encryptions keeps the value of any ciphertext that decrypts, and is its encryption with the last salt |
| EncryptionEngine.EncryptionFitsBufferIff | ortoa-tee/src/libcommon/src/encryption_engine.cpp:155-190 | the length is 16*((n+11)/16+1) and fits 4096 bytes iff n is at most 4084 |
| EncryptionEngine.EncryptionFitsIff | ortoa-tee/src/ortoa.edl:12-16 | the encryption of a value of m bytes fits where that of n bytes is stored iff (m+11)/16 <= (n+11)/16, and has its length iff these are equal |
| EncryptionEngine.GetFitsStoredLength | ortoa-tee/src/ortoa.edl:12-16 | a GET's output is never longer than what it renews, and as long if the value has no NUL |
| Tee.Transfer | ortoa-tee/src/ortoa.edl:11-17 | an output reaches the host intact iff it is no longer than the stored ciphertext |
| Tee.AccessData | ortoa-tee/src/enclave/ecalls.cpp:11-30 | GET re-encrypts the stored value, anything else the sent one; undecryptable input fails |
| Tee.Host.Access | ortoa-tee/src/host/host.cpp:63-82 | one access alone: with an output that fits, the encryption of the stored or sent value with the digits drawn for this access is stored and returned; one that does not fit is cut off; failures change nothing |
| TeeRuns.OverlapInventsNoValue | ortoa-tee/src/host/host.cpp:63-82 | in every interleaving every stored and returned ciphertext decrypts to the key's initial value or one PUT to that key, unless an output was cut off |
| TeeRuns.EveryWriteIsNewlyEncrypted | ortoa-tee/src/host/host.cpp:69-80 | in every interleaving each write stores and returns what the enclave call of that access made: its value, encrypted with the salt drawn there |
| TeeRuns.NewEncryptionIsNewBytes | ortoa-tee/src/enclave/ecalls.cpp:17-24 | so a GET leaves the stored bytes as they were iff it draws the old salt |
| TeeRuns.AccessWritesOrFails | ortoa-tee/src/host/host.cpp:70-81 | a finished access wrote what it returns, or its enclave call failed and it returns the empty string and wrote nothing |
| TeeRuns.EqualSizesNeverCutOff | ortoa-tee/src/ortoa.edl:12-16 | with one ciphertext length per key no output is ever cut off |
| TeeRuns.HostIsAMapIff | ortoa-tee/src/host/host.cpp:63-82 | while nothing is cut off, the store is a map of the latest PUTs in every state iff no GET writes back a value that PUTs have replaced since it read it |
| TeeRuns.AccessReturnsLatest | ortoa-tee/src/host/host.cpp:79-80 | then a GET returns the value its key has when it reads and when it writes, and a PUT returns its own |
| TeeRuns.UndisturbedGetsRevertNothing | ortoa-tee/src/host/host.cpp:63-82 | a GET reverts nothing if no PUT of its key writes between its read and its write; overlapping GETs and overlapping PUTs are harmless |
| TeeRuns.OverlapLosesAnUpdate | ortoa-tee/src/host/host.cpp:63-82 | for all equal-length values, a run in which an overlapping GET undoes a PUT |
| Experiments.Combiner.Backtrack | ortoa-tee/extras/ortoa/benchmark/interface/experiment.py:122-132 | appends every completion of the current prefix and restores `curr` |
| Experiments.Combine | ortoa-tee/extras/ortoa/benchmark/interface/experiment.py:119-136 | the result is the product of the lists |
| Experiments.CombineIsLexicographicProduct | ortoa-tee/extras/ortoa/benchmark/interface/experiment.py:119-136 | that is every choice of one element per list, once, at its rank; the length is the product of the lengths |
| Experiments.RankIsLexicographic | ortoa-tee/extras/ortoa/benchmark/interface/experiment.py:129-132 | rank orders choices lexicographically |
| Experiments.AtomicizeExperiments | ortoa-tee/extras/ortoa/benchmark/interface/experiment.py:139-166 | one atomic experiment per combination, in order, numbered from 0 in each experiment: number i has the experiment's name, directory, metadata, seed data and operations and the flags of the choice of rank i; none at all iff some experiment lacks seed data or operations |
| Experiments.DirectoriesAreDistinct | ortoa-tee/extras/ortoa/benchmark/interface/experiment.py:157-164 | no two of them share an output directory if no two experiments do |
| Parameters.MultiplyValues | ortoa-tee/extras/ortoa/benchmark/interface/parameter.py:54-62 | the terms min*m^k before the first one above the maximum: from min on, each the multiple of the one before it |
| Parameters.MultiplyEndsIff | ortoa-tee/extras/ortoa/benchmark/interface/parameter.py:58-60 | the loop ends for exactly these minimum, maximum and multiplier |
| Parameters.MultiplyValuesAreAllTerms | ortoa-tee/extras/ortoa/benchmark/interface/parameter.py:54-62 | for min >= 1 and m >= 2: increasing, and exactly the terms up to the maximum |
| Parameters.IncrementValues | ortoa-tee/extras/ortoa/benchmark/interface/parameter.py:40-48 | the numbers min + k*step up to the maximum |
| Parameters.IncrementEndsIff | ortoa-tee/extras/ortoa/benchmark/interface/parameter.py:44-46 | the loop ends iff the range is empty or the step positive |

## Left out

- Thrift, sockets, RocksDB, Redis, Open Enclave and Boost archives: stores are maps, RPCs are messages or calls.
- The inside of libsodium and OpenSSL and every probabilistic claim: labels, boxes, pads and ciphertexts are terms, so hash or tag collisions do not exist, and `Mangled` bytes never decrypt by chance.
- Byte-level data races on `std::set` and `unordered_map`: each map operation and each slot write is one atomic step.
- Saving and loading the proxy's tables (`OpScureSetup`, `OpScureCleanup`): a process starts with empty tables, as without a saved file.
- The size of the lock table: which keys are registered is a parameter, not the decimal strings below KEY_MAX.
- Latency averages, logging, signal handlers and argument parsing: they do not touch the modelled state.
- The four output buffers of an access entry are one array of rows in ClientHelper, because their pointers always move together; aliasing between them is not captured.
- ClientHelper and KvServer run the parts of an operation in submission order; Fanout proves that no other order can be told from it, on the value level and not on the arrays.
- A stored block or table too short for a slot: the read past its end is modelled as a box that does not open.
- Proxy.Send_OpHandler.CreateLocked: a create that is delivered arrives before the method returns, because a late one is a step of Protocol instead.
- ThreadPool.Pool.Worker: is one thread alone; it returns where the source's worker would sleep or spin. The interleavings are in PoolRuns.
- ThreadPool.Pool.WaitForTasks: the waiting thread is its own worker; sleeping and waking are in PoolRuns.
- ThreadPool.Pool.Reset: joining stopped workers has no effect on the modelled fields and is a comment; the join is a step of the machine in PoolRuns.
- PoolRuns.QuietPoolIsDone: workers wait in a step enabled by their predicate, so wake-ups lost by workers (in particular in `destroy_threads`) are not modelled and no termination of `reset` is claimed; notifications of a thread that waits for the tasks are modelled.
- PoolRuns.ForgottenIff: assumes fewer than 2^64 queued tasks, because size_t wraps.
- PoolRuns.WorkerStepsTerminate: counts a paused worker's spinning as no progress, so it is stated for unpaused pools.
- PoolRuns.DocumentedTotalIffNoPushUnderWay: fewer than 2^64 pushes and tasks at once, because size_t wraps; the invariant itself is proved with wrap-around.
- Several threads resetting one pool or waiting for its tasks at once, and tasks whose body throws: `submit` catches exceptions, so a task always ends.
- `synced_stream`, `timer`, `multi_future` and the loop helpers of the thread pool header: easy members or I/O.
- Blocks.Blocks.constructor: indices and sizes are mathematical integers; narrowing casts of the template type are not modelled.
- Tee.Transfer: what an enclave does after writing past its output buffer is undefined; only the cut-off result is modelled.
- Tee.AccessData: the enclave's aborts on undecryptable or empty plaintexts are a failed call; that an aborted enclave refuses later calls is covered by calls failing at any time.
- EncryptionEngine.DecryptNonDeterministic: the 4096-byte local buffer of the decryption is not modelled.
- Experiments.AtomicizeExperiments: what the seed and operation files hold and how a flag lists its alternatives are not modelled.
- `concurrent_benchmark.cpp`, `client.cpp`, `benchmark.cpp`, `clients.cpp`, `estimate_encryption.cpp`: drivers, or copies of the proxy's logic.
- The enclave benchmark's queues, runners and data generators, signing and key-making code, and the Python job runner, statistics and plots: I/O or library wrappers.
