# Verified model of the relational store

Dafny model and proofs for the parts of the relational store whose behaviour spans many calls: the delayed task
executor that batches requests, the shared-observer registry, the chunked key-store cipher driver, row and big-integer
marshalling for the Cangjie binding, cursor paging, the observer lists of the Cangjie and NDK stores, decimal asset
fields and the buffer of a change notification.

`dafny verify dfyconfig.toml` checks everything.

## How it is organised

Each component has a specification module (data types, one function per operation, a state machine of whole runs, and
the theorems) and, where the code updates objects in place, a module of classes and methods whose contracts tie the new
state to those functions. The environment is never assumed to be kind: remote answers, pool behaviour, step failures,
the death of weak references, thread interleavings and cipher sessions are arbitrary functions or arbitrary steps.

| component | specification and theorems | objects |
|---|---|---|
| delayed executor | `ActuatorSpec`, `ActuatorDue` (due times), `ActuatorTiming` (whole firings), `ActuatorOverlap` (interrupted firings) | `Actuator` |
| shared-observer registry | `ObsSpec`, `ObsOutcome` (whole calls), `ObsConcurrent`, `ObsUnique` (lock granularity), `ObsRefine` (the one is a case of the other) | `ObsMgrAdapter` |
| cipher driver | `CryptSpec` | `RdbCrypto` |
| big integers, rows | `BigIntCodec`, `RowMarshal` | methods in the same modules |
| paging | `PagingSpec` | `LiteResultSet` |
| observer lists | `Subscription`, `CjStoreSpec`, `CjOutcome`, `CjCloseSpec`, `NdkStoreSpec` | `RdbStore`, `CjStore`, `NdkStore` |
| asset fields | `Decimal` | `DataAsset` |
| change notification | `ChangeLayout` | methods in the same module |
| error codes | `ErrorCodes` | methods in the same module |
| shared | `RdbErrno`, `Answers`, `Options` | |

## What was found

Some promises hold only under a condition; for each the model proves the exact condition, and the failing inputs.

- A request can be lost exactly when no timer can be armed, that is, without a pool or with neither a force interval nor
  both delay intervals (`NoLostRequest`).
- Waiting is bounded exactly when the force interval is set, or the delay timer has a zero minimum interval
  (`LatencyBoundedIff`).
- Task runs keep the minimum interval in every run only when it is zero or nothing ever runs (`StepSpacingIff`). With a
  pool that is always on time they also do when only one of the two timers is used and its interval is no shorter
  (`PunctualSpacingIff`); with both timers, requests can push the delay timer to where the force timer is due. If
  firings were not interrupted, it would be enough that the force interval is no shorter and the clock plus the first
  interval is at least the minimum (`MinimumSpacingIff`, `SpacingNeedsAtomicFiring`).
- Under concurrency an observer can stay in the registry without being registered remotely, exactly when a failed
  registration is rolled back while an unregistration holds its wrapper (`LocalImpliesRemoteIff`, `LocalNotRemote`). An
  observer ends up wrapped twice under a uri exactly when a failed unregistration puts a wrapper back after its observer
  was registered anew (`UniqueObserversIff`, `ObserverWrappedTwice`).
- A key survives encryption exactly when its last chunk has at least six bytes, because the finish call gets four times
  the chunk for chunk and tag (`KeyRoundTrip`).
- A cursor that has run past its last row accepts positions up to twice the row count, and hands out rows again from one
  round further on (`PastEndRowsIff`).
- Clearing all local or local-shared observers of the event "dataChange" also removes, in the store only, the observers
  of the mode list of the same mode (`MirrorIff`, `ClobberingRun`).
- An observer of changed rows can read all keys by their labels exactly when every list holds only integers, only texts
  without NUL, or no supported key at all, and any two changed tables write the same into the cells they share
  (`AllReportedIff`). Double keys are labelled as integers (`RealKeyMisread`), a mixed list is labelled by its first key
  (`MixedKeysMisread`), and all tables are written to the start of one area (`SecondTableOverwritesFirst`).
- An asset size is given back exactly up to the largest `long` (`SetSize`).

## Model

| member | source | states |
|---|---|---|
| ActuatorSpec.InvRun | frameworks/common/include/delay_actuator.h:41-130 | in every interleaving of requests, worker phases and Defer phases: at most the two known tasks are queued, a non-invalid id is queued or just dequeued, suspension implies an open Defer, and an unserved request is covered |
| ActuatorSpec.NoLostRequest | frameworks/common/include/delay_actuator.h:41-130 | every unserved request always has a queued timer, an open Defer or a worker that has not started the task, in every run, if and only if the configuration can arm a timer |
| ActuatorSpec.QuiescentMeansServed | frameworks/common/include/delay_actuator.h:86-185 | once nothing is queued, held or about to run, no request is unserved; never more than two tasks are queued |
| ActuatorDue.DelayDue | frameworks/common/include/delay_actuator.h:103-119 | an idle delay timer is due after the first interval if at least the minimum interval has passed since the last stamp, the unsigned clock wrapping included, else after the minimum interval; a queued one is pushed back by the minimum interval |
| ActuatorDue.ForceDue | frameworks/common/include/delay_actuator.h:92-102 | the force timer is armed once for its interval, never moved by a request, and no other task but the delay timer is touched |
| ActuatorDue.NothingDue | frameworks/common/include/delay_actuator.h:88-91 | without a pool or while suspended a request arms nothing |
| ActuatorDue.IdleReactsInTime | frameworks/common/include/delay_actuator.h:86-120 | in any state of any run, a request that finds the delay timer idle is served within the first interval if the actuator has rested and within the minimum interval if not, with a punctual pool and nobody asking or deferring meanwhile |
| ActuatorDue.RequestHoldsBack | frameworks/common/include/delay_actuator.h:86-120 | in any state of any run without a force interval, a request on a queued delay timer keeps the task from starting for the minimum interval, whatever is asked and however the pool behaves |
| ActuatorDue.DeferHoldsBack | frameworks/common/include/delay_actuator.h:41-74 | in any run, from the moment a Defer has cancelled the timers until some Defer resumes, nothing is queued and no new worker appears, however often the actuator is asked |
| ActuatorTiming.BoundedLatency | frameworks/common/include/delay_actuator.h:86-120 | with a force interval and a punctual pool, no request has waited longer than that interval since it was made or the last Defer ended |
| ActuatorTiming.LatencyBoundedIff | frameworks/common/include/delay_actuator.h:86-120 | some bound on waiting exists for all punctual runs if and only if the force interval is set or the delay timer is usable with minimum interval zero |
| ActuatorTiming.MinimumSpacingIff | frameworks/common/include/delay_actuator.h:93-119 | whole firings are at least the minimum interval apart in every run if and only if nothing runs at all, or the force interval is no shorter and the unsigned clock subtraction cannot wrap to the first interval too early |
| ActuatorTiming.FireIsFourSteps | frameworks/common/include/delay_actuator.h:94-100 | a whole firing is the worker's four steps taken with nothing in between |
| ActuatorOverlap.StepSpacingIff | frameworks/common/include/delay_actuator.h:86-185 | with the real worker steps, task starts are the minimum interval apart in every run if and only if that interval is zero or no timer can be armed |
| ActuatorOverlap.PunctualSpacingIff | frameworks/common/include/delay_actuator.h:86-185 | with a pool that is always on time, they are in every run if and only if the interval is zero, no timer can be armed, or only one timer is used and its interval is no shorter |
| ActuatorOverlap.SpacingNeedsAtomicFiring | frameworks/common/include/delay_actuator.h:94-117 | every configuration whose whole firings keep a positive minimum interval has a run of the real steps that does not |
| Actuator.DelayActuator.StartTimer | frameworks/common/include/delay_actuator.h:86-120 | the fields and the pool become what the timer function of the state machine says, for either answer of the pool to a reset; `DelayDue`, `ForceDue` and `NothingDue` say which timer that arms and when it is due |
| Actuator.DelayActuator.StopTimer | frameworks/common/include/delay_actuator.h:121-130 | both timers leave the pool and both ids become invalid |
| Actuator.DelayActuator.Execute | frameworks/common/include/delay_actuator.h:166-169 | a request arms or pushes back the timers as the state machine's request step does, which `IdleReactsInTime` and `RequestHoldsBack` turn into how soon the task runs |
| Actuator.DelayActuator.ExecuteTask | frameworks/common/include/delay_actuator.h:174-185 | timers are cancelled before the task is called, once, and an unset task is skipped |
| Actuator.DelayActuator.OnTimer | frameworks/common/include/delay_actuator.h:94-100 | both timers cancel, run the task and then stamp the time |
| Actuator.Defer.constructor | frameworks/common/include/delay_actuator.h:43-51 | opening a Defer suspends the actuator and then cancels its timers |
| Actuator.Defer.End | frameworks/common/include/delay_actuator.h:54-62 | ending a Defer resumes and arms again, with the due times of `DelayDue` and `ForceDue` |
| ObsSpec.MirrorInEveryRun | frameworks/native/obs_mgr_adapter/obs_mgr_adapter.cpp:90-245 | after any calls with arbitrary client failures the wrappers per uri equal those registered remotely, no entry is empty and no observer is wrapped twice under a uri |
| ObsSpec.DrainKeeps | frameworks/native/obs_mgr_adapter/obs_mgr_adapter.cpp:161-176 | unregistering any prefix of the extracted wrappers and putting the rest back keeps the mirror |
| ObsSpec.SplitList | frameworks/native/obs_mgr_adapter/obs_mgr_adapter.cpp:137-151 | extraction splits an entry into kept and taken wrappers without losing or duplicating any |
| ObsSpec.CleanUpTrue | frameworks/native/obs_mgr_adapter/obs_mgr_adapter.cpp:194-277 | an answer of true means nothing is registered here or remotely and every wrapper ever unregistered is dead |
| ObsSpec.CleanEntriesComplete | frameworks/native/obs_mgr_adapter/obs_mgr_adapter.cpp:194-218 | with a client that never fails, cleaning empties the table whatever the order of entries |
| ObsSpec.ForceSweepErasesOnlyDead | frameworks/native/obs_mgr_adapter/obs_mgr_adapter.cpp:253-277 | a forced clean ends within 100 rounds, erases only dead wrappers, and leaves something only after all rounds |
| ObsSpec.SweepErasesOnlyDead | frameworks/native/obs_mgr_adapter/obs_mgr_adapter.cpp:253-277 | one round keeps exactly the living wrappers |
| ObsSpec.RegisterThenUnregister | frameworks/native/obs_mgr_adapter/obs_mgr_adapter.cpp:90-177 | a registration followed by an unregistration restores the table and the remote service |
| ObsOutcome.RegisterOutcome | frameworks/native/obs_mgr_adapter/obs_mgr_adapter.cpp:90-132 | a duplicate is answered if and only if a wrapper of this very observer is listed under the uri; the order of the other refusals; success adds exactly one new wrapper at the end of the uri and remotely, and anything else registers nothing anywhere |
| ObsOutcome.UnregisterNothing | frameworks/native/obs_mgr_adapter/obs_mgr_adapter.cpp:137-154 | nothing happens when no listed wrapper is meant |
| ObsOutcome.UnregisterOffline | frameworks/native/obs_mgr_adapter/obs_mgr_adapter.cpp:155-160 | without a client the wrappers meant only move to the end of their entry |
| ObsOutcome.UnregisterFails | frameworks/native/obs_mgr_adapter/obs_mgr_adapter.cpp:161-174 | after a failing call its code is the answer, the wrappers before it are unregistered and await release, and the rest is listed again |
| ObsOutcome.UnregisterSucceeds | frameworks/native/obs_mgr_adapter/obs_mgr_adapter.cpp:134-177 | when all calls succeed exactly the wrappers meant go, here and remotely, and the release list keeps exactly the living |
| ObsOutcome.UnregisterOkIff | frameworks/native/obs_mgr_adapter/obs_mgr_adapter.cpp:134-177 | success is answered if and only if no wrapper is meant or there is a client and none of the calls fails |
| ObsOutcome.UnregisterRemoves | frameworks/native/obs_mgr_adapter/obs_mgr_adapter.cpp:134-177 | after success no wrapper meant is left, here or remotely, and every other one is |
| ObsOutcome.CleanEntryOutcome | frameworks/native/obs_mgr_adapter/obs_mgr_adapter.cpp:201-213 | one entry becomes its suffix from its first failing call on, the calls are counted, and no other entry changes |
| ObsOutcome.CleanOutcome | frameworks/native/obs_mgr_adapter/obs_mgr_adapter.cpp:194-218 | for any client failures every entry becomes its suffix from its own first failing call on; without a client nothing is unregistered; the answer is true if and only if table and release list are empty |
| ObsOutcome.CleanCleans | frameworks/native/obs_mgr_adapter/obs_mgr_adapter.cpp:194-218 | with a client that never fails nothing is left registered, here or remotely, and the answer is true if and only if nothing awaits release |
| ObsMgrAdapter.ObsMgrAdapterImpl.RegisterObserver | frameworks/native/obs_mgr_adapter/obs_mgr_adapter.cpp:90-132 | insert, call the client, roll back on failure: state and code are those of the specification, which `RegisterOutcome` spells out, duplicates and missing memory included |
| ObsMgrAdapter.ObsMgrAdapterImpl.UnregisterObserver | frameworks/native/obs_mgr_adapter/obs_mgr_adapter.cpp:134-177 | extract, unregister one by one, put back what is left after a failure |
| ObsMgrAdapter.ObsMgrAdapterImpl.UnregisterEach | frameworks/native/obs_mgr_adapter/obs_mgr_adapter.cpp:161-174 | exactly the wrappers before the first failing call are unregistered and queued for release |
| ObsMgrAdapter.ObsMgrAdapterImpl.Clean | frameworks/native/obs_mgr_adapter/obs_mgr_adapter.cpp:194-218 | visits every entry once, in some order that covers the table, so that `CleanOutcome` and `CleanCleans` speak of it; a failure keeps the rest of that entry only |
| ObsMgrAdapter.ObsMgrAdapterImpl.RemoveObserver | frameworks/native/obs_mgr_adapter/obs_mgr_adapter.cpp:220-236 | one wrapper leaves its entry and an empty entry is dropped |
| ObsMgrAdapter.ObsMgrAdapterImpl.AddObserver | frameworks/native/obs_mgr_adapter/obs_mgr_adapter.cpp:238-245 | wrappers return to the end of their entry |
| ObsMgrAdapter.ObsMgrAdapterImpl.CleanReleaseObs | frameworks/native/obs_mgr_adapter/obs_mgr_adapter.cpp:253-277 | the release list and the answer are those of the sweep, forced or not |
| ObsConcurrent.PlacesInEveryRun | frameworks/native/obs_mgr_adapter/obs_mgr_adapter.cpp:90-245 | under real lock granularity, in every interleaving: a wrapper is in one place and there once, a remotely registered wrapper is still held, and none is unregistered twice |
| ObsConcurrent.LocalImpliesRemoteIff | frameworks/native/obs_mgr_adapter/obs_mgr_adapter.cpp:119-130 | every held wrapper is known remotely or still being registered, throughout a run, if and only if no roll-back misses its wrapper while another thread has it in flight |
| ObsConcurrent.MirrorWhenQuiet | frameworks/native/obs_mgr_adapter/obs_mgr_adapter.cpp:90-245 | in a run without a missed roll-back, whenever no thread is in flight the table and the remote service hold exactly the same wrappers per uri |
| ObsConcurrent.LocalNotRemote | frameworks/native/obs_mgr_adapter/obs_mgr_adapter.cpp:119-177 | a run that ends with a wrapper held here and registered nowhere |
| ObsConcurrent.ObserverWrappedTwice | frameworks/native/obs_mgr_adapter/obs_mgr_adapter.cpp:134-177 | a run that ends with one observer wrapped twice under one uri |
| ObsUnique.UniqueObserversIff | frameworks/native/obs_mgr_adapter/obs_mgr_adapter.cpp:90-245 | no observer is wrapped twice under a uri in any state of a run if and only if no step puts a wrapper back next to a newer wrapper of the same observer |
| ObsUnique.UniqueStep | frameworks/native/obs_mgr_adapter/obs_mgr_adapter.cpp:90-245 | every other step keeps the observers of every entry and every extracted list apart, and such a step always breaks it |
| ObsRefine.CallsAreRuns | frameworks/native/obs_mgr_adapter/obs_mgr_adapter.cpp:90-245 | whatever any sequence of whole calls does, with arbitrary client failures, is a run of the interleaved system with the same table, the same remote service and nobody in flight |
| ObsRefine.RegisterSteps | frameworks/native/obs_mgr_adapter/obs_mgr_adapter.cpp:90-132 | a whole registration is its locked steps taken with nothing in between |
| ObsRefine.UnregisterSteps | frameworks/native/obs_mgr_adapter/obs_mgr_adapter.cpp:134-177 | so is a whole unregistration, up to a failing call and the putting back |
| ObsRefine.CleanSteps | frameworks/native/obs_mgr_adapter/obs_mgr_adapter.cpp:194-218 | so is a whole clean-up, for any order of the entries |
| CryptSpec.DriveContract | frameworks/native/rdb_crypt/relational_store_crypt.cpp:79-117 | for every session that honours capacities and every input that is not empty: chunks concatenate to the input, outputs are contiguous from offset 0, all areas lie inside four times the input, and the final size is the sum of the outputs |
| CryptSpec.DriveFeedsInput | frameworks/native/rdb_crypt/relational_store_crypt.cpp:79-117 | even for a session that misbehaves, what it was given is a prefix of the input, and all of it on success |
| CryptSpec.DriveCalls | frameworks/native/rdb_crypt/relational_store_crypt.cpp:79-117 | whatever the session does: all calls but the last are updates of one full chunk, each with the size of the output before it as capacity; the finish gets the rest and four times its size; a drive that does not reach the finish has failed |
| CryptSpec.TagFitsIff | frameworks/native/rdb_crypt/relational_store_crypt.cpp:108-116 | the finish capacity holds the last chunk and the tag if and only if the last chunk has six bytes or more |
| CryptSpec.ChunkedIsOneShot | frameworks/native/rdb_crypt/relational_store_crypt.cpp:79-149 | chunked encryption gives one-shot AES-GCM exactly for last chunks of six bytes or more; chunked decryption always equals one-shot decryption, rejection included |
| CryptSpec.KeyRoundTrip | frameworks/native/rdb_crypt/relational_store_crypt.cpp:306-402 | decrypting an encrypted key gives the key if and only if its last chunk has at least six bytes; otherwise the encryption is empty, and for the empty key it is not defined |
| RdbCrypto.HksLoopUpdate | frameworks/native/rdb_crypt/relational_store_crypt.cpp:79-117 | on buffers with moving cursors: an empty input has no defined outcome, too small a buffer is refused untouched, otherwise the bytes and size are those of the drive and nothing beyond four times the input is written |
| RdbCrypto.EncryptKey | frameworks/native/rdb_crypt/relational_store_crypt.cpp:306-358 | the one-shot AES-GCM encryption with tag, or nothing; not defined for the empty key |
| RdbCrypto.DecryptKey | frameworks/native/rdb_crypt/relational_store_crypt.cpp:360-402 | the one-shot decryption of all but the last sixteen bytes against those sixteen, or nothing; not defined for up to sixteen bytes |
| BigIntCodec.PackKeepsValue | frameworks/cj/src/relational_store_utils.cpp:222-246 | the packed words denote the same number as the bytes, for every length |
| BigIntCodec.UnpackPack | frameworks/cj/src/relational_store_utils.cpp:467-486 | unpacking the packed bytes gives them left-padded with zeros to whole words |
| BigIntCodec.PackUnpack | frameworks/cj/src/relational_store_utils.cpp:222-246 | packing the unpacked words is the identity |
| BigIntCodec.PackStep | frameworks/cj/src/relational_store_utils.cpp:228-243 | a byte shifted and or-ed into the word under construction extends its value by one digit |
| BigIntCodec.DigitAt | frameworks/cj/src/relational_store_utils.cpp:476-484 | shifting and truncating a word gives its digit |
| BigIntCodec.PackWords | frameworks/cj/src/relational_store_utils.cpp:222-246 | the loops over bytes, with a short first word and shifts modulo the word size, compute the packing, the missing array included |
| BigIntCodec.UnpackWords | frameworks/cj/src/relational_store_utils.cpp:467-486 | the loop of truncating stores computes the unpacking |
| RowMarshal.TextRoundTrip | frameworks/cj/src/relational_store_utils.cpp:61-72 | a string survives if and only if it is not empty and has no NUL |
| RowMarshal.AssetRoundTrip | frameworks/cj/src/relational_store_utils.cpp:174-189 | an asset survives if and only if its carried fields do, the others have their defaults and the hash is the recomputed one |
| RowMarshal.AssetsRoundTrip | frameworks/cj/src/relational_store_utils.cpp:191-211 | a list of assets survives if and only if each asset does |
| RowMarshal.AssetFieldsCarried | frameworks/cj/src/relational_store_utils.cpp:410-423 | a C reader finds each text in the field of its own name if and only if it can be carried, and the status as a signed number |
| RowMarshal.TagsAgree | frameworks/cj/src/relational_store_utils.cpp:488-525 | the tag of the C value tells the kind of the value, in both directions |
| RowMarshal.BigIntRoundTrip | frameworks/cj/src/relational_store_utils.cpp:222-246 | a big integer survives if and only if its sign is 0 or 1 and, with sign 0, it has words |
| RowMarshal.ValueRoundTripIff | frameworks/cj/src/relational_store_utils.cpp:248-525 | a value of any kind survives conversion to C and back if and only if it is representable |
| RowMarshal.RowRoundTripIff | frameworks/cj/src/relational_store_utils.cpp:527-555 | a row survives if and only if it has at most 2000 columns, good names and representable values, in any column order |
| RowMarshal.RowEntityToValuesBucketEx | frameworks/cj/src/relational_store_utils.cpp:527-555 | the loop fills the key and value arrays of the row, or gives the error size |
| RowMarshal.ConvertFromValueBucketEx | frameworks/cj/src/relational_store_impl_rdbstore_core.cpp:50-61 | the loop reads the arrays back into a row |
| RowMarshal.CopyOut | frameworks/cj/src/relational_store_utils.cpp:392-408 | a blob or float array is copied in order; an empty one becomes the sentinel |
| RowMarshal.CopyIn | frameworks/cj/src/relational_store_utils.cpp:165-172 | the items come back in order, and none for the sentinel |
| RowMarshal.AssetsOut | frameworks/cj/src/relational_store_utils.cpp:425-447 | every asset is converted in order; an empty list becomes the sentinel |
| RowMarshal.AssetsIn | frameworks/cj/src/relational_store_utils.cpp:191-211 | every C asset is converted in order, undefined as soon as one is |
| PagingSpec.GetRowsValid | frameworks/native/rdb/src/step_result_set.cpp:181-331 | every call keeps the position, the learnt row count and the statement consistent, step failures included |
| PagingSpec.GetRowsIs | frameworks/cj/src/relational_store_impl_literesultset_extended.cpp:29-124 | from any cursor state, for any position and count, negative ones included: the row a request leads to, or its refusal; a page handed out is exactly the rows from there on; without a failing step it is handed out if and only if it has at most 32766 rows of at most 2000 columns, and otherwise the code tells which of the two it exceeds |
| PagingSpec.FailureReported | frameworks/native/rdb/src/step_result_set.cpp:220-270 | the first step that goes wrong ends the request, no page is handed out, its own code is the answer, and after a failure the cursor stands where the row count says |
| PagingSpec.PrepareIs | frameworks/cj/src/relational_store_impl_literesultset_extended.cpp:29-43 | getting ready succeeds only where the request leads somewhere, and then the cursor is there |
| PagingSpec.FetchPage | frameworks/cj/src/relational_store_impl_literesultset_extended.cpp:45-66 | from any cursor on or past a row, the fetched rows are those from the cursor's row on |
| PagingSpec.PagingCoversRows | frameworks/cj/src/relational_store_impl_literesultset_extended.cpp:29-124 | pages from a fresh cursor, as long as they succeed, concatenate to the rows without gap or repeat, and are empty from the end on; without failing steps pages of up to 32766 rows of at most 2000 columns all succeed |
| PagingSpec.PastEndRowsIff | frameworks/native/rdb/src/step_result_set.cpp:181-270 | a position past the last row gives rows if and only if the cursor has run out, stands no further, and the position is at most twice the row count; they are the rows from one round further on |
| LiteResultSet.StepResultSet.GoToNextRow | frameworks/native/rdb/src/step_result_set.cpp:220-270 | position, row count and statement after a step, for success, end of rows, busy and failure |
| LiteResultSet.StepResultSet.GoToRow | frameworks/native/rdb/src/step_result_set.cpp:181-215 | stepping, from a reset statement if the position lies behind, until the position or a failure |
| LiteResultSet.StepResultSet.GetRow | frameworks/native/rdb/src/step_result_set.cpp:374-378 | a row is given exactly when the cursor is on one, and it is the statement's current row |
| LiteResultSet.PageReadsBackIff | frameworks/cj/src/relational_store_impl_literesultset_extended.cpp:85-101 | the C structures of a page read back as its rows if and only if every row survives marshalling |
| LiteResultSet.LiteResultSetImpl.PreparePosition | frameworks/cj/src/relational_store_impl_literesultset_extended.cpp:29-43 | moves to the asked position, or to the first row from a fresh cursor; an empty result is no error |
| LiteResultSet.LiteResultSetImpl.FetchRowEntities | frameworks/cj/src/relational_store_impl_literesultset_extended.cpp:45-66 | collects rows until the count, the end or a failure |
| LiteResultSet.LiteResultSetImpl.ConvertToCArrValuesBucket | frameworks/cj/src/relational_store_impl_literesultset_extended.cpp:68-102 | the C structures of the rows in order; too many rows or a row with too many columns gives an error and no page |
| LiteResultSet.LiteResultSetImpl.GetRows | frameworks/cj/src/relational_store_impl_literesultset_extended.cpp:104-124 | a closed set answers that it is closed; an open one hands out the C structures of the specified page and stays consistent |
| Subscription.RemoveShape | frameworks/cj/src/relational_store_impl_rdbstore_observer.cpp:280-300 | a removal loop that succeeds keeps exactly the unselected observers in order; one that fails keeps the rest of the list from the failing observer on |
| Subscription.RemoveMirrors | frameworks/cj/src/relational_store_impl_rdbstore_observer.cpp:280-300 | however the loop ends, the store loses exactly the observers the list loses |
| Subscription.RemoveCalls | frameworks/cj/src/relational_store_impl_rdbstore_observer.cpp:280-300 | the store is asked to let go exactly the selected observers, in order, up to the first refusal, whose code is the answer; success if and only if there is no refusal |
| Subscription.RemoveTakesAway | frameworks/cj/src/relational_store_impl_rdbstore_observer.cpp:280-300 | the list and the store lose exactly the selected observers whose call succeeded, and the others keep their order |
| RdbStore.EraseSelected | frameworks/cj/src/relational_store_impl_rdbstore_observer.cpp:280-300 | the erase-while-iterating loop computes the removal |
| CjStoreSpec.NothingForgotten | frameworks/cj/src/relational_store_impl_rdbstore_observer.cpp:80-375 | in every run before a close: the store holds no observer its list has lost, no list holds one twice, no callback is registered twice for an event |
| CjStoreSpec.MirrorIff | frameworks/cj/src/relational_store_impl_rdbstore_observer.cpp:80-375 | the lists equal what the store accepted, in every state of a run, if and only if no step clears event "dataChange" while the mode list of the same mode is not empty |
| CjStoreSpec.ClobberingRun | frameworks/cj/src/relational_store_impl_rdbstore_observer.cpp:248-268 | a run after which a list holds an observer that the store has removed |
| CjStoreSpec.RemoveFirstIsRemove | frameworks/cj/src/relational_store_impl_rdbstore_observer.cpp:217-227 | stopping at the first match removes all there is to remove |
| CjStoreSpec.UnRegisterRemoves | frameworks/cj/src/relational_store_impl_rdbstore_observer.cpp:204-234 | a successful unregistration leaves no observer of the callback and every other one |
| CjStoreSpec.RegisterThenUnRegister | frameworks/cj/src/relational_store_impl_rdbstore_observer.cpp:92-234 | registering a new callback and unregistering it restores all lists and the accepted observers |
| CjStoreSpec.RemovedAll | frameworks/cj/src/relational_store_impl_rdbstore_observer.cpp:270-375 | removal from a mode or progress list keeps the others in order, or the unprocessed rest after a failure |
| CjOutcome.RegisterOutcome | frameworks/cj/src/relational_store_impl_rdbstore_observer.cpp:92-127 | a callback in use for the event is left alone; another one is subscribed with one call and joins the end of its list exactly if accepted; the event has an entry from then on |
| CjOutcome.RegisterModeOutcome | frameworks/cj/src/relational_store_impl_rdbstore_observer.cpp:129-151 | one call in that mode; the observer joins the end of the mode list exactly if accepted, and no other list changes |
| CjOutcome.RegisterProgressOutcome | frameworks/cj/src/relational_store_impl_rdbstore_observer.cpp:177-190 | one call; the observer joins the end of the progress list exactly if accepted |
| CjOutcome.UnRegisterOutcome | frameworks/cj/src/relational_store_impl_rdbstore_observer.cpp:192-234 | the observer of the callback, if any, leaves its list exactly if the store lets it go; no other list changes; the entry goes exactly when it ends up empty after success |
| CjOutcome.UnRegisterAllOutcome | frameworks/cj/src/relational_store_impl_rdbstore_observer.cpp:236-268 | an event without an entry is left alone; otherwise one call clears it, and the entry and all accepted observers of that event and mode go exactly if it succeeds |
| CjOutcome.UnRegisterModeOutcome | frameworks/cj/src/relational_store_impl_rdbstore_observer.cpp:270-330 | the mode list and the store lose exactly the selected observers up to the first refusal, and no other list changes |
| CjOutcome.UnRegisterProgressOutcome | frameworks/cj/src/relational_store_impl_rdbstore_observer.cpp:332-375 | the progress list and the store lose exactly the selected observers up to the first refusal |
| CjCloseSpec.CloseUnsubscribesOnce | frameworks/cj/src/relational_store_impl_rdbstore_extensions.cpp:129-175 | closing makes exactly one unsubscribe call per tracked observer and no other |
| CjCloseSpec.ClosedStays | frameworks/cj/src/relational_store_impl_rdbstore_observer.cpp:97-100 | once closed, no run of operations changes or calls anything and each answers that the store is closed |
| CjCloseSpec.ShutCloses | frameworks/cj/src/relational_store_impl_rdbstore_extensions.cpp:129-175 | the closing step of an open store empties every list, calls exactly once per tracked observer, leaves the store closed and answers success |
| CjCloseSpec.CloseReleases | frameworks/cj/src/relational_store_impl_rdbstore_extensions.cpp:129-175 | with a store that never refuses, only observers of the mode lists can be left accepted after a close |
| CjCloseSpec.CloseIsFinal | frameworks/cj/src/relational_store_impl_rdbstore_extensions.cpp:129-175 | any run with a close in it, whatever comes before and after: all lists are empty and the only further calls are one unsubscription per observer tracked at the close |
| CjStore.RdbStoreImpl.HasRegisteredObserver | frameworks/cj/src/relational_store_impl_rdbstore_observer.cpp:80-90 | true exactly when an observer of the callback is in the list |
| CjStore.RdbStoreImpl.RegisterObserver | frameworks/cj/src/relational_store_impl_rdbstore_observer.cpp:92-127 | the registry and code are those of the registration step, an empty entry left by a failure included |
| CjStore.RdbStoreImpl.RegisterObserverArrStr | frameworks/cj/src/relational_store_impl_rdbstore_observer.cpp:129-151 | an accepted observer joins the end of its mode list; the same holds for the change-info variant |
| CjStore.RdbStoreImpl.RegisterObserverProgressDetails | frameworks/cj/src/relational_store_impl_rdbstore_observer.cpp:177-190 | an accepted observer joins the end of the progress list |
| CjStore.RdbStoreImpl.UnRegisterObserver | frameworks/cj/src/relational_store_impl_rdbstore_observer.cpp:192-234 | the first observer of the callback leaves once the store lets it go, and an empty entry is dropped |
| CjStore.RdbStoreImpl.UnRegisterAllObserver | frameworks/cj/src/relational_store_impl_rdbstore_observer.cpp:236-268 | the entry goes if the store clears the event, and stays on failure |
| CjStore.RdbStoreImpl.UnRegisterObserverArrStrChangeInfo | frameworks/cj/src/relational_store_impl_rdbstore_observer.cpp:270-330 | the removal loop over a mode list, for one callback or all |
| CjStore.RdbStoreImpl.UnRegisterObserverProgressDetails | frameworks/cj/src/relational_store_impl_rdbstore_observer.cpp:332-375 | the removal loop over the progress list, for one callback or all |
| CjStore.RdbStoreImpl.Close | frameworks/cj/src/relational_store_impl_rdbstore_extensions.cpp:129-175 | the loops make the calls of the specification for some order of each event map, empty every list and close: the step `ShutCloses` and `CloseIsFinal` speak of |
| NdkStoreSpec.MirrorInEveryRun | interfaces/ndk/src/relational_store.cpp:890-940 | in every run the list of each type is the store's accepted set of that type, and no observer structure is in it twice |
| NdkStoreSpec.UnsubscribeAllLeavesSuffix | interfaces/ndk/src/relational_store.cpp:918-940 | removing all of a type empties its list if every call succeeds, and otherwise leaves exactly the observers from the first failing call on |
| NdkStoreSpec.SubscribeOutcome | interfaces/ndk/src/relational_store.cpp:890-916 | bad arguments change nothing; a structure already subscribed is answered with success; any other is subscribed with one call and joins the end of its list exactly if accepted, and the code is the translated answer |
| NdkStoreSpec.UnsubscribeOutcome | interfaces/ndk/src/relational_store.cpp:918-940 | bad arguments change nothing; otherwise the list and the store lose exactly the selected structures up to the first refusal, whose translated code is the answer, and no other list changes |
| NdkStoreSpec.UnsubscribeOne | interfaces/ndk/src/relational_store.cpp:918-940 | unsubscribing one structure keeps every other one, and after success it is gone |
| NdkStore.RelationalStore.DoSubScribe | interfaces/ndk/src/relational_store.cpp:890-916 | bad arguments, duplicates, refusal and acceptance give the state and code of the specification |
| NdkStore.RelationalStore.DoUnsubScribe | interfaces/ndk/src/relational_store.cpp:918-940 | the removal loop, for one observer or all of a type, as the unsubscribe step that `UnsubscribeOutcome` and `UnsubscribeOne` speak of |
| ErrorCodes.ConvertCode | interfaces/ndk/src/convertor_error_code.cpp:105-117 | bisection of a sorted table gives what a search from the front gives, the general error for a missing code included |
| ErrorCodes.GetInterfaceCodeExtend | interfaces/ndk/src/convertor_error_code.cpp:130-139 | the extended lookup is a lookup in the two tables together if and only if no code listed first as the general error has another translation in the second |
| Decimal.ReadBack | interfaces/ndk/src/relational_asset.cpp:55-83 | reading the decimal text of any integer gives it brought into range and reads all of the text |
| Decimal.ReadsAllIff | interfaces/ndk/src/relational_asset.cpp:156-196 | a text is read to its end if and only if it is empty or white space, an optional sign and digits |
| DataAsset.WrittenReadsBack | interfaces/ndk/src/relational_asset.cpp:55-83 | the text stored for any number is accepted and read back as that number brought within the getter's limits |
| DataAsset.ReadAsIff | interfaces/ndk/src/relational_asset.cpp:156-196 | a stored text is accepted if and only if it is readable, and the value is within the limits |
| DataAsset.AssetRecord.SetCreateTime | interfaces/ndk/src/relational_asset.cpp:55-63 | the getter then answers success and this time, for every 64-bit time |
| DataAsset.AssetRecord.SetModifyTime | interfaces/ndk/src/relational_asset.cpp:65-73 | the getter then answers success and this time, for every 64-bit time |
| DataAsset.AssetRecord.SetSize | interfaces/ndk/src/relational_asset.cpp:75-83 | the getter then answers success and this size, or the largest `long` if it does not fit one |
| DataAsset.AssetRecord.GetCreateTime | interfaces/ndk/src/relational_asset.cpp:156-168 | succeeds exactly on readable texts, with the time that was last set |
| DataAsset.AssetRecord.GetModifyTime | interfaces/ndk/src/relational_asset.cpp:170-182 | succeeds exactly on readable texts, with the time that was last set |
| DataAsset.AssetRecord.GetSize | interfaces/ndk/src/relational_asset.cpp:184-196 | succeeds exactly on readable texts; a negative number becomes a large size |
| ChangeLayout.SecondTableOverwritesFirst | interfaces/ndk/src/relational_store.cpp:1385-1408 | two tables with one inserted row each: both are reported with the second key |
| ChangeLayout.AllReportedIff | interfaces/ndk/src/relational_store.cpp:1364-1411 | an observer that reads every list of every table by its count, label and offset finds all keys if and only if every list is uniform and any two tables write the same into shared cells |
| ChangeLayout.AllTablesShownIff | interfaces/ndk/src/relational_store.cpp:1385-1408 | every table's cells are still there after all tables are written if and only if any two tables write the same into shared cells; always with one table |
| ChangeLayout.WriteTableAt | interfaces/ndk/src/relational_store.cpp:1399-1405 | writing a table changes exactly the cells of its keys, in order and list after list, each list up to its first unsupported key |
| ChangeLayout.LastShown | interfaces/ndk/src/relational_store.cpp:1387-1408 | the cells of the last table are always there |
| ChangeLayout.ReadsAsIff | interfaces/ndk/src/relational_store.cpp:1350-1362 | a list is read back by the label its first key gives if and only if it is uniform and its cells are in place |
| ChangeLayout.DecodeIff | interfaces/ndk/src/relational_store.cpp:1426-1437 | a cell is read as a supported key if and only if it is that key's cell, negative integers included, and the label fits an integer or a text without NUL |
| ChangeLayout.RealKeyMisread | interfaces/ndk/src/relational_store.cpp:1355-1357 | a double key is read as an integer |
| ChangeLayout.MixedKeysMisread | interfaces/ndk/src/relational_store.cpp:1350-1362 | after an integer key a text key cannot be read, nor the other way round |
| ChangeLayout.OnChange | interfaces/ndk/src/relational_store.cpp:1364-1411 | every write stays inside the computed size for any number of tables; the area and the descriptions are those `AllReportedIff` speaks of; other observer kinds are told nothing |
| ChangeLayout.GetKeyInfoSize | interfaces/ndk/src/relational_store.cpp:1339-1348 | the size is exactly one cell per key over all tables |
| ChangeLayout.ConvertKeyInfoData | interfaces/ndk/src/relational_store.cpp:1418-1439 | the loop writes one cell per key and stops at an unsupported one |

## Left out

- Changing the pool or the intervals of a live actuator, its destructor and weak references; a Defer over several
  actuators is modelled as one Defer per actuator.
- ActuatorTiming.MinimumSpacingIff: the clock at the beginning is at least 2^33 milliseconds below the end of its 64-bit
  range.
- Null entries inside observer lists, and `NotifyChange`: the list elements are typed so that they exist.
- ObsSpec.MirrorInEveryRun: a failing client call is taken to have no remote effect.
- ObsConcurrent.PlacesInEveryRun: the remote client is taken to refuse unregistering a wrapper it does not know.
- HUKS parameter sets, fault reports, key wiping and the strength of the cipher; AES-GCM is a keystream and a tag, both
  uninterpreted. Inputs stay below 2^30 bytes, where the 32-bit sizes do not wrap.
- Failing `malloc`, and reading a null C string, which is a result of its own in the marshalling model.
- Floating-point numbers are carried as bit patterns, as the code copies them.
- Paging takes a statement to restart after its last row, as SQLite's `sqlite3_step` does, and to have at least one
  column; a failing column read is not modelled.
- CjStoreSpec.MirrorIff: a failing store call is taken to change nothing, also when it clears a whole event.
- Which event and channel the close uses for the mode lists: only the one call per observer is claimed.
- `SubscribeAutoSyncProgress`: its success test takes the failure path, so its list follows no mirror.
- The entries of the error-code tables: any sorted table will do.
- Key counts of a change notification are taken to fit an `int`, and addresses of texts to differ from the numbers stored
  as keys.
- Null arguments of the asset functions, and the remaining forwarding, configuration and logging functions, which would
  only add easy members.
