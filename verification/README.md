# Verified models of the Async Data Hub services

The services of this repository control concurrency in eight different ways. Each of them is
modelled here twice:

* as a **step machine**: a `State`, the `Action`s that requests, the database, the key store and the
  clock can take, a total `Step` (an action that is not enabled changes nothing) and `Run`, which
  folds any sequence of actions. The theorems are about every such sequence, so about every
  interleaving of any number of requests with failures, crashes and time passing;
* as a **class that works in place**, shaped like the service: its fields are the rows, records and
  registries, and its methods keep the loops and branches of the source. At every `await` the method
  `Await` lets an arbitrary sequence of other requests' steps happen. `Valid()` says that the fields
  are what `Run` makes of a ghost `history`, so each method is proved to take only steps of the
  machine, and every theorem about runs holds of it.

Postgres is modelled by the rules that the services rely on: a row lock from the statement until the
end of the transaction, a recheck of the `WHERE` clause after waiting for a lock, rollback, check
constraint and partial unique index at the write, and snapshots per statement or per transaction. The
key store has atomic set-if-absent, expiry and token-checked delete. The reply to a COMMIT may get
lost. Times are in milliseconds, except in `MemoryCache`, where any unit will do.

| files | content |
|---|---|
| `InventoryModel`, `InventoryRefinement`, `InventoryTheorems`, `InventoryProgress`, `InventoryService` | product reservation: optimistic, pessimistic, atomic, distributed lock, naive |
| `Ordering`, `RowLocks` | canonical lock order and deadlock freedom |
| `JobQueue`, `JobTable` | the job queue and its three locking strategies |
| `Payments`, `PaymentSafety`, `PaymentReplay`, `PaymentService` | idempotent payments |
| `Mvcc`, `Anomalies`, `Transfers`, `TransferSafety`, `TransferRetries`, `TransferService` | isolation levels, the anomaly matrix, money transfers |
| `SingleFlight`, `RequestCoalescer`, `MemoryCache` | request coalescing over the cache, and the in-memory key store |
| `Consistency`, `ReadGuarantees`, `ConsistencyService` | reads by log position on a primary and two replicas |
| `ByteRanges`, `MediaStream` | Range headers (RFC 9110, sections 14.1.2 and 14.4) and streaming |
| `Aggregation`, `AggregationProgress`, `AggregationService` | streamed and batch fan-out |
| `Sets`, `Options` | a fact about cardinalities, and values that may be missing |

## Where code and documentation differ

The models follow the code.

* `reserve_atomic` tests the result object of its existence query, which is never false
  (app/services/inventory_service.py:211-217), so an unknown product is answered with "Not enough
  stock". The sequential service `Reserve` says so too.
* Only the optimistic strategy changes `version` (app/services/inventory_service.py:145, against 196,
  221 and 255), so it is safe only by itself. `SafeMixes` says exactly which mixes are safe.
* `transfer` puts the whole level table into its `SET TRANSACTION` statement
  (app/services/db_concurrency_service.py:118); the level that the caller asked for is modelled. The
  test for exhausted retries (line 141) never holds, so a call whose attempts all fail ends without a
  result (`NoResult`).
* The docstring of `transfer` speaks of overdrafts at READ COMMITTED: `LevelsThatNeverOverdraw` shows
  that this is the one level at which they happen. Lost updates do not, because both updates are relative.
* A stream can end without its "completed" event although nothing has failed: the consumer can look at
  the flag before it is set and then wait at a queue that stays empty
  (app/services/aggregation_service.py:112-115). `CompletionIsPossible` says exactly from which states
  a stream can still complete.
* `complete` marks a job DONE whatever its status is (app/services/db_lock_service.py:65-73).
* On the in-memory path the record that `setnx` stores has one more JSON layer than its reader
  expects (app/services/payment_service.py:202-206 and 250). The payments model takes the other path.
* `write` can report a commit to its client only after the primary shows it, but with a quorum a
  replica may show it earlier; the primary's hidden commits are part of the model.

## Model

| member | source | states |
|---|---|---|
| InventoryRefinement.StepRefines | app/services/inventory_service.py:81-264 | under the invariant, a step that fixes a call's effect is one whole sequential `Reserve` of the committed stock and reservations, and any other step changes nothing committed |
| InventoryRefinement.RefusalIsJustified | app/services/inventory_service.py:96-103 | "not found", "not enough stock" and the other refusals are justified by the committed stock at an instant inside the call |
| InventoryRefinement.CommitReserves | app/services/inventory_service.py:142-151 | committing writes exactly what the sequential reservation would write at that instant, for every safe strategy, whether or not the call hears of it |
| InventoryRefinement.RunKeepsInv | app/services/inventory_service.py:114-229 | every run of one safe family keeps: a remembered version, row lock or lease that is still good implies that the remembered stock is the row's |
| InventoryRefinement.Linearizable | app/services/inventory_service.py:114-264 | runs of optimistic only, of any mix of pessimistic and atomic, or of timely lock holders end with the stock, reservations and answers of the answered calls run one by one; a call whose COMMIT reply got lost has reserved |
| InventoryRefinement.RealTimeOrder | app/services/inventory_service.py:81-91 | that sequential order puts a call that was answered before another one started first |
| InventoryTheorems.SafeRunsConserve | app/services/inventory_service.py:114-229 | stock plus reserved quantities stays the initial stock, and stock never drops below zero |
| InventoryTheorems.OverlapLosesAnUpdate | app/services/inventory_service.py:93-112 | for every pair of strategies of which one overlooks the other, a concrete run sells two units and takes one from stock |
| InventoryTheorems.SafeMixes | app/services/inventory_service.py:81-91 | with no assumption on timing, a set of strategies conserves stock in all runs if and only if it is optimistic alone or contains only pessimistic and atomic |
| InventoryTheorems.LiveLeaseIsSafe | app/utils/distributed_lock.py:33-49 | whatever the timing, a live lease disappears only by a release of its own holder |
| InventoryTheorems.ReleaseFreesTheLock | app/utils/distributed_lock.py:33-49 | once the holder has released, the next poll by anyone who waits for the product takes the lock, before any time has passed |
| InventoryTheorems.LeaseLastsItsTime | app/cache/redis_cache.py:133-146 | a lock that nobody releases or takes over is granted to the next poll if and only if more than its time to live has passed since the grant |
| InventoryTheorems.AtMostOneHolder | app/utils/distributed_lock.py:18-57 | if holders finish their transactions inside their leases, two requests never hold the lock of one product at once |
| InventoryProgress.RunsCountVersions | app/services/inventory_service.py:142-146 | in optimistic runs a row's version is the first version plus the number of requests that have won it |
| InventoryProgress.GivingUpMeansOthersWon | app/services/inventory_service.py:121-165 | a request that gives up with a conflict has seen at least the maximal number of attempts of other requests win since it started |
| InventoryProgress.WinnersAreBounded | scripts/inventory/simulate.py:98-100 | N unit requests on stock S that are all answered: between min(N, S, attempts) and min(N, S) succeed |
| InventoryService.Database.Await | app/services/inventory_service.py:104 | at an await, other requests change neither the caller's variables nor a row it has locked |
| InventoryService.CompareAndSwap | app/services/inventory_service.py:142-161 | in place: wins, or loses the race and retries with the next attempt, or gives up after the last one |
| InventoryService.ReserveOptimistic | app/services/inventory_service.py:114-165 | the retry loop takes only steps of the machine and ends with an answer |
| InventoryService.ReservePessimistic | app/services/inventory_service.py:167-199 | select for update, check, decrement and commit take only steps of the machine |
| InventoryService.ReserveAtomic | app/services/inventory_service.py:200-229 | the conditional update takes only steps of the machine |
| InventoryService.AcquireLease | app/utils/distributed_lock.py:18-31 | the polling loop ends with a fresh lease of its own or, not before the deadline, without one |
| InventoryService.ReleaseLease | app/utils/distributed_lock.py:33-49 | a release deletes its own lease, and leaves every lease with another token alone |
| InventoryService.ReserveDistributedLock | app/services/inventory_service.py:230-264 | acquire, read-modify-write, commit, release, in that order, as steps of the machine |
| InventoryService.ReserveNaive | app/services/inventory_service.py:93-112 | the racy body takes only steps of the machine (for contrast) |
| InventoryService.ReserveProduct | app/services/inventory_service.py:81-91 | the dispatch: this call's reservation row is there if and only if the call succeeded or lost the reply to its COMMIT; a conflict means that enough others won meanwhile |
| Ordering.Sort | app/services/db_lock_service.py:107-116 | the result is sorted and has the same elements, repetitions included |
| Ordering.SortedIsUnique | app/services/aggregation_service.py:221 | elements with distinct keys can be sorted in one way only |
| Ordering.BeforeMeansPrecedes | app/services/aggregation_service.py:221 | the order is the one of Python's strings: a proper prefix, or the smaller character at the first difference |
| RowLocks.OrderIsCanonical | app/services/db_lock_service.py:107-116 | the same resources listed in any order are locked in the same order |
| RowLocks.OrderedPlansAreDisciplined | app/services/db_lock_service.py:107-116 | locking the ordered resources, one mode each, is a plan of the kind for which there is no deadlock |
| RowLocks.RunKeepsInv | app/services/db_lock_service.py:97-104 | locks granted by the compatibility rule and kept to commit are pairwise compatible in every run |
| RowLocks.OnlyExclusionWaits | app/services/db_lock_service.py:97-104 | a request waits for exactly those who hold its resource while one of the two is exclusive |
| RowLocks.HeldTogetherMeansShared | app/services/db_lock_service.py:97-104 | in every run, what two unfinished transactions hold at once both hold shared |
| RowLocks.NoCycle | app/services/db_lock_service.py:107-116 | with ordered plans the wait-for graph has no cycle in any reachable state |
| RowLocks.NeverStuck | app/services/db_lock_service.py:107-116 | while a transaction is unfinished, some transaction can take its next lock or commit |
| RowLocks.StepsUseWork | app/services/db_lock_service.py:107-116 | each effective step uses up one unit of the outstanding acquisitions and commits |
| RowLocks.EveryoneCommits | app/services/db_lock_service.py:107-116 | from every reachable state a schedule of exactly the outstanding work commits every transaction |
| RowLocks.OppositeOrdersDeadlock | scripts/db_lock/simulate.py:249-283 | two transactions that lock two rows in opposite orders reach a cycle |
| RowLocks.UpgradesDeadlock | app/services/db_lock_service.py:97-104 | so do two transactions that upgrade one row from share to exclusive, even in order |
| JobQueue.NoDoubleClaim | app/services/db_lock_service.py:35-58 | for any mix of the three strategies, enqueues, completions and rollbacks, a job has at most one committed claim |
| JobQueue.StatusMovesForward | app/services/db_lock_service.py:55-71 | a job's committed status only moves along QUEUED, RUNNING, DONE |
| JobQueue.OnlyCommitsChangeJobs | app/services/db_lock_service.py:47-73 | in every reachable state, a job's committed status and claimant change by the commit of the transaction that holds it, as that one intended, and by no other step |
| JobQueue.RollbacksLeaveNoTrace | app/services/db_lock_service.py:47-62 | a rollback leaves every job as it was committed, and frees the rows of its transaction and no others |
| JobQueue.RollbacksHandOver | app/services/db_lock_service.py:35-58 | a job whose claim is rolled back is taken by whoever looks at it next |
| JobQueue.RunningJobsAreClaimed | app/services/db_lock_service.py:53-58 | a RUNNING job is marked with a transaction if and only if that one's claim of it has committed |
| JobQueue.ClaimsTakeTheFirstFree | app/services/db_lock_service.py:37-52 | the claimed job was unlocked and QUEUED when inspected, and every job before it in the claim's snapshot was, when inspected, locked by another under SKIP LOCKED or no longer QUEUED |
| JobQueue.BlockingClaimsAreInOrder | app/services/db_lock_service.py:45-52 | first in, first out without SKIP LOCKED: when a blocking or nowait claim has taken a job, no job that was queued before it when the claim began is still QUEUED |
| JobQueue.OpenClaimsTakeTheLowest | scripts/db_lock/simulate.py:221-236 | K open skip-locked claims over at least K free jobs hold exactly the K lowest, one each; none waits or comes away empty |
| JobTable.JobTable.Enqueue | app/services/db_lock_service.py:27-33 | in place: a new QUEUED row behind all others, visible at commit |
| JobTable.JobTable.Complete | app/services/db_lock_service.py:65-73 | a missing or invisible job is refused and nothing changes; any other ends DONE |
| JobTable.JobTable.InspectRow | app/services/db_lock_service.py:43-56 | a row is passed over only if it is another's under SKIP LOCKED, or locked now and not QUEUED; refused only if it is another's under NOWAIT; otherwise taken |
| JobTable.JobTable.Claim | app/services/db_lock_service.py:35-63 | the scan over the snapshot: the claimed row is RUNNING and the caller's and was found free; all rows before it, or all rows if none is claimed, were passed over for a reason at their inspection, and without SKIP LOCKED are not QUEUED any more |
| PaymentSafety.RunKeepsInv | app/services/payment_service.py:114-238 | every run keeps: locks belong to open charges, records match payloads, successes are unique per key |
| PaymentSafety.MoneyIsConserved | app/services/payment_service.py:131-168 | with expiries, crashes, failures and late deletes: balance plus successful charges is the initial balance, and no balance is negative |
| PaymentSafety.ChargedAtMostOnce | app/db/models.py:126-135 | an idempotency key has at most one SUCCEEDED charge in every run |
| PaymentSafety.RefusalsAreJustified | app/services/payment_service.py:131-168 | in every run a FAILED charge is recorded only if the committed balance was below its amount when it was debited |
| PaymentSafety.ResponsesAreBacked | app/services/payment_service.py:215-238 | every completed record and every response is a committed charge with that key, customer, amount and status |
| PaymentReplay.ExecutionsDoNotOverlap | app/services/payment_service.py:202-224 | while no record expires, two requests of one key are never both executing or have both answered from an execution |
| PaymentReplay.ReplaysAreFaithful | app/services/payment_service.py:240-269 | while no record expires, a replay goes to a request with the same payload and repeats the one response |
| PaymentReplay.RecordsLiveTheirTime | app/services/payment_service.py:202-215 | unless its record is written or deleted meanwhile, a key that was set or completed is met by later requests for exactly the time to live, and acquired by the next one after that |
| PaymentReplay.LiveRecordsAnswer | app/services/payment_service.py:240-269 | within that time another request with the key hears: its response for the same payload, in flight while there is none, a conflict for another payload |
| PaymentService.PaymentService.Acquire | app/services/payment_service.py:202-208 | the key is acquired if and only if it has no record or its record's time has run out, and then, only then, its record becomes this request's processing record, for the time to live from now |
| PaymentService.PaymentService.ChargeAccount | app/services/payment_service.py:114-168 | in place: paid (the amount goes from the balance to a SUCCEEDED charge in one step), refused because the balance was too small when debited (a FAILED charge, balances alone), or failed for a stated reason with nothing left behind, except that an unexpected error may hide a commit |
| PaymentService.PaymentService.HandleExisting | app/services/payment_service.py:240-269 | the answer is what the record says if its time has not run out: another payload, still processing, or its response; without one the record has vanished; the records stay as they are |
| PaymentService.PaymentService.StoreResponse | app/services/payment_service.py:226-238 | the completed record carries the fingerprint and the response that is returned |
| PaymentService.PaymentService.DropRecord | app/services/payment_service.py:217-225 | a failure deletes the record, whoever's it is by now, and is passed on |
| PaymentService.PaymentService.ChargeWithIdempotency | app/services/payment_service.py:185-238 | the whole call: ends with a backed response or an error, through steps of the machine only |
| Anomalies.NoDirtyRead | app/services/db_concurrency_service.py:31-33 | no run at any level shows a dirty read |
| Anomalies.RepeatableReadIsFixed | app/services/db_concurrency_service.py:38-44 | no repeatable-read run shows a dirty, non-repeatable or phantom read or a lost update |
| Anomalies.MatrixIsExact | app/services/db_concurrency_service.py:30-52 | a cell of the read-committed and repeatable-read rows is true if and only if some run at that level shows the phenomenon |
| Transfers.TransfersConserve | app/services/db_concurrency_service.py:71-73 | in every interleaving at every level the total of all balances is constant, also for transfers to oneself |
| TransferSafety.FixedSnapshotsNeverOverdraw | app/services/db_concurrency_service.py:143-158 | under fixed snapshots no committed balance is ever negative |
| TransferSafety.ReadCommittedOverdraws | app/services/db_concurrency_service.py:104-117 | a run of two transfers at READ COMMITTED that ends with a negative balance |
| TransferSafety.LevelsThatNeverOverdraw | app/services/db_concurrency_service.py:104-117 | a set of levels never overdraws, in all runs, if and only if READ COMMITTED is not in it |
| TransferSafety.CommitsAtMostOnce | app/services/db_concurrency_service.py:119-142 | however often a call is retried, after serialization failures at any statement or at COMMIT, at most one of its attempts commits |
| TransferSafety.SuccessMeansCommit | app/services/db_concurrency_service.py:126-142 | a call reports success if and only if one of its attempts has committed and the call has heard of it |
| TransferSafety.CommittedCallsEnd | app/services/db_concurrency_service.py:135-142 | a call of which an attempt has committed reports success, or the error that hid the commit, and nothing else |
| TransferSafety.CommitsMoveTheAmount | app/services/db_concurrency_service.py:153-158 | whatever others have committed since the balances were read, a commit moves exactly the amount of its call between its two rows, and changes no other |
| TransferRetries.RetriesAreExact | app/services/db_concurrency_service.py:119-142 | in every run the attempt that a call is in is the number of serialization failures that it has met, and it ends without a result if and only if they are the maximal number of attempts |
| TransferRetries.RefusalsAreJustified | app/services/db_concurrency_service.py:143-152 | a call is refused only if the balance committed when it read was below the amount, and goes through only if it was not |
| TransferRetries.AloneItGoesThrough | app/services/db_concurrency_service.py:143-158 | at every level, a call whose account covers the amount, and that begins while nobody holds a row, goes through in six steps and moves exactly the amount |
| TransferRetries.LosersTryAgain | app/services/db_concurrency_service.py:126-140 | a debit that finds a newer version costs one attempt, and the next one, left alone, goes through |
| TransferRetries.OvertakenCallsGoThrough | app/services/db_concurrency_service.py:119-142 | two calls of one account that covers both: the second commits between the first one's read and debit; at a fixed snapshot the first then fails once, and its next attempt succeeds |
| TransferService.DBConcurrencyService.Check | app/services/db_concurrency_service.py:147-152 | not found if and only if an account does not exist, else refused if and only if the balance that was read is too small |
| TransferService.DBConcurrencyService.Move | app/services/db_concurrency_service.py:153-154 | the relative update waits for the row, and moves on, ends the call with an error or, not at READ COMMITTED, costs the attempt |
| TransferService.DBConcurrencyService.Finish | app/services/db_concurrency_service.py:155-158 | the reported balances are the ones just committed, by a step that moved exactly the amount, or the attempt is over without a report |
| TransferService.DBConcurrencyService.Transfer | app/services/db_concurrency_service.py:104-142 | the retry loop in place: how each outcome can arise; success if and only if a commit of this call that it has heard of is in the history, and no commit behind any other outcome but an error; no result if and only if every attempt has met a serialization failure; a refusal only after reading too small a balance |
| SingleFlight.AtMostOneUnfinished | app/cache/request_coalescer.py:26-38 | with failures, cancellations and abandoned callers, two tasks of one key are never unfinished together |
| SingleFlight.FactorySucceedsOnce | app/cache/redis_cache.py:86-105 | as long as no value is lost, the factory succeeds at most once for a key and every caller that comes back has that value |
| SingleFlight.NothingIsLeftBehind | app/cache/request_coalescer.py:32-38 | whatever fails and whoever is cancelled, every registered task has a caller that will take it out, and the registry is empty once all calls are over |
| SingleFlight.CancellingOneEndsAll | app/cache/request_coalescer.py:32-38 | the awaited task is not shielded: after one caller is cancelled, no caller that was waiting for that task ever gets a value from it, and each can leave at once and leaves the task out of the registry |
| RequestCoalescer.CoalescingCache.JoinTask | app/cache/request_coalescer.py:26-30 | in place: the registered task of the key, or a new one |
| RequestCoalescer.CoalescingCache.Build | app/cache/redis_cache.py:96-103 | look up again, call the factory, store: until the task is done |
| RequestCoalescer.CoalescingCache.BeCancelled | app/cache/request_coalescer.py:32-35 | in place: a cancellation ends an unfinished task, and the caller comes away without a result |
| RequestCoalescer.CoalescingCache.CleanUp | app/cache/request_coalescer.py:34-38 | the registry loses the key if and only if the awaited task is still registered under it, with or without a result |
| RequestCoalescer.CoalescingCache.Coalesce | app/cache/request_coalescer.py:20-38 | the result is that of a finished task of the key, or none, and that task is out of the registry |
| RequestCoalescer.CoalescingCache.GetOrSet | app/cache/redis_cache.py:86-105 | the value comes out of the cache or a task of this key; none only after a failure |
| MemoryCache.LazyExpiryIsInvisible | app/cache/redis_cache.py:48-53 | over all operation sequences every answer is that of an expiring map, written out by itself, that never drops anything by itself, except, exactly, the count of a late release |
| MemoryCache.GetFindsTheLastWrite | app/cache/redis_cache.py:45-71 | over all operation sequences a read finds a value if and only if the last write of the key stored it, nothing has deleted or released it since, and its own or the default time to live has not run out |
| MemoryCache.SetNxNeedsAFreeKey | app/cache/redis_cache.py:133-146 | set-if-absent succeeds if and only if by that history the key has no value |
| MemoryCache.LeaseLasts | app/cache/redis_cache.py:142-146 | what set-if-absent stored stays until it expires, unless deleted, set or released by its own token |
| MemoryCache.GrantsDoNotOverlap | app/utils/distributed_lock.py:18-57 | of two grants of a lease, the first had run out or been given back before the second |
| MemoryCache.AsyncCache.Get | app/cache/redis_cache.py:45-53 | in place: the live value, and an expired entry is dropped |
| MemoryCache.AsyncCache.Set | app/cache/redis_cache.py:61-71 | in place: whatever was there, the key now has this value with its own or the default time to live |
| MemoryCache.AsyncCache.Delete | app/cache/redis_cache.py:83-84 | in place: the entry is gone |
| MemoryCache.AsyncCache.SetNx | app/cache/redis_cache.py:133-146 | in place: stores if and only if the key is not live |
| MemoryCache.AsyncCache.Eval | app/cache/redis_cache.py:148-175 | in place: deletes the entry if and only if it carries the token, expired or not |
| Consistency.VisibleIsAPrefix | app/services/consistency.py:92 | whatever node is asked, it shows a document as of some prefix of the log, no shorter than what the node is known to show, even while commits are hidden on the primary |
| Consistency.RunKeepsInv | app/services/consistency.py:36-110 | every run keeps: returned positions are past the commit, and answers are as of a prefix between the target and the returned position |
| ReadGuarantees.ReadYourWrites | app/services/consistency.py:57-63 | waiting for the position a write returned, with success, shows that write or a later one |
| ReadGuarantees.MonotonicReads | app/services/consistency.py:88-93 | passing on the position of a read never leads to an older version, on whichever replica |
| ReadGuarantees.AnswersAreReal | app/services/consistency.py:86-110 | every answer is the document as of a log prefix that reaches at least to whatever the node showed when the call began and to what was waited for with success, and at most to the returned position; the flag is set exactly for waits on replicas |
| ReadGuarantees.ReplicaReadsAreRecent | app/services/consistency.py:86-110 | a replica, waited for or not, answers as of no earlier position than the one that it had replayed when the call began |
| ReadGuarantees.PrimaryReadsAreRecent | app/services/consistency.py:86-110 | the primary answers as of no earlier position than its own when the call began, if no commit to the document was hidden then |
| ReadGuarantees.PrimaryReadsAreStrong | app/services/consistency.py:72-86 | a primary read that starts after a write was acknowledged finds it or a later one |
| ReadGuarantees.EarlyPositionMissesTheWrite | app/services/consistency.py:57-60 | a replica that stands at a position taken before the commit record does not show the write, although the primary shows it or a later one |
| ReadGuarantees.EarlyPositionsCanMissTheWrite | app/services/consistency.py:57-60 | after every run that has brought a write to its commit, a replica can answer a read that waited for such a position with "up to date" and without the acknowledged write |
| ConsistencyService.ConsistencyService.WaitForLsn | app/services/consistency.py:152-177 | the polling loop: true only when the replica is there, false only after the deadline and while it is not |
| ConsistencyService.ConsistencyService.Write | app/services/consistency.py:36-70 | in place: the upsert is in the log, and the returned position is past it |
| ConsistencyService.ConsistencyService.Read | app/services/consistency.py:72-110 | wait, document, position, in that order; the document is found as of everything that the node showed when the call began, or later, and as of what was waited for with success; the flag is none exactly on the primary or without a target |
| ByteRanges.ParseRange | app/services/media_service.py:333-374 | an accepted range satisfies 0 <= start <= end < total |
| ByteRanges.ParseIsExact | app/services/media_service.py:333-374 | a header is accepted, as this range, if and only if it is "bytes=", blanks, one of the three forms asking for this range, blanks |
| ByteRanges.PrintedRangeParses | app/services/media_service.py:360-374 | printing two numbers and parsing gives them back, cut off at the end of the file, or out of bounds |
| ByteRanges.PrintedSuffixParses | app/services/media_service.py:351-356 | "-n" gives the last min(n, total) bytes, and zero is refused |
| ByteRanges.PrintedRestParses | app/services/media_service.py:357-359 | "start-" gives the rest |
| MediaStream.StreamByteRange | app/services/media_service.py:206-221 | for short reads of any size the chunks are exactly the range for every positive chunk size, nothing for zero, and too much for a negative one |
| MediaStream.StreamFullFile | app/services/media_service.py:192-204 | the chunks are the file |
| MediaStream.ContentRangeIsReadBack | app/services/media_service.py:129-135 | the Content-Range text tells the two ends and the total of its range, and those of no other one |
| MediaStream.SeekableResponse | app/services/media_service.py:110-136 | 200, 206 or 416 by header; Content-Range tells the ends and the total of the range; for a positive chunk size the body is what the header asks for and as long as Content-Length says; what other chunk sizes send is stated too |
| MediaStream.ConsecutiveRangesFit | app/services/media_service.py:206-221 | consecutive ranges from 0, one after the other, are the file up to where they reach |
| MediaStream.ResumingCompletes | app/services/media_service.py:351-362 | the first k bytes and "k-" together are the file |
| MediaStream.SuffixIsTheEnd | app/services/media_service.py:351-356 | asking for the last n bytes gives the last n bytes |
| Aggregation.PutNeverBlocks | app/services/aggregation_service.py:90-97 | in every interleaving a task that is about to put finds room |
| Aggregation.CompletedMeansEachOnce | app/services/aggregation_service.py:112-141 | if "completed" is emitted, the results before it are a permutation of the sources, in the order of the puts, each saved once |
| Aggregation.ResultsAreAnswers | app/services/aggregation_service.py:78-141 | in every run, whatever is saved or emitted for a source is what that source has answered |
| AggregationProgress.StuckStaysStuck | app/services/aggregation_service.py:113-115 | a consumer that waits at an empty queue that nobody will put into emits nothing more in any run, unless it is cancelled |
| AggregationProgress.CompletionIsPossible | app/services/aggregation_service.py:112-141 | from any reachable state some continuation emits "completed" if and only if no task has failed, the consumer has not been stopped, and it is not waiting like that |
| AggregationProgress.CompletionAfterTheFlag | app/services/aggregation_service.py:106-115 | once the flag is set: if and only if all tasks have ended, the consumer has not been stopped, and it is not at `queue.get()` with an empty queue |
| AggregationProgress.SomeStreamsNeverComplete | app/services/aggregation_service.py:112-115 | for every number of sources, a run without any failure after which nothing can emit "completed" |
| AggregationService.StreamAggregate.Stream | app/services/aggregation_service.py:112-141 | the consumer loop in place: on completion the emitted results are the sources, each saved once; completed or not, only what the sources have answered is saved |
| AggregationService.CompletionOrderIsInvisible | app/services/aggregation_service.py:203-227 | the batch response, results and status, is the same for every completion order |
| AggregationService.AggregateRequest.BuildResponsePayload | app/services/aggregation_service.py:169-227 | in place: a row is saved for every source; the response has the answers of the listed sources, sorted, and is partial if and only if one of them is a problem |

## Left out

- Internals of Postgres, Redis, SQLAlchemy and asyncio; SQLite behaviour. Only the rules named above are assumed. A transaction that waits for a row ends its wait at the latest when the holder commits, fails or dies.
- SERIALIZABLE internals: a serializable transaction is modelled as one with a fixed snapshot that can meet a serialization failure at any statement, COMMIT included, for no stated reason; its row of the anomaly matrix is not proved.
- The order in which waiting transactions get a lock, fairness, backoff delays and the exact length of sleeps.
- Anomalies.MatrixIsExact: covers the read-committed and repeatable-read rows only.
- SingleFlight.FactorySucceedsOnce: values written to the same key by other processes are not part of the model.
- SingleFlight.CancellingOneEndsAll: a factory that catches its own cancellation and goes on is not modelled; `_build` does not.
- PaymentReplay.ReplaysAreFaithful: a single final outcome across expiry is not claimed, because a late retry can record a FAILED charge after a SUCCEEDED one.
- PaymentService.PaymentService.ChargeWithIdempotency: the fingerprint is the payload itself, so hash collisions are not modelled; the replay flag is a field of the answer.
- JobQueue.NoDoubleClaim: a worker is identified with its claim, so one worker that claims twice counts as two.
- ByteRanges.ParseRange: numbers are plain decimal digits; the signs, underscores, inner blanks and non-ASCII digits that Python's `int` takes, and its limit on the number of digits, are not modelled.
- MediaStream.StreamByteRange: the file does not change while it is streamed; it may be shorter than it was when the header was parsed.
- AggregationProgress.CompletionIsPossible: says from where a stream can complete, not that it will; scheduling is not fair in the model.
- The claim in app/schemas/consistency.py:11-12 that a quorum write makes stale standby reads impossible: acknowledging is not replaying.
- `updated_at`, ids and other generated columns: versions are identified by their position in the log.
- Remote proxying, address checks, path resolution, MIME types, routes, settings, middleware, stream counters, webhooks and WebSocket broadcasts: foreign calls or plumbing.
- `charge_count_with_replay_bug`: a deliberately racy variant.
