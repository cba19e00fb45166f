# Limit-order lifecycle: a verified model

The repository runs an exchange for signed limit orders. An order is a row in a database. Three
parties change it: the **indexer** applies the settlement contract's events and takes them back
when a chain reorg removes their logs; the **executor** claims open orders, sends transactions
for them and reconciles pending ones with the chain; the **maker** registers cancels. This
project models those parties and the store they share, and proves what holds over every run.

| file | what it models |
|---|---|
| `Orders.dfy` | the order row, the event log, and what one event, or its removal, does to one row |
| `Database.dfy` | the order table, the runtime table and the event table, updated in place |
| `OrderEventService.dfy` | the event service's transactions, proved against `Orders.Apply` and `Orders.Revert` |
| `Reorg.dfy` | runs of the indexer alone, under reorgs |
| `RoundTrips.dfy` | every column of a row when an event is recorded and taken back |
| `Executor.dfy` | readiness checks, reward and deadline arithmetic, receipts, the worker's guarded updates |
| `Lifecycle.dfy` | the whole system, interleaved at transaction granularity |
| `Subscriber.dfy` | cursor-driven replay of the log, with crashes |
| `ScanQueue.dfy` | the order in which the executor visits open orders |
| `Pagination.dfy` | keyset pagination |
| `RouterGraph.dfy` | the router's adjacency index |
| `Words.dfy` | 32-byte word packing and log-data decoding |
| `Amounts.dfy` | printing and parsing token amounts |
| `Options.dfy`, `Listing.dfy` | optional values; ordered listings of finite sets |

## What a status remembers

`Revert` has to rebuild a status from the events that are left and from what the row itself
remembers: its `status_reason` and its transaction hashes. `Reorg.Encodes` says what that
encoding is: the reason of an executed or cancelled row names the class the order came from,
where open, submitting and pending execution are one class (active), and pending cancel and
expired are the other two.

`Reorg.StatusIsFunctionOfLog` shows that the encoding suffices. After any interleaving of applied
and reverted logs the status is the one the live events alone determine. It rests on:

- **faithful logs** (`Reorg.Faithful`): transaction hashes are non-empty, and a removed log is the
  very row stored under its key, because deletion is by key only;
- **hypothesis H**: no OrderExecuted is applied while a NonceInvalidated of the same maker and
  nonce is live. The contract refuses to execute such an order. `Reorg.Rule` also has the weaker
  form, that the order does not stand cancelled, and `Reorg.ExecutionKeepsAgreementExactly` shows
  that this form is exact.

## What the code does not do

Each of these is a lemma with the exact condition, or the whole failing family.

- An OrderExecuted applied to an order already cancelled is recorded but not shown, and when the
  cancel is taken back the order reopens with its execution still live
  (`Reorg.NonceFirstHidesExecution`, `Reorg.HiddenExecutionReopens`, with the exact condition in
  `Reorg.ExecutionKeepsAgreementExactly`).
- Recording a NonceInvalidated and reverting it restores the status of every non-final order it
  alone touched, provided a pending order has its hash. An order cancelled on the chain's word, with
  no event, does not survive the round trip (`Reorg.NonceRoundTrip`, both directions).
- Unwinding the log does not always restore an order's class. From every state in which rows still
  encode their class it does, whatever is removed in whatever order, if and only if the row is rebuilt
  rightly while another execution is left, or has no more than one execution live
  (`Reorg.UnwindsExactly`). Applying an OrderExecuted keeps this if and only if the order does not
  stand cancelled, or has no other execution live, or came from pending cancel
  (`Reorg.ExecutionKeepsUnwindingExactly`); `Reorg.TwoExecutionsLoseOrigin` is one failing run.
- An order created under a nonce that stands invalidated is open under a live cancel, and that is the
  only step that makes a row non-final under one (`Lifecycle.FinalWhileNonceLive`).
- A stored neighbour list is complete if and only if its last writer had listed, or had read, every
  pair of the token (`RouterGraph.IndexedExactly`). A scanner that listed before a new pair was
  merged overwrites the merged list (`RouterGraph.StaleScanLosesPair`), and a merge whose read fails
  keeps its own pair only (`RouterGraph.FailedReadLosesPair`). Every stored neighbour is real all the
  same, and the next scan that is the last to write completes the index (`RouterGraph.ScanCompletes`).
- An order whose payload cannot be read is never stamped as checked. On a fixed table some readable
  order can starve if and only if the unreadable ones fill a batch (`ScanQueue.StarvesExactly`). With
  fewer of them every order is reached (`ScanQueue.EveryOrderIsReached`), protocol cooldown included;
  with a batch of them no order is checked twice (`ScanQueue.CheckedIsNeverVisitedAgain`).
- A reorg can restore `submitting_execute` to an order whose worker has gone. The receipt loop
  reopens it (`Lifecycle.AbandonedClaimReopens`). The loop's branches for a pending order without a
  hash and for a submission that already has one are never taken (`Lifecycle.PendingOrdersKeepEvidence`).

## Model

| member | source | states |
|---|---|---|
| Reorg.StatusIsFunctionOfLog | backend/internal/app/order_event_service.go:51-847 | in every indexer-only run where no OrderExecuted meets a live NonceInvalidated (or, weaker, a cancelled order), an order is executed if an OrderExecuted of it is live, else cancelled if a NonceInvalidated of its maker and nonce is live, else in the class it started from |
| Reorg.UnwindingRestoresOrigin | backend/internal/app/order_event_service.go:388-847 | without that hypothesis, in every run in which no OrderExecuted meets a cancelled order that has another one live (orders from pending cancel excepted): an order none of whose events is left is back in the class it started from, and a final status always has a live event behind it |
| Reorg.UnwindsExactly | backend/internal/app/order_event_service.go:370-847 | from every state in which rows encode their class, every list of removed logs that leaves none of an order's events restores its class if and only if the row is executed, came from pending cancel, is active without a cancel hash, or has at most one execution live |
| Reorg.ExecutionKeepsUnwindingExactly | backend/internal/app/order_event_service.go:51-208 | applying an OrderExecuted leaves its order unwinding if and only if the order does not stand cancelled, or has no other execution live, or came from pending cancel; other orders unwind as before |
| Reorg.TwoExecutionsLoseOrigin | backend/internal/app/order_event_service.go:388-607 | one run of the failing kind from every initial state: a cancelled order with two OrderExecuted logged ends in pending cancel when its log is unwound in the order given, wherever it came from |
| Reorg.ExecutionKeepsAgreementExactly | backend/internal/app/order_event_service.go:98-163 | applying an OrderExecuted keeps status and log in agreement if and only if the order does not stand cancelled, equivalently unless a NonceInvalidated but no OrderExecuted of it is live |
| Reorg.NonceFirstHidesExecution | backend/internal/app/order_event_service.go:98-163 | the failing family: an OrderExecuted on a cancelled order changes no row, and reverting the cancel reopens the order although it is executed |
| Reorg.HiddenExecutionReopens | backend/internal/app/order_event_service.go:51-847 | from every initial state, the run that observes a NonceInvalidated, observes an OrderExecuted of one of its orders and removes the NonceInvalidated ends with a live execution and the order back in its first class |
| Reorg.OpenOrderReopensExecuted | backend/internal/app/order_event_service.go:51-847 | one concrete run of that kind, from a single open order |
| Reorg.NonceRoundTrip | backend/internal/app/order_event_service.go:211-367 | recording a NonceInvalidated and reverting it restores the event table, leaves other makers and nonces alone, and restores the exact status of its own rows if and only if a stated condition on the row holds |
| Reorg.AppliedExecutionEncodes | backend/internal/app/order_event_service.go:1003-1042 | applying an OrderExecuted keeps the row's record of where it came from, and executes the row exactly when it is not cancelled |
| Reorg.AppliedNonceEncodes | backend/internal/app/order_event_service.go:1057-1124 | the same for a NonceInvalidated: an executed row stays executed, every other is cancelled and remembers its class |
| Reorg.RevertedExecutionEncodes | backend/internal/app/order_event_service.go:388-607 | a row rebuilt after one of its OrderExecuted is gone records where it came from if and only if no other is left, or the row is executed, came from pending cancel, or is active without a cancel hash; and it is executed whenever another is left |
| Reorg.RevertedNonceEncodes | backend/internal/app/order_event_service.go:629-847 | the same after a NonceInvalidated is gone, restores from reason and hashes included |
| RoundTrips.CancelAndBack | backend/internal/app/order_event_service.go:211-367 | every column of an order cancelled by its nonce event, and of the order when that event goes: its own status, a pending one only with its hash, the words of that status, and the event's hash for a pending cancel |
| RoundTrips.ExecutionAndBack | backend/internal/app/order_event_service.go:51-208 | the same for an execution: amounts, hash and block are the event's, and only pending cancel and expiry come back, everything else open |
| RoundTrips.ConfirmedCancelAndBack | backend/internal/app/order_event_service.go:1078-1124 | an order cancelled on the chain's word takes its event's hash and block; when the event goes it is pending execution if it has a submitted hash, else pending cancel if it had a cancel hash, else expired if its last block reason says so, else open |
| RoundTrips.ConfirmedExecutionAndBack | backend/internal/app/order_event_service.go:98-163 | an order executed on the chain's word takes its event's hash, amounts and block, and comes back pending cancel if it has a cancel hash, open otherwise |
| RoundTrips.ReceiptThenCancelAndBack | backend/internal/app/order_event_service.go:248-357 | a cancel whose receipt the executor sees before the indexer sees its log: when the log goes, the order is pending cancel with the log's hash |
| RoundTrips.ReceiptThenExecutionAndBack | backend/internal/app/order_event_service.go:98-163 | an execution whose receipt is seen first: when the log goes, the order is open and its amounts cleared |
| RoundTrips.ClosedStaysClosed | backend/internal/app/order_event_service.go:78-163 | a closed order that waits for no event is left alone by every event |
| RoundTrips.ExecutionThenCancelRemoved | backend/internal/app/order_event_service.go:510-607 | where every kind of row comes back to when its execution goes, its nonce event closes it, and that one goes too |
| RoundTrips.LastCancelRemoved | backend/internal/app/order_event_service.go:653-789 | every column of every kind of row that loses its last nonce event: rows closed by it or on the chain's word are put back, any other stays |
| RoundTrips.LastExecutionRemoved | backend/internal/app/order_event_service.go:388-586 | every column of every kind of row that loses its last execution, with no nonce event to fall back to |
| RoundTrips.RemovedLeavesLatest | backend/internal/app/order_event_service.go:370-847 | a removed event leaves its orders with the data of the last event left, by block and log index: an execution before a nonce event |
| OrderEventService.Service.Apply | backend/internal/app/order_event_service.go:51-208 | the transaction equals the specification on the whole store: refused for a missing order, ignored for a duplicate, otherwise the event stored and its order closed or backfilled |
| OrderEventService.Service.ApplyNonceInvalidated | backend/internal/app/order_event_service.go:211-367 | the loop over the orders of one maker and nonce equals cancelling each of them once, and touches no other |
| OrderEventService.Service.Revert | backend/internal/app/order_event_service.go:370-847 | the transaction equals the specification: nothing for an unknown key, otherwise the row deleted and what depended on it rebuilt from the latest rows left |
| OrderEventService.Service.RevertExecuted | backend/internal/app/order_event_service.go:388-628 | which of the six restores an order gets, and that only this order changes |
| OrderEventService.Service.RevertNonceInvalidated | backend/internal/app/order_event_service.go:629-847 | every order of the maker and nonce is rebuilt, each from its own executions and the latest cancel left |
| Database.Database.UpdateFields | backend/internal/repo/order_repo.go:96-142 | the split update of two tables is one override of the flat row; a missing order changes nothing |
| Database.Database.UpdateFieldsIfStatusIn | backend/internal/repo/order_repo.go:145-240 | succeeds exactly when the current status is allowed; then the recombined order is the old one overridden, otherwise both tables stay as they were |
| Database.Database.ClaimOpenOrderForExecution | backend/internal/repo/order_repo.go:243-298 | claims exactly the open orders, and sets status, reasons, check time and an empty submitted hash in one transaction |
| Database.Database.UpdateByOrderID | backend/internal/repo/order_runtime_repo.go:73-120 | updates the runtime row, or creates it with defaults and then updates it |
| Database.Database.Create | backend/internal/repo/order_repo.go:48-63 | splitting a new order over the two tables and reading it back gives the order, with a check time that was not set replaced by its update time, or by the time of creation |
| Database.Database.CreateEvent | backend/internal/repo/order_event_repo.go:26-33 | the unique key on transaction hash and log index refuses a second row |
| Database.Database.DeleteByTxHashAndLogIndex | backend/internal/repo/order_event_repo.go:35-58 | deletes by key alone, and says whether there was a row |
| Database.Database.ListByOrderHash | backend/internal/repo/order_event_repo.go:61-88 | the executions of one order in log order, so that the last one is the latest |
| Database.Database.ListByMakerAndNonce | backend/internal/repo/order_event_repo.go:91-121 | the nonce events of one maker and nonce in log order |
| Database.Database.ListOrdersByMakerAndNonce | backend/internal/repo/order_repo.go:366-396 | exactly the orders that share maker and nonce, each once, as they stand |
| Executor.RewardFitsExactly | backend/worker/executor/worker.go:1414-1425 | a fee is within the floored reward if and only if fee times 10000 is within surplus times bps, and then the maker's minimum is left |
| Executor.PayloadExactly | backend/worker/executor/worker.go:1324-1378 | there is a payload if and only if the four addresses and six numbers are valid and the share is at most 10000, and each field is the number in its own column |
| Executor.SubmissionIsSafe | backend/worker/executor/worker.go:464-613 | every submission leaves the minimum that the maker signed, pays a reward within the signed share of the surplus, and has a deadline after the chain time and no later than the signed expiry or the transaction window |
| Executor.SubmittedExactly | backend/worker/executor/worker.go:258-613 | if and only if, on what the maker signed: a transaction is sent when the order is live, executable, funded, affordable, well signed and in time; its deadline is the latest one allowed |
| Executor.ClosedExactly | backend/worker/executor/worker.go:258-463 | if and only if: which answers of the chain end an evaluation as executed, cancelled, expired or pending |
| Executor.EvaluatedColumns | backend/worker/executor/worker.go:258-746 | every column of a row whose evaluation is over, for each status it can end in |
| Executor.ReasonIsFirstObstacle | backend/worker/executor/worker.go:258-613 | if and only if: the reason that a reopened order gives is the first check that failed, one by one |
| Executor.DelayedExactly | backend/worker/executor/worker.go:1687-1713 | if and only if: an order's next check is put off when the contract said that it is paused or has no executor, and the retry interval has not passed |
| Executor.ClosingReleasesClaim | backend/worker/executor/worker.go:216-746 | every ending of an evaluation names a status other than submitting, and a final one only on the chain's word |
| Executor.Worker.EvaluateOrder | backend/worker/executor/worker.go:216-746 | the whole effect of one evaluation; no leaked claim: whatever others commit in between, a claimed order does not end in submitting_execute; and what it submits keeps to what the maker signed |
| Executor.Worker.CheckPendingReceipt | backend/worker/executor/worker.go:749-1297 | the whole effect of one reconciliation, under the guard of the status it was read with |
| Lifecycle.Provenance | backend/internal/app/order_event_service.go:78-163 | in every reachable state of the whole system an executed row that gives an event as reason carries the hash, amounts and block of a live OrderExecuted of its own, a cancelled one those of a live NonceInvalidated of its maker and nonce |
| Lifecycle.PendingOrdersKeepEvidence | backend/worker/executor/worker.go:749-851 | in every reachable state pending orders have the hash they are tracked by, so the branches for lost hashes and resumed submissions are dead |
| Lifecycle.OnlyRevertReopens | backend/internal/app/order_event_service.go:39-43 | finality: from every reachable state, as long as no log is removed, an executed or cancelled order keeps its status |
| Lifecycle.ExecutedWhileLive | backend/internal/app/order_event_service.go:98-163 | the converse of provenance, whatever workers and users commit: in every run of the whole system in which no OrderExecuted is applied to a cancelled order, an order with a live one is executed; and an OrderExecuted keeps this if and only if it is not applied to a cancelled order |
| Lifecycle.PendingSettlesExactly | backend/worker/executor/worker.go:749-1297 | from every reachable state a pass of the receipt loop touches no other order, nor its own if that has moved on since it was read; otherwise it executes, expires, cancels or reopens it if and only if the chain's answers say so, and every column is given: amounts, hashes, block and words |
| Lifecycle.PendingPassSettles | backend/worker/executor/worker.go:191-214 | an idle worker finds every pending order and settles it so, and reopens an order left in submission |
| Lifecycle.FinalWhileNonceLive | backend/internal/app/order_event_service.go:211-367 | whatever workers and users commit, an order is final while a NonceInvalidated of its maker and nonce is live, in every run in which no order is created under an invalidated nonce; creating one is exactly what breaks this |
| Lifecycle.EvaluationInSteps | backend/worker/executor/worker.go:216-746 | an evaluation cut into a worker's transactions, with any steps of others between them, has the effect of the whole: first write, transaction sent under its own claim, last write on what the others left |
| Lifecycle.EvaluateAsSteps | backend/worker/executor/worker.go:216-746 | the worker's own code, run on the tables those steps meet, leaves the orders that the last step leaves |
| Lifecycle.CancelRegisteredColumns | backend/rpc/internal/logic/cancelorderslogic.go:238-249 | registering a cancel sets status, reason and hash of its own order, and leaves final and other orders alone |
| Lifecycle.ClaimExclusivity | backend/internal/repo/order_repo.go:243-298 | with any number of workers an order is claimed at most once each time it becomes open, every transaction is sent under a claim of its own order that sent no other, and so no order has more transactions than openings |
| Lifecycle.AbandonedClaimReopens | backend/worker/executor/worker.go:749-800 | a claim left behind is reopened by one pass of the receipt loop |
| Subscriber.Subscriber.HandleLog | backend/worker/indexer/subscriber.go:173-226 | apply first, then save the cursor; on any failure the cursor stays; after a handled log its event is in the table if and only if the log was not removed |
| Subscriber.Subscriber.HandleDelivered | backend/worker/indexer/subscriber.go:105-156 | logs handled as they are delivered leave the tables of the run of the event service in which each is observed or removed, in order |
| Subscriber.Subscriber.ApplyEvent | backend/worker/indexer/worker.go:67-134 | removed logs are reverted, duplicates succeed without effect, a missing order is an error |
| Subscriber.ReplayIsRun | backend/worker/indexer/worker.go:67-134 | replaying logs is a run of the event service, so that every theorem about runs holds of the indexed tables |
| Subscriber.SyncedStatus | backend/worker/indexer/subscriber.go:229-302 | however often backfills were interrupted, the status of an order is what the live events of the logs so far determine |
| Subscriber.CursorRoundTrip | backend/internal/repo/cursor_repo.go:51-113 | the position saved is the position read, and -1 where there is no log index |
| Subscriber.SkippedExactly | backend/worker/indexer/subscriber.go:304-317 | of the logs fetched from the cursor's block on, exactly those at or before the cursor are skipped |
| Subscriber.ReplayedAgain | backend/worker/indexer/subscriber.go:173-207 | a log whose effect was committed without its cursor changes nothing when it is handled again |
| Subscriber.Subscriber.BackfillFromCursor | backend/worker/indexer/subscriber.go:264-302 | wherever it is interrupted, the tables hold a prefix of the log applied once in order, with the cursor at most one log behind; if it finishes, nothing up to the latest block is missing |
| Subscriber.Subscriber.BackfillAgainAndAgain | backend/worker/indexer/subscriber.go:229-302 | any sequence of interrupted backfills keeps that, and never goes back |
| ScanQueue.VisitIsEvaluation | backend/worker/executor/worker.go:216-236 | what a visit does to an order's place in the queue is what an evaluation that leaves it open does to its row, cooldown and unreadable payloads included |
| ScanQueue.PageIsLeastRecent | backend/internal/repo/order_repo.go:626-661 | a page holds the least recently checked orders, then the least recently updated, then by number, in that order, as many as fit |
| ScanQueue.CheckedGoesLast | backend/internal/repo/order_repo.go:626-661 | stamping the head of the queue moves it to the end and changes no other place |
| ScanQueue.Scanner.ScanOnce | backend/worker/executor/worker.go:166-189 | a scan visits the first batch of the queue, in order, and changes no other row |
| ScanQueue.ScanRotates | backend/worker/executor/worker.go:166-252 | a scan of orders that are all ready turns the queue by the orders it visits |
| ScanQueue.EveryOrderIsReached | backend/worker/executor/worker.go:166-252 | no starvation: with fewer unreadable orders than a batch holds, any schedule of scans visits every order and checks every readable one, as soon as its scans started after one retry interval, times the batch less the unreadable orders, add up to the number of orders |
| ScanQueue.CheckedIsNeverVisitedAgain | backend/worker/executor/worker.go:216-236 | with as many unreadable orders as a batch holds, an order that a run has checked is visited by no continuation of it |
| ScanQueue.StarvesExactly | backend/worker/executor/worker.go:166-252 | on every fixed table with a readable order: some order can starve if and only if the unreadable ones fill a batch |
| ScanQueue.TwoOrdersStarve | backend/worker/executor/worker.go:216-236 | a concrete table on which a readable order is never visited |
| Pagination.ListByMaker | backend/internal/repo/order_repo.go:456-538 | one request returns the first of exactly the rows with the query's chain, maker, settlement and statuses after the cursor, latest first by the column asked for and then by id: as many as asked for, 20 if nothing was, 100 at most, and fewer only when there are no more |
| Pagination.NextPageContinues | backend/internal/repo/order_repo.go:541-623 | the listing after the last row of a page is the rest of the listing |
| Pagination.FollowCursors | backend/internal/repo/order_repo.go:456-623 | following the cursors terminates, and the pages joined are exactly the table's rows with the query's chain, maker, settlement and statuses, each once, latest first by the column asked for and then by id, for every limit |
| RouterGraph.Worker.SyncOnce | backend/worker/routergraph/worker.go:183-232 | a full sync overwrites the store with the index of the pairs it listed: for each token of a pair a strictly increasing list of exactly the tokens it has a pair with |
| RouterGraph.Worker.ApplyPairEvent | backend/worker/routergraph/worker.go:235-270 | one pair event merges each token into the other's list, reads that fail counting as misses |
| RouterGraph.IncrementalEqualsFull | backend/worker/routergraph/worker.go:378-411 | handling one pair on top of the index of P gives the index of P and that pair |
| RouterGraph.StoredNeighboursAreReal | backend/worker/routergraph/worker.go:183-294 | under any interleaving of scanners and subscribers, with failed reads, every stored list is sorted and every stored neighbour has a pair on chain |
| RouterGraph.IndexedExactly | backend/worker/routergraph/worker.go:183-411 | in every run a stored list is the token's entry in the index of the real pairs if and only if its last writer had listed, or read, every pair of the token; the store is the whole index if and only if that holds of every token |
| RouterGraph.ScanCompletes | backend/worker/routergraph/worker.go:183-232 | once no more pairs are created, any run in which a scanner without an old listing is the last to write every token ends with exactly the index of the real pairs |
| RouterGraph.StaleScanLosesPair | backend/worker/routergraph/worker.go:183-294 | a run in which a merged pair, on chain, is lost to a scanner that listed before it |
| RouterGraph.FailedReadLosesPair | backend/redis/routergraph/repo.go:74-82 | a run in which a failed read makes a merge drop a pair that is on chain |
| Words.WidthIsBitLength | backend/internal/chain/order_signature.go:348-350 | the bit-length test is the bound by a power of 256 |
| Words.PaddedIsWord | backend/internal/chain/order_signature.go:351-351 | minimal bytes padded on the left are the fixed-width word |
| Words.PackNonces | backend/internal/chain/order_signature.go:341-353 | fails on the first nonce that is missing, negative or too wide; otherwise the bytes decode to the nonces, in order |
| Words.EncodeInjective | backend/internal/chain/order_signature.go:341-353 | two lists of uint256 values pack to the same bytes only if they are the same list |
| Words.EncodeDecode | backend/internal/chain/order_signature.go:341-353 | every byte string of whole words is the packing of what it decodes to |
| Words.ExecutedAmountsRecovered | backend/worker/indexer/subscriber.go:346-354 | the decoder at offset 96 recovers gross, recipient and fee amounts from the ABI encoding of the OrderExecuted data (Solidity Contract ABI Specification, section "Formal Specification of the Encoding") |
| Words.AmountsDecodeExactly | backend/worker/indexer/subscriber.go:381-389 | decoding succeeds with given amounts if and only if the data is long enough and holds exactly their words |
| Words.NonceRecovered | backend/worker/indexer/subscriber.go:372-378 | the nonce of a NonceInvalidated is read back, whatever follows it |
| Amounts.SeparatorsUndone | admin-frontend/src/lib/amounts.ts:5-11 | removing the commas gives the digits back |
| Amounts.SeparatorsGroupByThree | admin-frontend/src/lib/amounts.ts:5-11 | the position rule for commas is the same as cutting groups of three from the right |
| Amounts.DisplayedText | admin-frontend/src/lib/amounts.ts:13-49 | the displayed text in terms of the value's own digits: the whole part in groups of three, at most the digits asked for behind the point, and no trailing zero |
| Amounts.PlainExactly | admin-frontend/src/lib/amounts.ts:51-63 | input is read when it is digits with at most one point |
| Amounts.RefusedExactly | admin-frontend/src/lib/amounts.ts:51-63 | if and only if: input is refused when, commas and outer spaces aside, it is empty or not digits with at most one point |
| Amounts.BlankIsRefused | admin-frontend/src/lib/amounts.ts:51-58 | input of commas and spaces only is refused |
| Amounts.UnshownIsZero | admin-frontend/src/lib/amounts.ts:13-49 | no value, no text, or text that is no number is shown as zero |
| Amounts.OuterSpacesIgnored | admin-frontend/src/lib/amounts.ts:51-63 | spaces around the input do not matter |
| Amounts.DisplayReadsBackRoundedDown | admin-frontend/src/lib/amounts.ts:13-63 | for every value, number of decimals and number of displayed digits, parsing the display gives the value rounded down to the digits shown, the value itself when no digit is cut, and is refused for negative values |

## Left out

- Words: nonces are hashed and signed after packing; hashing, signatures and their normal form are library code and not part of this model.
- Database: one chain and one settlement contract; the columns for fee quotes, gas and times other than the last check are not modelled. Transactions are atomic, so the branches that look again after a lost race inside one transaction change nothing here.
- Orders: nonces and other decimal columns are numbers. The store matches nonces as text, so two spellings of one number are different keys there and equal here.
- Orders: the words of `status_reason` are an enumeration. An error's own message and the cut at 255 characters are dropped, and a reason given by the contract is taken to differ from the reserved words. Events that tie on block and log index, which one chain cannot produce, are ordered by hash.
- Subscriber.Subscriber.BackfillFromCursor: assumes a stored cursor. The first backfill without one starts a fixed number of blocks back and can miss older logs; logs sent live while a backfill runs can move the cursor past others.
- Subscriber.Subscriber.HandleLog: the topics of a log and the choice of the event by topic are part of `Body`; only the data words are modelled, in `Words`.
- Executor: chain calls are answers given from outside; the encoding of the transaction and its gas are not modelled. Expiry values from 2^64 and chain times from 2^63 on, which the code truncates, are taken as they are.
- Executor.Worker.EvaluateOrder: database errors are not modelled.
- Lifecycle: a transaction hash is either empty or well formed. The code that registers cancels and creates orders is not part of this model; both are steps of the environment, as backend/README.md:141-163 describes them. The step admits a cancel from every status that is not final, where backend/rpc/internal/logic/cancelorderslogic.go:238-249 registers one from open only, so the results hold of more runs than the code has.
- ScanQueue.EveryOrderIsReached: the set of open orders is fixed: orders that leave it and new ones are not modelled, and the clock moves on before each visit.
- ScanQueue: the queue has its own rows, with the two times it is sorted by; `ScanQueue.VisitIsEvaluation` ties them to the orders.
- Pagination: the text of a cursor is taken as the place it stands for.
- RouterGraph: pair metadata, the sync cursor and expiry of stored lists; addresses are numbers ordered as their lower-case text is.
- Amounts.DisplayReadsBackRoundedDown: formatUnits and parseUnits belong to the viem library and are modelled from its documented behaviour; input with more fraction digits than the token has goes to the library's rounding and has the result `LeftToRounding`.
- The activity log, which is never read back; the RPC and admin servers; the Solidity contracts; the web pages.
