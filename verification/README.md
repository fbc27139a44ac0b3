# Verified model of the Claude job runner

The runner polls a MySQL table for questions that users asked in a chat, runs each one as a job, and writes
the answer back. Jobs may use QuickBooks through tokens the runner hands out, and a command line tool,
`jobctl`, that reads reports and prints tables. This project models the parts of it that are hard to get
right and proves what they promise. `dafny verify dfyconfig.toml` checks everything.

## The parts

**The job queue** (`Messages`, `Queue`, `QueueInvariant`, `QueueTheorems`, `QueueHolders`, `QueueOutcomes`;
`src/store.rs`).
Any number of actors race on one `chat_messages` table. `Queue.Enabled` and `Queue.Apply` are the steps: one
per SQL statement (select the oldest id, conditional update, re-read, the update that records a failure),
three for the transaction that records a success (insert under a shared row lock, update under an exclusive
one, commit), and inserts, deletions of a chat, requeues, failing statements (executed or not) and rolled-back
transactions besides. An actor is one pass of a worker's loop. The theorems are about `QueueTheorems.End`, the
state after any legal sequence of such steps. Claims, outcomes, replies, requeues and failures are recorded in
history fields that no step reads.

**The polling loop** (`Worker`, `WorkerCapacity`, `WorkerRows`, `WorkerShutdown`, `WorkerTermination`,
`WorkerPasses`, `WorkerOutcomes`, `WorkerLife`; `src/worker.rs`). One worker on top of the queue: permits, the set
of spawned tasks with lazy reaping, a workspace per job, the cancellation token, and `select!` as a free choice
among the ready branches. Other workers, the chat application and the HTTP API interleave as `Outside` events.
`WorkerCapacity.QueueRun` shows that each worker run is a run of the queue, so everything proved there holds here.

**The store as its caller sees it** (`Store`, `StoreTheorems`; `src/store.rs`). The class `JobStore` with the
source's methods. Between two statements of `claim_next` other sessions move, as a schedule says. Every statement
of `claim_next` and of `finish` may report a database error, executed or not.

**The token broker** (`Broker`, `BrokerAnswers`, `BrokerProtocol`, `BrokerTheorems`, `BrokerExpiry`, `BrokerSteps`;
`src/qbo.rs`). `Broker.TryAccess` is one call on the locked company row. `BrokerProtocol` interleaves such calls
with the chat application, Intuit (which rotates the refresh token when it accepts it, rejects a token that is not
current, and may answer any request with another error instead), requests that a caller gave up on and that reach
Intuit later or never, reconnections by an admin, and a clock in milliseconds that runs between any two steps.

**Reports, classes and sales** (`Texts`, `Reports`, `ReportOutlines`, `ReportTrees`, `Reps`, `ZeroRows`,
`ZeroRowsTheorems`, `ZeroRowsSections`, `Classes`, `Sorting`, `Ordering`, `Sales`, `SalesTheorems`, `InvoiceOrder`,
`Paging`, `Query`; `crates/jobctl/src/qbo.rs`). Flattening of report payloads, the filter for zero rows, parent
inference and the closure over the class graph, the two stable sorts of customer sales, paging, and query strings
(sections 2.1 and 2.3 of RFC 3986).

**Text formats** (`TableText` for `crates/jobctl/src/sql.rs`, `ArgsParser` and `ArgsItems` for
`crates/jobctl/src/main.rs`).
Each printer or parser has a reader or printer of its own, and is proved to invert it.

## Where code and documentation differ

The model follows the code. The differences are theorems:

- `src/store.rs:179-182` says that each row is handed out exactly once. That is so without requeues
  (`QueueTheorems.ClaimedAtMostOnce`). In general a row is claimed once more than it was reset
  (`ClaimsMatchRequeues`), and whenever a row is requeued during its job a few more steps make two actors work on
  it (`RequeueHandsOutTwice`); even then at most one outcome is recorded (`OneOutcome`).
- Rows are claimed oldest first across workers as long as each new job lies above all rows claimed and about to be
  claimed (`ClaimsIncrease`), and as soon as one does not, a few more steps claim out of order (`LateJobIsOvertaken`).
- `src/worker.rs:79-81` says that no stale `pending` row is left after a shutdown. Of the rows that are not requeued
  during their own jobs, exactly those are left whose last claimant failed (`WorkerShutdown.StoppedIsClean`, and
  `QueueHolders.PendingIffHeldOrLeft` for the table as a whole), as in `FailureLeavesOrphan`; after a run without store
  errors and panics none is left, whatever was requeued. After the cancellation the loop may still claim rows
  (`CancelledMayClaim`).
- `src/qbo.rs:235-237` says that no refresh token is spent twice. Intuit consumes or rejects a token twice exactly when
  it rejects one that it consumed or rejected before (`SpentTwiceIffRejectedAgain`). That takes a rotation that failed
  before its commit or a request that was given up and arrives late (`RejectedOnlyAfterLossOrGiveUp`,
  `DuplicateNextIff`, `GivenUpRequestIsRejected`). A token can also reach Intuit again after an error response without
  a rotation (`src/qbo.rs:371-375`): the row is as before, and the next call sends the same token
  (`RefusedTokenIsSentAgain`). `SentTwiceIff` and `RepeatNextIff` say exactly when a token reaches Intuit twice, and
  without loss, giving up and such errors none does (`SentOnce`). The stored token is current exactly if no rotation
  was lost (`StoredIsCurrentIffNothingLost`); after such a loss every refresh fails until an admin reconnects
  (`LossMakesRefreshFail`).
- `natural` (`crates/jobctl/src/qbo.rs:1346-1351`) is no order on mixed document numbers: "10" < "1a" < "9" < "10".
  `InvoiceConsistentIff` says for which lists the comparison is one, and `InvoiceOrder.SortableIff` which lists of
  invoices can be put in order at all.
- `omit_zero_rows` keeps only the last "Not Specified" row (`RepSumsKept` says when that changes a sum), and drops the
  headers and totals of sections around others: `HeadersKept` and `ReportSectionsKept` say exactly which ones survive.
- Paging by position assumes that the list stands still: `ListIsReadIff` says exactly how far it may move, and
  `EarlierInsertDuplicates` and `EarlierDeleteLoses` what goes wrong otherwise.

## Assumptions

- Each SQL statement is atomic, and a transaction's writes become visible at its commit. `INSERT ... SELECT` holds
  a shared lock on the row it read until then, as MySQL does at its default isolation level.
- Requeues are allowed at any time; theorems about a row that is
  not requeued while somebody works on it, or about runs without requeues, say so.
  `src/main.rs:44-49` requeues only before the worker starts.
- When two transactions share the lock on a row and both want to update it, the database fails one of them.
- The runtime has one thread (`src/main.rs:18`), so a task's permit is back when the set of tasks can reap it.
- The poll interval is positive: a sleep that starts after the cancellation ends by seeing it.
- `sort_by` returns the stable sort. `Sorting.StableSortUnique` shows that there is only one when the comparison
  is consistent, and `SortIsStable` that insertion finds it. For an inconsistent comparison nothing is assumed
  of the source; the model's `Sort` then stands for whatever it returns.
- Decryption inverts encryption and refuses anything else. Intuit's tokens live from the moment they are issued for the
  seconds that `expires_in` and `x_refresh_token_expires_in` give. A broker request is answered within the 20 s HTTP
  timeout or not at all.
- Each rotation issues a refresh token that was never issued before. Intuit drops its current refresh token only by a
  rotation or a reconnection; other error answers change nothing there.
- Amounts are integer cents, letters and white space are ASCII, and integers are unbounded except where a limit
  matters (message ids up to 2^63 - 1, document numbers below 2^64).
- How a number is written, and which texts without commas and outer white space are numbers, are parameters
  (`Reports.Numbers`).

## Model

| member | source | states |
|---|---|---|
| QueueInvariant.InvKept | src/store.rs:183-312 | every step of every actor keeps the whole invariant: known ids, row locks, payloads, reply links, single outcomes, conserved claims |
| QueueTheorems.DoneIffOneReply | src/store.rs:238-269 | in every run a job is done exactly when one reply names it, and then both are in one chat and name each other |
| QueueTheorems.OneOutcome | src/store.rs:222-236 | at most one outcome is ever recorded for a job, also when a requeue makes two tasks hold it, and a row is terminal exactly when it has one |
| QueueTheorems.TerminalForever | src/store.rs:238-312 | a terminal row never changes again, requeues included; it can only be deleted with its chat |
| QueueTheorems.GoneForever | src/store.rs:238-300 | no step brings a deleted row back |
| QueueTheorems.PayloadKeysSurvive | src/store.rs:254-285 | all payload keys but the runner's own three are as the row was inserted with |
| QueueTheorems.ClaimsMatchRequeues | src/store.rs:210-220 | a live row was claimed exactly as often as it was reset, plus once if it is not unclaimed now |
| QueueTheorems.ClaimedAtMostOnce | src/store.rs:179-195 | without a requeue no row is claimed twice, however the statements of the workers interleave |
| QueueTheorems.ClaimsIncrease | src/store.rs:197-208 | without requeues, and when each new job lies above all rows claimed and about to be claimed, the ids claimed by all workers together strictly increase |
| QueueTheorems.LateJobIsOvertaken | src/store.rs:197-208 | whenever a job appears that does not, at most three more steps of the workers make the claims go down |
| QueueTheorems.RequeueHandsOutTwice | src/store.rs:306-312 | whatever is in the table, a requeue while an actor works on a pending row leads to a second actor working on it beside the first |
| QueueHolders.ClaimsAlways | src/store.rs:210-300 | in every run, requeues at any time included, a pending row is being worked on by its last claimant or that one failed |
| QueueHolders.PendingIffClaimOpen | src/store.rs:210-312 | in every run a live row is pending exactly when its last claim was neither reset nor followed by an outcome |
| QueueHolders.HeldAlways | src/store.rs:210-300 | as long as a row is not requeued during its own job, only its last claimant works on it, it is pending meanwhile, and stays so when that one fails |
| QueueHolders.PendingIffHeldOrLeft | src/store.rs:210-312 | unless it was itself requeued during its job, a live row is pending exactly when an actor works on it or its last claimant failed since the last reset |
| QueueHolders.PendingIffHeldOrFailed | src/store.rs:210-300 | without requeues: exactly when an actor works on it or the claimant of one of its claims failed |
| QueueOutcomes.ShownWasReported | src/store.rs:222-300 | in every run, requeues included, the error and partial answer or the reply's text that a finished row shows is what one of its claimants reported |
| QueueOutcomes.ReportIsShown | src/store.rs:210-300 | as long as a row is not requeued during its own job, it shows what its claimant reported once that one is done, unless it failed or the row was deleted |
| WorkerCapacity.QueueRun | src/worker.rs:82-143 | the statements a worker run sends form a run of the queue that ends in the same table |
| WorkerCapacity.Capacity | src/worker.rs:88-122 | in every run free permits, the loop's permit and those of unfinished tasks add up to the limit, and the set of tasks holds at most one more than the limit |
| WorkerRows.FollowsAlways | src/worker.rs:110-178 | in every run each task is as far in the table as its phase says, and a workspace exists exactly while its job runs or is cleaned up, or when it was left behind |
| WorkerRows.UnharmedAlways | src/worker.rs:132-178 | a run without store errors, panics and removal errors leaves no failed actor and no workspace behind |
| WorkerShutdown.PendingMeansRunning | src/worker.rs:1-8 | in every run the rows pending on a worker's account are rows of its active tasks, of the claim about to be spawned, or orphans of its failed actors; each row that was not itself requeued during its job is pending exactly if it is one of these, without requeues all are; without failures no orphans and at most the limit |
| WorkerShutdown.StoppedIsClean | src/worker.rs:76-129 | when `run` returns all permits are back and no task is left; what is still pending on its account are its orphans, each row that was not itself requeued during its job exactly if it is one, without requeues all of them, and the workspaces left are those left behind; none of either after a run without failures, requeues or not |
| WorkerShutdown.CancelledMayClaim | src/worker.rs:97-104 | after the cancellation the acquire branch may still be chosen and a row be claimed |
| WorkerShutdown.FailureLeavesOrphan | src/store.rs:188-191 | when the re-read after a claim fails, the worker can stop with the row still pending |
| WorkerTermination.ShutdownTerminates | src/worker.rs:82-129 | after the cancellation, with no new jobs and no requeue, the worker's own steps are bounded by a budget fixed at that moment |
| WorkerTermination.ShutdownProgress | src/worker.rs:82-129 | in every run a cancelled worker is never stuck: until it has stopped, a step of its own is possible, or of a transaction it waits for, or the database breaks a deadlock over a row, which takes a requeue during the job of that row |
| WorkerTermination.BudgetStep | src/worker.rs:82-129 | each own step lowers the budget, and no step of others raises it |
| WorkerPasses.PassesFollowClaimNext | src/worker.rs:104-124 | in every run a pass chooses the oldest job that waits, tries to claim it, looks again after a lost race until it has tried five times, and spawns a task for the job it has claimed; in all other cases it gives the permit back and sleeps |
| WorkerOutcomes.StatementsCarryOutcomes | src/worker.rs:132-178 | what a task sends to the table is how its run ended before: a reply carries the text of a success, a failure the error and partial answer of a failed run, the error of a workspace that could not be made, or the shutdown's message after that was seen |
| WorkerOutcomes.EndsOnce | src/worker.rs:145-178 | the run of a job ends once |
| WorkerOutcomes.ShownWasRun | src/worker.rs:132-143 | in every run, requeues and other workers included, a finished row shows an outcome that a claimant of it came to, and when the claimant is one of this worker's, how its run ended |
| WorkerOutcomes.OutcomeIsShown | src/worker.rs:132-143 | nothing gets lost: as long as a row is not requeued during its own job it shows how its claimant's run ended once that one is done, unless it failed or the row was deleted |
| WorkerOutcomes.StoppedHasRecorded | src/worker.rs:76-143 | after a run without failures and requeues every row that a stopped worker claimed, and that is still there, shows how its run ended |
| WorkerOutcomes.StopsOnlyWhenCancelled | src/worker.rs:97-129 | before the cancellation the loop does not stop, and no job is aborted |
| WorkerLife.FreeWorkerProcesses | src/worker.rs:88-178 | left alone, a worker with a free slot claims the oldest waiting job, runs it to any outcome and records just that in the table, and slot and workspace are free again |
| Store.JobStore.Insert | src/store.rs:142-152 | a new unclaimed row under the next id, and the error for an id out of range |
| StoreTheorems.InsertIsReadable | src/store.rs:142-177 | a new job is read back unclaimed as it was inserted, is no reply, changes no other reading, and is claimed after the jobs before it |
| Store.JobStore.TryClaim | src/store.rs:210-220 | succeeds exactly on a claimable row, marks it pending and changes nothing else |
| Store.JobStore.ClaimNext | src/store.rs:183-195 | for every schedule of other sessions and faults: the result, the table and the candidates of the retry loop |
| Store.JobStore.FinishDone | src/store.rs:238-269 | for every failing statement, executed or not: the result and the rows, with the rollback |
| Store.JobStore.FinishFailed | src/store.rs:271-300 | status and error for a pending row, `NotPending` and no change for any other, and an error of the statement, executed or not |
| Store.JobStore.Finish | src/store.rs:229-236 | the outcome decides which of the two is recorded |
| Store.JobStore.RequeuePending | src/store.rs:306-312 | exactly the pending rows become unclaimed, and their number is returned |
| StoreTheorems.RequeueReopens | src/store.rs:302-312 | every pending job waits again, and no other row is touched |
| StoreTheorems.JobIsReadable | src/store.rs:154-177 | an agentic message of a user, and nothing else, is read as a job, with the columns and payload keys of its row |
| StoreTheorems.NoneMeans | src/store.rs:183-195 | no job means: at the instant of a select none was unclaimed, or the row this call had just claimed was gone at the re-read, or every attempt lost its race |
| StoreTheorems.EndingOf | src/store.rs:183-195 | how each call ends, told by the tables its selects and updates met, for every schedule and every fault |
| StoreTheorems.FirstFaultIsReported | src/store.rs:183-195 | a call reports a database error exactly when a statement that it gets to fails, and ends at the first such one |
| StoreTheorems.GivingUpMeansProgress | src/store.rs:27 | giving up means five strictly increasing candidates, each the oldest job at its select and claimed by another session, effectively, before its update |
| StoreTheorems.AloneTakesOldest | src/store.rs:183-208 | with nobody else around a call returns a job exactly when an agentic message of a user is unclaimed, namely the oldest one, and marks it pending and nothing else |
| StoreTheorems.FinishSucceedsIff | src/store.rs:222-300 | a job can be finished exactly when its row is pending and, for a success, an id for the reply is in range; which error there is otherwise |
| StoreTheorems.SuccessIsReadable | src/store.rs:238-269 | after a success the job is done and names its reply; the reply is in its chat, has the text and names the job; every other key and row is as before |
| StoreTheorems.FailureIsReadable | src/store.rs:271-300 | after a failure the job has the error and the partial answer, and every other key and row is as before |
| StoreTheorems.FinishIsAllOrNothing | src/store.rs:229-300 | for every failing statement: a database error exactly when the call gets to it, and otherwise what there is without; the outcome is recorded whole or not at all, exactly when it can be and no statement failed or only the response to the last one was lost |
| StoreTheorems.SecondFinishRefused | src/store.rs:222-236 | whoever finishes a job second is refused and changes nothing |
| StoreTheorems.RequeueUndoesClaim | src/store.rs:302-312 | a requeue leaves the table as if a claim before it had not happened |
| StoreTheorems.TransactionIsFinishDone | src/store.rs:238-269 | the queue's three-step transaction does to the table what `FinishDone` does at once |
| StoreTheorems.StepsAreStatements | src/store.rs:183-312 | the other steps of the queue do to the table what the store's statements do |
| Broker.TryAccess | src/qbo.rs:233-326 | the answer, the request sent with its token and credentials, and the new row for every row, clock and response; any failure leaves the row alone |
| BrokerAnswers.AnswersIff | src/qbo.rs:261-306 | when a call answers that QuickBooks is turned off, not connected or expired, or fails to decrypt, each exactly told by the columns of the row, the clock and the time needed |
| BrokerAnswers.CachedIff | src/qbo.rs:285-297 | a call answers with a token of the row exactly while that lasts as long as needed by its record, and then with this token and the realm without outer white space |
| BrokerAnswers.AsksIff | src/qbo.rs:298-310 | a call asks Intuit exactly when the access token does not last and the refresh token lasts for more than 60 s, with the stored token, and with the company's own credentials exactly if both have ten characters |
| BrokerAnswers.LacksCredentialsIff | src/qbo.rs:328-344 | a call fails for want of credentials exactly when it would ask and there are none |
| BrokerAnswers.RefreshReplacesTokens | src/qbo.rs:311-323 | a refresh replaces the tokens and their expiries and nothing else of the row |
| Broker.CachedExactlyWhileCovered | src/qbo.rs:285-297 | after a refresh the next caller gets the stored token exactly while its lifetime covers what is needed |
| BrokerTheorems.TokenInvAlways | src/qbo.rs:233-326 | in every run the stored refresh token is current until it is spent, and stale exactly after a loss |
| BrokerTheorems.StoredIsCurrentIffNothingLost | src/qbo.rs:233-326 | whenever the row is unlocked, the stored refresh token is Intuit's current one exactly if no rotation was lost |
| BrokerTheorems.SpentTwiceIffRejectedAgain | src/qbo.rs:235-240 | Intuit consumes or rejects a refresh token twice exactly in the runs in which it rejects one that it consumed or rejected before |
| BrokerTheorems.DuplicateNextIff | src/qbo.rs:235-240 | the next request can be rejected so exactly when a spent token is still on its way, in the call that holds the lock or in one that was given up |
| BrokerTheorems.RejectedOnlyAfterLossOrGiveUp | src/qbo.rs:305-323 | without a failure between rotation and commit and without giving up on a request, Intuit rejects none and consumes no token twice, whatever other errors it answers |
| BrokerTheorems.SentTwiceIff | src/qbo.rs:371-375 | a refresh token reaches Intuit twice exactly in the runs in which a request arrives whose token Intuit had consumed, rejected, or answered with another error |
| BrokerTheorems.RepeatNextIff | src/qbo.rs:371-375 | the next request can be such a repetition exactly when a token that reached Intuit is on its way again, in the call that holds the lock or in one that was given up |
| BrokerTheorems.SentOnce | src/qbo.rs:235-240 | in runs without a lost rotation, a request given up, or an error other than a rejection, no token reaches Intuit twice |
| BrokerSteps.GivenUpRequestIsRejected | src/qbo.rs:305-308 | with a request given up, a token does reach Intuit twice and is rejected though nothing is lost and the stored token is current |
| BrokerSteps.RefusedTokenIsSentAgain | src/qbo.rs:371-375 | after an error response without a rotation the next refresh sends the same token again, with nothing lost, given up or rejected; it is consumed once and the stored token is current |
| BrokerTheorems.LossMakesRefreshFail | src/qbo.rs:305-323 | after a loss every refresh sends a spent token, which Intuit may reject and can never rotate |
| BrokerExpiry.RecordedExpiryIsClose | src/qbo.rs:308-321 | the recorded expiries of both tokens are later than the true ones by at most 20 s, and earlier by less than a second |
| BrokerExpiry.CachedTokenOutlivesJob | src/main.rs:60-61 | a cached token this broker stored stays valid for more than the requested time less 21 s, so longer than the job's timeout |
| BrokerExpiry.SentTokenIsValid | src/qbo.rs:298-303 | a refresh token this broker stored is, when it sends it, valid at Intuit for more than 40 s, longer than the request can take |
| BrokerExpiry.SentMeansNeeded | src/qbo.rs:285-310 | when a call of this broker asks Intuit, the stored access token does not last for the time needed |
| BrokerExpiry.ExpiredMeansSoon | src/qbo.rs:298-303 | when it answers that the connection has expired, the refresh token that this broker stored is gone at Intuit within 61 s |
| BrokerExpiry.RefreshedTokenLifetime | src/qbo.rs:305-325 | a refreshed token is worth its lifetime less at most the HTTP timeout when it arrives, whatever was requested |
| BrokerExpiry.RefreshedTokenOutlivesJobIff | src/qbo.rs:305-325 | it outlives the job exactly when it was on its way for less time than its lifetime exceeds the job's timeout by; always when it meets the request, never when its lifetime is at most the timeout |
| BrokerExpiry.NoSecondRefresh | src/qbo.rs:233-297 | callers queued behind a refresh send Intuit nothing and leave the row alone while the stored lifetime covers what they need |
| BrokerSteps.StepsAreTryAccess | src/qbo.rs:233-326 | the protocol's steps of a refreshing call, taken in a row, change the row exactly as `TryAccess` does |
| Reports.ParseRows | crates/jobctl/src/qbo.rs:1092-1130 | the recursive descent that pushes to one vector appends exactly the flattened tree |
| ReportOutlines.ReportIsRead | crates/jobctl/src/qbo.rs:1075-1130 | whatever payload is sent for a report (names, ids and amounts as text or numbers, with commas and white space, single elements for lists, headers that are missing or have no name), its rows are those of its outline, and the sum over data rows is the sum of the outline's own amounts |
| ReportOutlines.EveryReportRenders | crates/jobctl/src/qbo.rs:1075-1130 | every JSON value is the payload of an outline, so this is about all payloads |
| ReportOutlines.ReportTotalIs | crates/jobctl/src/qbo.rs:1058-1068 | the report's total is the amount of its last grand total |
| ReportOutlines.NoReportTotal | crates/jobctl/src/qbo.rs:1058-1068 | and there is none without a grand total |
| ReportOutlines.NotSpecifiedIff | crates/jobctl/src/qbo.rs:1042-1044 | a "Not Specified" row is told by its name without regard to case and outer white space |
| ReportTrees.RebuildInverts | crates/jobctl/src/qbo.rs:1092-1130 | from the rows of any forest of named leaves and sections the forest can be rebuilt, whatever rows follow |
| ReportTrees.ReportReadsBack | crates/jobctl/src/qbo.rs:1058-1073 | a whole report reads back from every payload for it, with its grand total as the report's total |
| ReportTrees.ForestIsSent | crates/jobctl/src/qbo.rs:1092-1130 | and every forest with names has such a payload |
| ZeroRows.OmitZeroRows | crates/jobctl/src/qbo.rs:1134-1172 | the index loop with its inner loop computes the chunk-wise filter |
| ZeroRowsTheorems.OrdinaryRowsKept | crates/jobctl/src/qbo.rs:1134-1172 | every non-zero data row not called "Not Specified" is kept exactly once, in order |
| ZeroRowsTheorems.OnlyHeadersMayBeZero | crates/jobctl/src/qbo.rs:1132-1172 | no zero row is left except section headers and the grand total |
| ZeroRowsTheorems.SpecialRowsAtEnd | crates/jobctl/src/qbo.rs:1134-1172 | the other rows that are left stand as they stood, in order and none twice; then come the last "Not Specified" row if it is not zero and the last grand total |
| ZeroRowsTheorems.TidyStays | crates/jobctl/src/qbo.rs:1147-1166 | rows in which every header has data and every total closes a section pass unchanged |
| ZeroRowsSections.HeadersKept | crates/jobctl/src/qbo.rs:1147-1168 | in every list of rows a header survives exactly when an ordinary row of its own comes before its chunk ends, and a total exactly when it is not zero and ends the chunk of such a header |
| ZeroRowsSections.SectionsOfOmit | crates/jobctl/src/qbo.rs:1134-1172 | the same for the whole filter |
| ZeroRowsSections.UnchangedIffTidy | crates/jobctl/src/qbo.rs:1134-1172 | the filter leaves a list alone exactly when it is tidy up to the special rows at its end |
| ZeroRowsSections.BodyUnchangedIffTidy | crates/jobctl/src/qbo.rs:1141-1168 | and its loop, exactly when the whole list is tidy |
| ZeroRowsSections.ReportSectionsKept | crates/jobctl/src/qbo.rs:1092-1172 | in every payload for a report a header survives exactly when a leaf with an amount comes before the first inner section or "Not Specified" row, and a total when, besides, there is no such child and it is not zero |
| ZeroRowsSections.NestedSectionLosesOuter | crates/jobctl/src/qbo.rs:1092-1168 | in the filtered rows of any report, a top section with an inner section has lost its total, and one that begins with an inner section its header too, while what is kept of its neighbours and children is unaffected |
| ZeroRowsTheorems.RepSumsKept | crates/jobctl/src/qbo.rs:1195-1201 | a rep's sum stays the same exactly unless the rep is called "not specified" and the other such rows add up to something |
| ZeroRowsTheorems.SumAddsRow | crates/jobctl/src/qbo.rs:1195-1201 | a rep's sum adds up the amounts of exactly the data rows that match the rep |
| ZeroRowsTheorems.OmitTwice | crates/jobctl/src/qbo.rs:1134-1172 | filtering twice is filtering once |
| Reps.MatchesIff | crates/jobctl/src/qbo.rs:1176-1187 | a row belongs to a rep exactly when, without regard to case and outer white space, it is the rep's name or first word of three characters or more, or that with a slash and anything behind |
| Reps.NotSpecifiedIsNobody | crates/jobctl/src/qbo.rs:1176-1187 | a "Not Specified" row counts only for a rep of that very name |
| Classes.ResolveTwice | crates/jobctl/src/qbo.rs:974-993 | resolving is idempotent, changes nothing but parents, and no explicit parent |
| Classes.ParentIsInferred | crates/jobctl/src/qbo.rs:974-993 | a missing parent becomes the last class named like the part before the last colon, unless that is the class itself |
| Classes.InferredParentIsNamed | crates/jobctl/src/qbo.rs:982-987 | and is inferred in no other way |
| Classes.InferredParentIsShorter | crates/jobctl/src/qbo.rs:981-988 | an inferred parent is another class with a strictly shorter normalised name |
| Classes.ClassIdsForRep | crates/jobctl/src/qbo.rs:1205-1238 | ends for every parent graph with the least set that holds the direct matches and is closed under children, the matches first and every other class behind a parent of it, without duplicates for unique ids |
| Classes.DirectIff | crates/jobctl/src/qbo.rs:1209-1218 | a class matches by its name, its qualified name, or what is behind the last colon of that |
| Classes.LeastIsUnique | crates/jobctl/src/qbo.rs:1205-1238 | that set is unique |
| Classes.LeastIffChain | crates/jobctl/src/qbo.rs:1205-1238 | for every parent graph, cycles included, a class is in it exactly when a chain of parents leads from it to a match |
| Classes.ResolvedIsForest | crates/jobctl/src/qbo.rs:974-993 | a class list without explicit parents resolves to a forest |
| Classes.RepClassesAreDescendants | crates/jobctl/src/qbo.rs:1203-1238 | there, a class belongs to a rep exactly if it or an ancestor matches |
| Sorting.SortIsStable | crates/jobctl/src/qbo.rs:1275-1279 | insertion gives a stable sort for every consistent comparison |
| Sorting.StableSortUnique | crates/jobctl/src/qbo.rs:1275-1279 | two stable sorts of one list are equal |
| Sorting.SortTwice | crates/jobctl/src/qbo.rs:1294-1343 | a stable sort of a sorted list is sorted by both comparisons, the last one first |
| Ordering.NaturalTransitiveUnless | crates/jobctl/src/qbo.rs:1346-1351 | the document number comparison fails to be transitive only around a text between two numbers |
| Ordering.ParseU64Iff | crates/jobctl/src/qbo.rs:1346-1348 | a document number is the number whose decimal it is, with zeros or a plus sign in front perhaps, exactly below 2^64 |
| Ordering.DocumentNumbersInACircle | crates/jobctl/src/qbo.rs:1345-1351 | "10" < "1a" < "9" < "10" |
| Sales.CustomerSalesRows | crates/jobctl/src/qbo.rs:1260-1281 | the non-zero data rows, stably sorted by amount and name |
| Sales.AttachInvoices | crates/jobctl/src/qbo.rs:1294-1343 | every customer with its sorted invoices, stably sorted by first date and name |
| Sales.InvoiceConsistentIff | crates/jobctl/src/qbo.rs:1321-1330 | the invoice comparison is consistent exactly for the lists without three invoices of one day in a circle |
| Sales.UniformDocsConsistent | crates/jobctl/src/qbo.rs:1346-1351 | so it is when the document numbers all parse or all do not |
| SalesTheorems.CustomerIffNonZeroData | crates/jobctl/src/qbo.rs:1260-1274 | a row gives a customer, with its name, amount and id, exactly when it is a data row with an amount other than zero |
| SalesTheorems.CustomersInOrder | crates/jobctl/src/qbo.rs:1258-1343 | after both functions the customers are a permutation of the report's, each before the other by the date of its first invoice, none last, then by name, then by falling amount |
| SalesTheorems.InvoicesInOrder | crates/jobctl/src/qbo.rs:1294-1334 | a customer's invoices are a stable sort of exactly the matching ones, by date, missing ones last, and then by document number, two numbers by value and others as text |
| SalesTheorems.InvoiceAttachedIffMatching | crates/jobctl/src/qbo.rs:1299-1320 | an invoice is attached once if it matches and not otherwise, wherever it stands |
| SalesTheorems.MatchesIff | crates/jobctl/src/qbo.rs:1299-1308 | it matches exactly by the customer's id, or by its name without regard to case and outer white space |
| SalesTheorems.AttachedIff | crates/jobctl/src/qbo.rs:1311-1319 | each attached value is that of the field of its name |
| InvoiceOrder.SortableIff | crates/jobctl/src/qbo.rs:1321-1330 | a list of invoices can be put in order exactly when it has no circle of two numbers of different values and a text between them |
| Paging.InvoicesBetween | crates/jobctl/src/qbo.rs:520-539 | the pages joined up to the first short one or the limit, the first error instead, and the number of requests |
| Paging.ListIsReadIff | crates/jobctl/src/qbo.rs:520-539 | the first 10000 of a list are returned, once and in order, exactly when each request that takes is answered with the page the list has there, in min(10, N/1000 + 1) requests |
| Paging.FixedListIsRead | crates/jobctl/src/qbo.rs:520-539 | so it is when the list stands still |
| Paging.AppendedListIsRead | crates/jobctl/src/qbo.rs:520-539 | and when it only grows at the end, behind the page being read |
| Paging.ErrorIsReported | crates/jobctl/src/qbo.rs:522-531 | a failing request decides the result exactly if the list is long enough for it to be made |
| Paging.EarlierInsertDuplicates | crates/jobctl/src/qbo.rs:522-531 | an invoice inserted in front between two requests makes the one at the seam come twice |
| Paging.EarlierDeleteLoses | crates/jobctl/src/qbo.rs:522-531 | a deletion in front loses the one at the seam |
| Query.PercentEncode | crates/jobctl/src/qbo.rs:812-825 | the loop computes the byte-wise encoding |
| Query.DecodeEncode | crates/jobctl/src/qbo.rs:812-825 | decoding by section 2.1 of RFC 3986 gives the bytes back |
| Query.EncodeIff | crates/jobctl/src/qbo.rs:812-825 | the encoding is the one text that decodes to the bytes and is normalised: unreserved characters as they are, and upper-case digits |
| Query.EncodedIsClean | crates/jobctl/src/qbo.rs:812-825 | the encoding has only unreserved characters and percent signs |
| Query.BuildUrl | crates/jobctl/src/qbo.rs:407-413 | the loop over the parameters writes base, path and query |
| Query.QueryRoundTrip | crates/jobctl/src/qbo.rs:407-413 | splitting any built query on `&` and `=` and decoding gives the pairs in order, then the minor version |
| Query.QueryIsInjective | crates/jobctl/src/qbo.rs:407-413 | different parameters give different queries |
| Query.QueryHasNoDelimiters | crates/jobctl/src/qbo.rs:407-413 | no value can end the query early |
| TableText.FormatTable | crates/jobctl/src/sql.rs:40-59 | the loop joins the header and row lines |
| TableText.EscapeIsOnePass | crates/jobctl/src/sql.rs:71-76 | the three chained replacements equal escaping each character on its own |
| TableText.EscapeReadsBack | crates/jobctl/src/sql.rs:71-76 | an escaped value reads back and has no tab or newline |
| TableText.TableRoundTrip | crates/jobctl/src/sql.rs:39-59 | header and cells come back, nulls as NULL, exactly when there is a column and no row is empty |
| TableText.NullIsAmbiguous | crates/jobctl/src/sql.rs:52-54 | a null and the text NULL print the same |
| TableText.Truncate | crates/jobctl/src/sql.rs:63-69 | a text within the limit is unchanged; of a longer one the lines before the cut stay whole, the line at the cut keeps its beginning, and a marker line follows |
| TableText.TruncatedLines | crates/jobctl/src/sql.rs:61-69 | lines before the cut stay whole, the line at the cut keeps its beginning, the marker is a line of its own |
| TableText.TruncatedTableReads | crates/jobctl/src/sql.rs:36-69 | every complete line before a cut still reads back as its row |
| ArgsParser.Parse | crates/jobctl/src/main.rs:386-418 | the iterator loop computes the recursive reading, errors included |
| ArgsItems.ParsedIff | crates/jobctl/src/main.rs:386-418 | a line is parsed exactly when it is a mixture, in any order, of options in both forms, flags and words, and perhaps `--` and a tail; the result has the last value of each option, the flags, and the words in order followed by the tail |
| ArgsItems.RefusedIff | crates/jobctl/src/main.rs:400-416 | it is refused exactly when such a mixture is followed by an unknown option, a flag with a value, or at its end an option without its value, and with the error that names this argument |
| ArgsParser.ParseRender | crates/jobctl/src/main.rs:375-418 | values as `--name=value`, flags, `--` and positionals are read as given, for arbitrary strings |
| ArgsParser.ParseRenderParse | crates/jobctl/src/main.rs:386-418 | every rendering of a parse result, in any order and with repetitions, parses to it again |
| ArgsParser.RenderingExists | crates/jobctl/src/main.rs:386-418 | and there is always one |
| ArgsParser.RewritingChangesNothing | crates/jobctl/src/main.rs:375-411 | rewriting any of the `--name value` pairs as `--name=value` changes neither result nor error |

## Left out

- QueueTheorems.ClaimsIncrease: asks that new jobs appear above the rows claimed and about to be claimed; MySQL hands out ids in order, but two open transactions may commit the other way round.
- QueueHolders.PendingIffHeldOrLeft: asks that the row itself is not requeued during its job, when another task may settle or claim the row of a failed one; `ClaimsAlways` and `PendingIffClaimOpen` hold in every run.
- WorkerOutcomes.OutcomeIsShown: asks that the row is not requeued during its own job, when another task may record its outcome first; `ShownWasRun` holds in every run.
- BrokerExpiry.CachedTokenOutlivesJob: says nothing about a token on the refresh path, where the code does not compare `expires_in` with what is needed; `RefreshedTokenOutlivesJobIff` is what holds there.
- ReportTrees.RebuildInverts: speaks of forests whose leaves, headers and totals have names, since others leave no row to rebuild from; `ReportOutlines.ReportIsRead` is about all payloads.
- SalesTheorems.InvoicesInOrder: asks that the comparison is consistent for the customer's invoices; otherwise `sort_by` promises no order and may even panic.
- Errors of the statements of `insert`, of `get` on its own and of `requeue_pending` are passed on as they are, and not modelled.
- A text that happens to end in the truncation marker cannot be told from a cut one.
- The polling loop and the broker protocol are step systems on values, not classes: their state is shared by concurrent tasks, sessions and Intuit, and the theorems are about all interleavings.
- The table of the queue and of `JobStore` is a map from ids to rows; the rows are values, and no two of them are aliases.
- The requester of a job (`chats.user_id`, `chats.company_id`) and invalid `status` texts are not modelled; a re-read that fails for either reason is a failing statement.
- Payloads are absent or objects; MySQL's `JSON_SET` on other JSON values is not modelled.
- The broker protocol follows one company's row; other companies have rows and tokens of their own.
- Floating-point rounding, negative zero and NaN in amounts; Unicode case folding and white space; overflow of 64-bit times.
- `query` around the table printer ("(no rows)", lossy decoding of bytes) and all other `jobctl` commands.
- `src/claude.rs`, `src/http.rs`, `src/config.rs`, `src/workspace.rs`, `crates/jobctl/src/api.rs`, `crates/jobctl/src/chats.rs`, `crates/jobctl/src/db.rs` and `crates/jobctl-mcp`: processes, files, network and environment; a job's run is a free choice of outcome.
- AES-GCM, base64, TLS, HTTP, SQL and JSON parsing themselves.
