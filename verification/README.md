# Executors of ETH transfers, modelled and verified

The repository runs lists of signed value transfers through several executors and compares them. Every
executor keeps accounts of a nonce and a balance, and a transfer applies when its signature, nonce and
balance check out. This project models those executors in Dafny and proves how each of them relates to one
plain reference, `Ledger.SeqRun`: run the transactions one by one in list order, skipping and counting those
that do not apply.

## What is modelled

**The Block-STM engine** (`block-stm-executor`). Transactions execute speculatively against a multi-version
map; a write reports the later transactions that had registered a read of what it replaces, the scheduler
sends those back, and a frontier commits executed transactions in index order.

- `MVHashMap.dfy`, `Scheduler.dfy` and `Execution.dfy` give each operation twice: as a function on values, and
  as a method of a class that changes its fields, proved equal to the function. The lemmas are about the
  functions.
- `Engine.dfy`, `EngineRuns.dfy` and `EngineFair.dfy` use *method steps*: any number of workers, with fetching,
  executing and reporting as separate steps that interleave in any way. What holds of all interleavings is about
  work: the bound of 2^i executions, the end of every interleaving and of every fair schedule (a worker that finds
  the queue empty changes nothing but possibly the end flag, `EngineRuns.IdlePolling`), no lost work, the counters.
  `EngineCounts.dfy` has a block on which the success counter is too high, and the workloads on which it is right.
- `BlockStm.dfy`, `Freshness.dfy` and `Serializability.dfy` use *atomic steps*: take any queue entry, execute it,
  report back, all in one step. That is the case in which executions do not overlap; every run of atomic steps is
  an interleaving of method steps (`EngineRuns.AtomicIsInterleaving`), but not the other way round.
- `Overlap.dfy` is the case in which they do.

The engine's documentation promises strict ordering (block-stm-executor/src/lib.rs:5-6,
src/executor/block_stm.rs:101-103). The code does not keep that promise on every run, and it fails in two ways. Both
show on blocks the workload generator makes, with all signatures valid and two workers that always take the front
of the queue:

- Writing a version again replaces it together with the readers registered on it, and nobody tells those readers
  (block-stm-executor/src/mvhashmap.rs:147-155). `StaleRead.StaleWithTwoWorkers` executes three transfers in the
  order 1, 2, 0, 1 and ends with a balance that is too low by one. No executions need overlap for that:
  `StaleRead.StaleState` is the same run in atomic steps.
- A transaction that is sent back while it is executing is queued again, but its worker goes on and reports it as
  executed (block-stm-executor/src/scheduler.rs:107 and 127-143). `Overtaken.MissingTransfer` commits such a
  transaction before its second execution has reported whom to send back, and ends without one of three transfers,
  though it reports three successes. No version holder is ever executed again, and nobody on the block both sends
  and receives. In the same run a committed status becomes executing again and ends as executed
  (`Overtaken.CommitUndone`).

A transaction is *up to date* when executing it again would change nothing. The conditions under which the promise
is kept are exact, and speak about the state before the step:

- `Freshness.StepStaysFresh`: an atomic step leaves all finished transactions up to date if and only if the
  transaction it takes passes its checks and its writes make no difference to any finished transaction that is not
  registered with it, or it fails its checks and holds no version.
- `Overlap.StepStaysSound`: with overlapping executions, call a state sound when every transaction is in one place
  (in the queue, with a worker, or finished, and committed exactly below the frontier) and everybody executed whom no
  pending report sends back is up to date. A step keeps that if and only if it is a fetch; or an execution as above,
  where those who are about to be sent back may be ignored; or a report that sends no executing transaction back.
- `Serializability.RunStaysFresh` and `Overlap.InterleavingStaysSound` lift the equivalences to runs,
  `Serializability.UpToDateIsInOrder` says that being up to date everywhere is the same as the map being the in-order
  run, and `Serializability.Serializable` and `Overlap.OverlapSerializable` conclude: runs of such steps in which
  everything is committed end in the state of the reference run.
- A simpler sufficient condition is that no step executes a version holder again, together with, for overlapping
  executions, that no report sends an executing transaction back (`Serializability.NoHolderAgainIsSafe`,
  `Overlap.CalmRunsAreSound`). None of this needs sender and receiver to differ.
- `Overlap.StepKeepsCommits` says which steps keep commits; as long as no report has sent an executing transaction
  back, all do (`Overlap.CalmRunsKeepCommits`), and so do atomic steps.

`DisjointParties.dfy` gives a family of blocks on which every order of atomic steps works, `OneWorker.dfy` runs the
engine's own loops with one worker, on every block, and `RunHistory.dfy` proves the scheduler's state machine over
runs of atomic steps.

**The FoundationDB executor** (`src/executor/fdb.rs`). Threads own contiguous slices of the list and attempt the
head of their slice, one atomic database transaction per attempt, until it succeeds. `Effects.dfy` describes what
a *set* of applied transfers does to the accounts; because transfers commute in that sense,
`FdbThreads.Confluence` holds for any slices, any interleavings and even for self-transfers. `FdbProgress.dfy`
proves that threads cannot get stuck on workloads with disciplined nonces and sufficient balances, and
`FdbFair.dfy` that fair schedules finish them. `FdbStore.dfy` and `FdbExecutor.dfy` are the executor over its
byte-level key-value store.

Two statements in the repository are narrower in the code than in its documentation:

- Loose ordering promises that one sender's transactions are never reordered (src/executor/mod.rs:51-56). They
  are applied by increasing nonce (`FdbOrder.SenderInNonceOrder`), so a complete run keeps the list order of a
  sender's transfers if and only if their nonces increase along the list (`FdbLoose.LooseOrderExactly`, for a
  sender that sends to others only and whose nonce cannot wrap around). `FdbLoose.Reordered` is a run of two
  threads that reorders a sender and ends with other accounts than the in-order run.
- Clearing the database removes the keys from `account/` up to but not including `account/` followed by the
  byte 0xff (src/executor/fdb.rs:106-109). An account survives exactly when its digest starts with 0xff
  (`FdbStore.ClearLeaves`). `FdbStore.LeftoversUntouched` and `FdbStore.LeftoversMatter` say whom that affects.

**The MDBX executors** (`src/executor/mdbx.rs`, `src/executor/mdbx_batched.rs`), as loops over stored accounts,
and over a cache that is written back once a block. Both are proved equal to `SeqRun`.

**The workload generator** (`Workload::generate`), whose nonces are what the theorems on success and progress
ask for.

Integers wrap as in an optimised build: nonces modulo 2^64, balances modulo 2^256. Where a theorem needs that
nothing wraps, it says so or proves it.

## Model

| member | source | states |
|---|---|---|
| Ledger.SeqRunAppend | src/executor/mdbx.rs:170-225 | the in-order run may be cut anywhere: the rest continues from the accounts the first part left, and the counts add up |
| Ledger.SeqRunCounts | src/executor/mdbx.rs:227 | every transaction is counted exactly once, as a success or as a failure |
| Ledger.WrongSignerFails | src/lib.rs:172-187 | with signatures checked, a transaction whose recovered signer is missing or is not its sender fails and moves nothing |
| Ledger.RightSignerPasses | src/lib.rs:172-187 | one that recovers to its sender runs as without the check, and without the check signers make no difference |
| Ledger.SenderRuleMatters | src/executor/mdbx.rs:180-186 | treating a missing sender as a failure or as an empty account makes a difference for one kind of transaction only: an accepted zero-value transfer with nonce 0 from an unknown account |
| Ledger.SenderRuleIrrelevant | block-stm-executor/src/executor.rs:306-318 | when every accepted transaction's sender starts with an account the two treatments give the same run |
| Ledger.TransferConserves | src/executor/mdbx.rs:200-220 | a transfer keeps the total balance if and only if it is not a self-transfer of a positive amount; if it is none, the receiver's balance cannot overflow |
| Ledger.TransferCountsNonce | src/executor/mdbx.rs:200-220 | a transfer raises the sum of nonces by one if and only if it is not a self-transfer and the nonce does not wrap around |
| Ledger.SeqRunConserves | src/executor/mdbx.rs:170-225 | without self-transfers a whole run keeps the total balance |
| Ledger.SeqRunCountsNonces | src/executor/mdbx.rs:170-225 | without self-transfers, and with nonces below 2^64 - 1, a run raises the sum of nonces by exactly the number of successes |
| Ledger.SeqRunNeverOverflows | src/executor/mdbx.rs:209 | in a run without self-transfers no credit ever passes 2^256 - 1 |
| MultiVersion.MVHashMap.Read | block-stm-executor/src/mvhashmap.rs:71-97 | a read returns the version of the greatest index below the reader, or defers to storage |
| MultiVersion.MVHashMap.Write | block-stm-executor/src/mvhashmap.rs:102-173 | the new map, and the list of the registered readers above the writer taken from the newest lower version, or from storage readers when there is none |
| MultiVersion.MVHashMap.RecordRead | block-stm-executor/src/mvhashmap.rs:179-190 | registers the reader once on the entry it read, if that entry still has that version |
| MultiVersion.MVHashMap.GetCommittedStates | block-stm-executor/src/mvhashmap.rs:209-220 | the newest state of every written address, whatever order the addresses are visited in |
| MultiVersion.WriteRedirects | block-stm-executor/src/mvhashmap.rs:71-173 | a write at index i changes what readers above i with no version in between see, and nobody else's reads or registrations |
| MultiVersion.WriteLosesExactly | block-stm-executor/src/mvhashmap.rs:147-155 | a write takes a registered reader's registration away without reporting it if and only if the reader was registered on the replaced entry and not one version further down; a first write never does |
| MultiVersion.FirstWriteReportsAll | block-stm-executor/src/mvhashmap.rs:102-173 | when i first writes an address every registered reader whose read changes is in the returned list; everybody in the list is above i and had registered a read of that address |
| MultiVersion.CommittedIsReadAtEnd | block-stm-executor/src/mvhashmap.rs:209-220 | the collected states are what a reader past the last transaction would read, for exactly the written addresses |
| MultiVersion.ReadRefinesLog | block-stm-executor/src/mvhashmap.rs:71-97 | after any sequence of writes and recordings a read at i returns the last write in the log by the greatest index below i |
| MultiVersion.HistoryRefinesLog | block-stm-executor/src/mvhashmap.rs:147-155 | the map holds, per address and transaction, exactly the last such write of the log |
| MultiVersion.ReadersRefineLog | block-stm-executor/src/mvhashmap.rs:179-190 | after any sequence of writes and recordings a version's readers are exactly those whose read of that very version was recorded since it was last written, each once |
| MultiVersion.StorageReadersRefineLog | block-stm-executor/src/mvhashmap.rs:194-199 | a storage reader is registered as often as its reads were recorded |
| MultiVersion.AboveSplits | block-stm-executor/src/mvhashmap.rs:116-145 | a write's list takes the readers above the writer in the order and as often as they registered |
| Scheduling.Scheduler.constructor | block-stm-executor/src/scheduler.rs:46-65 | every transaction starts pending and is queued once, in order, with incarnation 0 |
| Scheduling.Scheduler.GetTask | block-stm-executor/src/scheduler.rs:68-97 | hands out the front of the queue and marks it executing, or says wait, or done |
| Scheduling.FrontIsHandedOut | block-stm-executor/src/scheduler.rs:68-97 | what is handed out is the front of the queue, its transaction is marked executing with that incarnation, and the rest of the queue and all other statuses stay as they were |
| Scheduling.Scheduler.FinishExecution | block-stm-executor/src/scheduler.rs:100-124 | marks the transaction executed, sends the listed ones back, then moves the frontier |
| Scheduling.Scheduler.AbortTransaction | block-stm-executor/src/scheduler.rs:127-143 | an executing or executed transaction becomes pending and is queued with the next incarnation; any other stays as it is |
| Scheduling.Scheduler.TryCommitTransactions | block-stm-executor/src/scheduler.rs:146-175 | the frontier commits the maximal executed stretch, and sets the end flag when it reaches the end |
| Scheduling.AbortAll | block-stm-executor/src/scheduler.rs:114-117 | a list resets exactly its executing or executed members, and adds exactly one queue entry for each of them, with the next incarnation |
| Scheduling.AbortAllInOrder | block-stm-executor/src/scheduler.rs:114-137 | their entries stand behind the whole old queue, in the order in which the list first names them |
| Scheduling.FinishQueuesInOrder | block-stm-executor/src/scheduler.rs:100-143 | finishing leaves the old queue as it was and adds exactly one entry per sent-back transaction behind it, in list order, with the next incarnation |
| Scheduling.TryCommit | block-stm-executor/src/scheduler.rs:146-175 | exactly the executed transactions from the old frontier to the new one become committed, and the new frontier is not executed |
| Execution.ReadAccount | block-stm-executor/src/executor.rs:289-320 | returns what the reader sees of the account and registers the reader where it saw it |
| Execution.RegistersExactly | block-stm-executor/src/executor.rs:295-304 | reading registers the reader with exactly those who see the entry it read, version or storage, and nobody else anywhere |
| Execution.ExecuteTransaction | block-stm-executor/src/executor.rs:226-286 | the new map and the outcome of one speculative execution, for every branch of the checks |
| Execution.OutcomeExactly | block-stm-executor/src/executor.rs:234-253 | an execution fails for good exactly if signatures are checked and the recovered signer is not the sender, and else succeeds exactly if the seen nonce matches and the seen balance suffices |
| Execution.UnknownIsEmpty | block-stm-executor/src/executor.rs:301-311 | an account that is neither funded nor written below the reader is read as nonce 0 and balance 0 |
| Execution.SuccessfulEffect | block-stm-executor/src/executor.rs:226-286 | after a success of i, exactly the readers above i with no version in between see i's new accounts and lose their registration; all others see and keep what they had, also when both accounts are the same |
| Execution.SuccessfulReports | block-stm-executor/src/executor.rs:268-279 | whoever is redirected from another version than the replaced one and was registered is in the invalidation list |
| Execution.SuccessfulVersions | block-stm-executor/src/executor.rs:262-279 | a success leaves at both accounts a version of that transaction and incarnation, without readers, and no other version is touched |
| Execution.UnsuccessfulEffect | block-stm-executor/src/executor.rs:236-253 | a rejected or failing execution changes no version, and a failing one is registered at the sender's account |
| Execution.InvalidatedShape | block-stm-executor/src/executor.rs:281-285 | an invalidation list has no duplicates, only indices above the writer, and no badly signed transaction |
| Execution.ExecuteWellFormed | block-stm-executor/src/executor.rs:226-286 | executions only ever leave versions and registrations of accepted transactions at their own two accounts, with versions at both or at neither |
| BlockStm.FinishKeepsScheduler | block-stm-executor/src/scheduler.rs:100-175 | finishing any queued transaction keeps one queue entry per pending transaction and no others, keeps the committed set the prefix below the frontier, and never moves the frontier back |
| BlockStm.StepSettles | block-stm-executor/src/scheduler.rs:100-143 | after an atomic step exactly the executed transaction and the formerly finished ones that were not reported are finished |
| BlockStm.SafeStepKeeps | block-stm-executor/src/mvhashmap.rs:102-173 | while everybody is up to date and registered, a step that executes no version holder again, or does so with success and replaces nobody's read, leaves a finished transaction that is not reported up to date and registered |
| BlockStm.ForgottenBreaks | block-stm-executor/src/mvhashmap.rs:147-155 | a finished reader of a replaced version that is not reported is afterwards not both up to date and registered |
| BlockStm.StepCoherent | block-stm-executor/src/executor.rs:226-286 | those steps are exactly the ones that keep all finished transactions up to date and registered |
| Freshness.ReportedExactly | block-stm-executor/src/executor.rs:268-279 | an execution reports exactly the higher transactions registered on what it sees at its two accounts, and only if it passes its checks |
| Freshness.UndisturbedExactly | block-stm-executor/src/executor.rs:258-275 | a success of i leaves another up-to-date transaction up to date if and only if that one goes on failing, or goes on seeing the same two accounts |
| Freshness.StepStaysFresh | block-stm-executor/src/executor.rs:226-286 | when executions do not overlap, a step leaves all finished transactions up to date if and only if the transaction it takes passes its checks and disturbs no finished one that is not registered with it, or fails them and holds no version |
| Freshness.SafeIsHarmless | block-stm-executor/src/mvhashmap.rs:147-155 | while everybody is registered, a step that forgets no reader is one of those |
| Serializability.RunStaysFresh | block-stm-executor/src/executor.rs:157-218 | a run of executions that do not overlap is up to date after each of them if and only if every one is of that kind |
| Serializability.SafeRunIsHarmless | block-stm-executor/src/executor.rs:157-218 | a run that never forgets a reader keeps all readers registered, and all its steps are of that kind |
| Serializability.OverlayIsSequential | block-stm-executor/src/executor.rs:289-320 | when all transactions are up to date, what transaction j sees is the in-order state before j |
| Serializability.UpToDateIsInOrder | block-stm-executor/src/executor.rs:289-320 | all transactions are up to date if and only if everyone sees the in-order state before it, the end included, and exactly the transactions the in-order run applies hold versions |
| Serializability.Serializable | block-stm-executor/src/executor.rs:94-154 | whatever order queued transactions are taken in, executions of that kind that do not overlap and commit everything leave the initial states overlaid with the collected ones equal to the in-order run |
| Serializability.EndsInOrderExactly | block-stm-executor/src/executor.rs:94-154 | a complete run of executions that do not overlap leaves the in-order run in the map if and only if all its transactions end up to date |
| Serializability.NoHolderAgainIsSafe | block-stm-executor/src/mvhashmap.rs:147-155 | when executions do not overlap, never executing a transaction again that already holds a version is enough for never forgetting a reader |
| Overlap.StepStaysOrderly | block-stm-executor/src/scheduler.rs:100-143 | with overlapping executions, a step keeps every transaction in one place (one queue entry if pending, one worker if executing, neither otherwise, and committed exactly below the frontier) if and only if it is not a report that sends an executing transaction back |
| Overlap.StepStaysSound | block-stm-executor/src/executor.rs:157-218 | from a state where moreover everybody executed whom no pending report sends back is up to date, a step keeps that if and only if it is a fetch, an execution that passes its checks and disturbs none of those it does not notify, an execution that fails them and holds no version or is about to be sent back, or a report that sends no executing transaction back |
| Overlap.InterleavingStaysSound | block-stm-executor/src/executor.rs:157-218 | an interleaving of any number of workers is in such a state after each of its steps if and only if every step is of that kind |
| Overlap.OverlapSerializable | block-stm-executor/src/executor.rs:94-154 | an interleaving of such steps that commits everything leaves the in-order run in the map and its state in the collected ones |
| Overlap.CalmRunsAreSound | block-stm-executor/src/scheduler.rs:100-143 | never executing a version holder again and never sending an executing transaction back are together enough |
| Overlap.StepKeepsCommits | block-stm-executor/src/scheduler.rs:68-124 | a step keeps all commits if and only if it neither fetches an entry of a committed transaction nor reports for one |
| Overlap.CalmRunsKeepCommits | block-stm-executor/src/scheduler.rs:68-175 | commits are stable as long as no report has sent an executing transaction back |
| Overtaken.MissingTransfer | block-stm-executor/src/scheduler.rs:100-143 | two workers on a generated block execute no version holder again, commit everything, report three successes, and still miss one of three transfers in the collected states |
| Overtaken.CommitUndone | block-stm-executor/src/scheduler.rs:107 | in that run a transaction that is committed after ten steps is executed again and no longer committed after twelve |
| StaleRead.StaleState | block-stm-executor/src/mvhashmap.rs:147-155 | executions that do not overlap commit all of a generated, signature-checked block of three transfers and still end in another state than the in-order run |
| StaleRead.StaleWithTwoWorkers | block-stm-executor/src/mvhashmap.rs:147-155 | two workers that always take the front of the queue reach the same state |
| DisjointParties.RunKeepsDisjoint | block-stm-executor/src/executor.rs:241-286 | when executions do not overlap, and among the accepted transactions nobody both sends and receives, no receiver repeats and nonces increase along the list, a transaction that succeeded is not sent back and never executed again |
| DisjointParties.SucceedsAfterEarlier | block-stm-executor/src/executor.rs:241-248 | if moreover a sender's nonces are consecutive from its initial one, a transaction succeeds only after all its sender's earlier accepted ones |
| DisjointParties.EveryOrderIsSequential | block-stm-executor/src/executor.rs:94-154 | on such blocks every order of executions that do not overlap ends in the state of the in-order run |
| RunHistory.IncarnationIsAbortCount | block-stm-executor/src/scheduler.rs:127-143 | when executions do not overlap, a queued or executed incarnation is the number of times that transaction was sent back |
| RunHistory.NoTaskTwice | block-stm-executor/src/scheduler.rs:68-97 | when executions do not overlap, no pair of transaction and incarnation is handed out twice |
| RunHistory.CommittedIsStable | block-stm-executor/src/scheduler.rs:146-175 | when executions do not overlap, committed transactions stay committed and the frontier never moves back |
| EngineSteps.StepKeeps | block-stm-executor/src/executor.rs:157-218 | every fetch, execution or report of any worker keeps the accounting of handed-out, held and finished work, the frontier and the failure counter |
| EngineRuns.ExecutionBound | block-stm-executor/src/executor.rs:167-218 | in every interleaving of any number of workers transaction i is executed at most 2^i times, and a block of n at most 2^n - 1 times |
| EngineRuns.StepsBounded | block-stm-executor/src/executor.rs:157-218 | every interleaving ends: it has at most 3(2^n - 1) steps that are not idle polls |
| EngineRuns.FrontierHasWork | block-stm-executor/src/scheduler.rs:68-175 | before the end the transaction at the frontier is pending with a queue entry, or executing with a worker that holds that very incarnation |
| EngineRuns.EndIsCommitted | block-stm-executor/src/scheduler.rs:68-97 | with at least one worker, a state in which nobody can move has the whole block committed, and whoever asks is told it is done |
| EngineFair.RoundMoves | block-stm-executor/src/executor.rs:157-218 | while some worker has something to do, a round with a turn for every worker gets a step done |
| EngineFair.FairRunsEnd | block-stm-executor/src/executor.rs:157-218 | after 3(2^n - 1) rounds in which every worker gets a turn, idle polls included, everything is committed, no worker holds anything, and whoever asks is told it is done |
| EngineRuns.FailureCount | block-stm-executor/src/executor.rs:199-205 | once everything is committed the failure counter is exactly the number of badly signed transactions, in every interleaving |
| EngineRuns.ReportedSuccesses | block-stm-executor/src/executor.rs:144-153 | the reported successes are those of the in-order run plus the accepted transactions it skips, since a leftover retry counts as a success; so they agree exactly when it skips none |
| EngineCounts.DisciplinedAllApply | src/executor/mdbx.rs:170-225 | it skips none if each sender's nonces count up from its initial one and it can pay for all it sends |
| EngineCounts.GeneratedIsCounted | block-stm-executor/src/executor.rs:144-153 | on generated workloads every complete interleaving reports n successes and no failure, as the in-order run does; this says nothing about the state it ends in |
| EngineCounts.RetryCountsAsSuccess | block-stm-executor/src/executor.rs:192-198 | a complete run of a block of one transaction reports it as a success where the in-order run applies none |
| EngineRuns.AtomicIsInterleaving | block-stm-executor/src/executor.rs:157-218 | every run of atomic steps is an interleaving of method steps with the same states |
| EngineRuns.AtomicRunsEnd | block-stm-executor/src/executor.rs:157-218 | a run of atomic steps has at most 2^n - 1 of them and can only stop with everything committed |
| OneWorker.FrontStep | block-stm-executor/src/scheduler.rs:68-124 | with one worker the queue yields the transactions in order, nothing is sent back and one more is committed each time |
| OneWorker.Serve | block-stm-executor/src/executor.rs:169-208 | one executed task: the map, the scheduler and the counters afterwards, for every outcome |
| OneWorker.WorkerLoop | block-stm-executor/src/executor.rs:157-218 | the loop ends with everything committed, n executions and the in-order state |
| OneWorker.ExecuteBlock | block-stm-executor/src/executor.rs:94-154 | with one worker, for any transactions: n executions, the in-order state, the number of badly signed transactions as failures, and counts that add up to n |
| Mdbx.MdbxDatabase.InitAccounts | src/executor/mdbx.rs:97-125 | the listed accounts are funded with nonce 0 on top of what the table holds |
| Mdbx.MdbxSequentialExecutor.ExecuteWorkload | src/executor/mdbx.rs:156-228 | the loop over stored accounts leaves the table and the counts of the in-order run |
| Mdbx.OneTransactionCounts | src/executor/mdbx.rs:170-198 | a transaction is a failure that changes nothing exactly if signatures are checked and the recovered signer is not the sender, or the sender is not stored, or its nonce differs, or its balance is too low |
| Mdbx.OneTransactionMoves | src/executor/mdbx.rs:200-220 | any other takes the value from its sender, raises the sender's nonce, gives the value to its receiver and touches nobody else, modulo 2^64 and 2^256; one to the sender itself only gives |
| MdbxBatched.MdbxBatchedExecutor.FindAccount | src/executor/mdbx_batched.rs:171-185 | an account is looked up in the cache first, then in the table |
| MdbxBatched.MdbxBatchedExecutor.ExecuteCached | src/executor/mdbx_batched.rs:161-225 | one transaction acts on the cache over the table as it would on the accounts themselves |
| MdbxBatched.MdbxBatchedExecutor.ExecuteBlock | src/executor/mdbx_batched.rs:157-232 | a block leaves the table and the counts of the in-order run |
| MdbxBatched.MdbxBatchedExecutor.CommitCache | src/executor/mdbx_batched.rs:235-247 | the cache is laid over the table, in whatever order its entries are visited |
| MdbxBatched.MdbxBatchedExecutor.ExecuteWorkload | src/executor/mdbx_batched.rs:117-150 | for any division into blocks the table, the totals and every block's own counts are those of the in-order run over the whole list |
| MdbxBatched.ReportCounts | src/executor/mdbx_batched.rs:128-143 | a block's report carries its position, counts as successes the transactions the in-order run applies in it, and as failures the others |
| Effects.TransferExplained | src/executor/fdb.rs:293-300 | one more applied transfer changes every account by its own sends, inflow and outflow, modulo 2^64 and 2^256 |
| Effects.ExplainedIsUnique | src/executor/fdb.rs:259-304 | the set of applied transfers alone determines the accounts, whatever order they were applied in |
| Effects.StateShowsSends | src/executor/fdb.rs:293-300 | of two sets of transfers, one containing the other, that lead to the same accounts, the smaller lacks no transfer to somebody else |
| Effects.SeqRunExplained | src/executor/mdbx.rs:170-225 | the in-order run is explained by the set of transfers it applies |
| AccountCodec.DecodeEncode | src/executor/fdb.rs:360-371 | every account, with any 64-bit nonce and 256-bit balance, survives being encoded and decoded |
| AccountCodec.EncodeDecode | src/executor/fdb.rs:360-371 | every 40-byte record is the encoding of what it decodes to |
| AccountCodec.RecordLayout | src/executor/fdb.rs:360-371 | byte by byte: the nonce in the first 8 bytes, the balance in the next 32, each with its most significant byte first |
| FdbSlices.Divide | src/executor/fdb.rs:168-190 | for any length and number of threads the slices are non-empty, meet end to start, cover the list, are full except the last, and are no more than the threads |
| FdbSlices.SlicesDisjoint | src/executor/fdb.rs:173-190 | no index lies in two slices |
| FdbSlices.SlicesJoin | src/executor/fdb.rs:173-190 | the slices in thread order concatenate to the list |
| FdbThreads.RunInvariant | src/executor/fdb.rs:226-335 | in every reachable state exactly the accepted transactions that threads have passed are applied, and they explain the accounts |
| FdbThreads.AttemptExactly | src/executor/fdb.rs:246-326 | an attempt counts a failure exactly if signatures are checked and the recovered signer is not the sender, changes nothing if the sender is not stored or its nonce or balance does not fit, and else counts a success |
| FdbThreads.Confluence | src/executor/fdb.rs:226-335 | any two complete runs over the same list end with the same accounts, for any interleavings and any division into slices |
| FdbThreads.CompleteIsSequential | src/executor/fdb.rs:226-335 | a complete run ends like the in-order run if that one applies every accepted transaction; if they agree, on fewer than 2^64 transactions, it skips none but self-transfers; without accepted self-transfers this is an equivalence |
| FdbOrder.LogIsLegalRun | src/executor/mod.rs:51-56 | in every reachable state the accounts are those of running the applied transfers one by one in the order they were applied, with none of them failing |
| FdbOrder.LogInTurn | src/executor/fdb.rs:273-276 | each applied transfer carried its sender's initial nonce plus the sends applied before it |
| FdbOrder.SenderInNonceOrder | src/executor/mod.rs:54 | while its nonce cannot wrap around, a sender's transfers are applied by increasing nonce, where only a self-transfer may be followed by one with the same nonce |
| FdbLoose.ListedIsKept | src/executor/mod.rs:54 | a sender to others whose nonces increase along the list is never reordered, in any reachable state |
| FdbLoose.LooseOrderExactly | src/executor/mod.rs:54 | a complete run applies the transfers of a sender to others, whose nonce cannot wrap around, in list order if and only if their nonces increase along the list |
| FdbLoose.Reordered | src/executor/fdb.rs:226-335 | two threads, one transfer each, complete a run that reverses a sender's transfers and ends with other accounts than the in-order run |
| FdbOrder.AccountsAddUp | src/executor/fdb.rs:293-300 | in every reachable state a nonce is the initial one plus the sends, a balance the initial one plus inflow minus outflow |
| FdbOrder.CompleteCounts | src/executor/fdb.rs:192-208 | a complete run reports every accepted transaction as a success and every other one as a failure |
| FdbOrder.ThreadCounts | src/executor/fdb.rs:234-334 | at any time a thread has counted as failures exactly the rejected transactions of the part of its slice it has passed, and as successes exactly the accepted ones |
| FdbProgress.FirstThreadAdvances | src/executor/fdb.rs:255-327 | in every reachable unfinished state the lowest remaining transaction is at the head of a thread, and an attempt of that thread gets it done |
| FdbProgress.AttemptAdvances | src/executor/fdb.rs:308-326 | an attempt either changes nothing or gets exactly one more transaction done |
| FdbProgress.NeverStuck | src/executor/fdb.rs:226-335 | with disciplined nonces and sufficient balances, from every reachable unfinished state some attempt gets a transaction done, and there are at most as many of those as transactions |
| FdbFair.RoundAdvances | src/executor/fdb.rs:255-327 | on such a workload every round that gives each unfinished thread a turn gets at least one more transaction done |
| FdbFair.FairCompletes | src/executor/fdb.rs:226-335 | as many such rounds as there are transactions complete the workload |
| FdbProgress.CompleteMatchesSequential | src/executor/fdb.rs:192-208 | such workloads end with the accounts and the totals of the in-order run, under any interleaving |
| FdbProgress.SenderInListOrder | src/executor/mod.rs:54 | on such workloads each sender's transfers are applied in list order |
| FdbStore.KeysDiffer | src/executor/fdb.rs:354-358 | different accounts are kept under different keys |
| FdbStore.PrefixSpells | src/executor/fdb.rs:354-358 | the key prefix is `account/` |
| FdbStore.SetRecord | src/executor/fdb.rs:298-300 | setting one account's encoded record changes that account and no other |
| FdbStore.InClearedRange | src/executor/fdb.rs:106-109 | an account's key is below the upper end of the cleared range exactly when its digest does not start with 0xff |
| FdbStore.BeforeIsTotal | src/executor/fdb.rs:106-109 | the order of keys that the range speaks of is total |
| FdbStore.ClearLeaves | src/executor/fdb.rs:101-114 | clearing removes an account exactly when its digest does not start with 0xff, so it empties the keyspace if and only if no stored digest does |
| FdbStore.LeftoversUntouched | src/executor/fdb.rs:156-166 | accounts left over do not matter to transactions between funded accounts: same counts, and the leftovers stay as they were |
| FdbStore.LeftoversMatter | src/executor/fdb.rs:266-269 | a sender that was not funded behaves differently exactly when its leftover account lets its transaction apply |
| FdbStore.FdbDatabase.ClearDatabase | src/executor/fdb.rs:101-114 | the database keeps exactly those accounts |
| FdbExecutor.FdbParallelExecutor.constructor | src/executor/fdb.rs:89-97 | at least one thread is used |
| FdbExecutor.FdbParallelExecutor.InitAccounts | src/executor/fdb.rs:118-143 | writing the accounts in batches sets each of them once with nonce 0, later entries winning |
| FdbExecutor.LastEntryWins | src/executor/fdb.rs:118-143 | an account ends up with nonce 0 and the balance of its last entry |
| FdbExecutor.NoEntryNoChange | src/executor/fdb.rs:118-143 | an account without an entry stays as it was |
| FdbExecutor.FdbParallelExecutor.RunTransfer | src/executor/fdb.rs:259-304 | one database transaction: the whole transfer, or no change when the sender is missing or its nonce or balance does not fit |
| FdbExecutor.FdbParallelExecutor.AttemptOnce | src/executor/fdb.rs:246-326 | what a thread does with the head of its slice, and when it retries |
| FdbExecutor.FdbParallelExecutor.TakeTurn | src/executor/fdb.rs:237-328 | a turn on the byte-level store is one attempt of the transition system |
| FdbExecutor.FdbParallelExecutor.ExecuteWorkload | src/executor/fdb.rs:152-209 | under any schedule of the threads the executor's run is the transition system's for that schedule, on the cleared and funded accounts, with the per-thread and total counts it reports; on a disciplined workload with sufficient balances, as many rounds of turns for all threads as there are transactions finish it |
| FdbExecutor.EachThreadReports | src/executor/fdb.rs:197-208 | each thread's result carries its number and its own counts of rejected and accepted transactions, for the part it has passed and, once finished, for its whole slice |
| FdbExecutor.GeneratedFinishes | src/executor/fdb.rs:152-209 | every generated workload is one of those, whatever clearing left behind |
| FdbExecutor.GeneratedOnStore | src/executor/fdb.rs:152-209 | on a generated workload every finished run succeeds everywhere and leaves the in-order accounts next to what clearing left behind |
| Workloads.GenerateTransactions | src/lib.rs:250-278 | for any picks every transaction goes where its pick says, is well signed, of value 1, between different accounts, and its nonce counts its sender's earlier transactions |
| Workloads.Chunks | src/lib.rs:281-284 | the blocks concatenate to the list, none is empty, and all but the last are full |
| Workloads.HotIsNearest | src/lib.rs:253-254 | the number of accounts drawn from is, of all possible ones, the one nearest to the configured number |
| Workloads.Generate | src/lib.rs:242-292 | all of this for every configuration with at least two accounts and a positive block size |
| Workloads.GeneratedSucceeds | src/executor/mdbx.rs:156-228 | the in-order run over the funded accounts applies every transaction of a generated workload |
| Workloads.GeneratedOnThreads | src/executor/fdb.rs:226-335 | the retry threads never get stuck on one, and finish like the in-order run with n successes |

## Left out

- Serializability.Serializable: executions that do not overlap; Overlap.OverlapSerializable covers those that do. For the final accounts alone both give only the forward direction, since two mistakes may cancel out in them. For the map as a whole the equivalence is proved (Serializability.UpToDateIsInOrder), and for runs the exact condition for staying up to date (Serializability.RunStaysFresh, Overlap.InterleavingStaysSound).
- DisjointParties.EveryOrderIsSequential: executions that do not overlap. With overlapping ones it is false (Overtaken.MissingTransfer is on such a block), and Overlap.StepStaysSound is the condition.
- FdbLoose.LooseOrderExactly: not for senders with accepted self-transfers. Those leave the nonce alone, so two of them with the same nonce may be applied in either order.
- EngineRuns.AfterSteps: fetching, executing and reporting are one step each. Reading an account and registering the read, becoming executed and sending readers back, the `try_lock` around committing, and the two lock orders of queue and statuses are not interleaved with other threads.
- RunHistory.CommittedIsStable: executions that do not overlap. With overlapping ones it is false (Overtaken.CommitUndone); Overlap.StepKeepsCommits is the exact condition.
- RunHistory.NoTaskTwice: executions that do not overlap. A late report marks its transaction with its own, older incarnation, so nothing is claimed about incarnation numbers when they do.
- OneWorker.ExecuteBlock: one worker. Several workers are covered by runs on values (BlockStm, EngineSteps), since which thread moves next is not part of the code.
- FdbExecutor.FdbParallelExecutor.ExecuteWorkload: the threads take turns as an input says, and each `db.run` closure is one transaction that happens once; conflicts, I/O errors, `maybe_committed` and sleeps are not modelled.
- Ledger.SeqRun: 64-bit and 256-bit arithmetic wraps as in a release build; a debug build panics instead.
- Workloads.Generate: random choices are an input, in which the receiver is already redrawn until it differs; that redrawing ends is not modelled. It asks for at least two accounts and a positive block size, without which the code panics or loops.
- Signatures, hashing and address derivation: recovery yields an arbitrary optional address, which is compared with the sender; hashed keys are taken to be injective.
- The MDBX and FoundationDB engines: maps with atomic transactions. The FoundationDB range clear is taken to exclude its upper end, as that database defines it.
- `SequentialExecutor` (src/executor/sequential.rs): it executes inside revm, which is not part of this model.
- `src/executor/block_stm.rs`: copies fields in and out of the engine; the initial states are an input here.
- Code hashes of accounts: carried along unchanged by every transfer, and never set.
- `ReadResult::Dependency`, `clear_transaction`, `Scheduler::stats` and the unused types of block-stm-executor/src/types.rs: no executed path reaches them.
- `test_abort_and_reexecute` (block-stm-executor/src/scheduler.rs:270-293): it expects an already committed transaction to be sent back, which the code does not do.
- Command line, printing, timing, benchmarks and examples.
