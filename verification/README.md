# Synthetic order execution: a verified model

The system executes off-chain limit orders through an on-chain vault. Two state machines share
one key, the `executionId`, and this project models both, with the arithmetic that feeds them.

**The vault** (`Vault`, `VaultInvariants`, `VaultTheorems`, `VaultEntryPoints`, `VaultContract`). One EVM transaction is a
sequence of steps: an entry point runs up to its external call, the token, router or WETH act while
control is theirs, and the entry point finishes. Invariants are proved of every step, so they hold while
control is outside the contract too. `VaultContract` is the contract as a class whose methods update its
storage in place; every method is proved to be a run of the step machine, a revert included. `VaultEntryPoints`
says of each entry point when it is admitted, with which error it is refused, and what it leaves.

**The order protocol** (`Protocol` and the modules named after it). One order row and the chain, driven by
any number of interleaved actors: trigger engines, user cancels, executors, the network, transaction
monitors and the reconciler. Every guarded write is one atomic step; a read is an earlier step whose result
the actor carries with it; an actor can crash between any two steps. The theorems are inductive invariants
over all runs, `ProtocolLimits` shows by concrete runs where each guarantee ends, and `ProtocolStranded` says
which EXECUTING orders nobody will ever move again, and which TRIGGERED ones nobody but a cancelling user will.

**All of it as one system** (`EndToEnd`, `EndToEndSettles`). The chain of the protocol is the vault, an execution is
built from the answers of the fee tiers, and a transaction of the order is mined by running it: what the order
table calls EXECUTED is one event of the ledger, at or above the floor of the best quote and through its pool.
And whenever the vault takes the swap, there is a run that gets the order there.

**The services, in place.** `OrderRepository`, `TxMonitorService`, `ReconcilerService`, `TriggerEngine`,
`OrderService` and `ExecutionService` are classes with the loops and branches of the originals, proved
against specification functions (`Orders`, `Reconciliation`, `LogScan`) or, for the executor, step by step
against `Protocol`. Other actors write between a read and the write that follows it; any await of the executor
can reject, its error handler's own calls included, and so can a call that took effect; a reconciler pass can
throw at its list query, before any item, and between a correction and its audit-trail entry; a trigger pass at
its query and at any claim. `ServiceRuns` proves that what the monitor, the reconciler, a cancel, a
retry and a trigger claim do to a row is itself a run of the protocol, so the theorems about runs apply to them.

**The joints.** `UniswapAdapter` (best tier, slippage floor, deadline), `PriceService` and `Trigger`
(divergence guard, firing), `DecimalText` (decimal strings with integers only).

Environment assumptions, all visible in the step functions: tokens follow EIP-20 (section "Methods") and do
not rebase; WETH wraps and unwraps what it is told; the router pulls at most its allowance and delivers at
least what it returns; `sweepUnaccounted` is not called inside an external call of the vault (every other
admin function may be). The protocol has no chain reorganisations, its node may fail to answer but does not
answer falsely about receipts it has or about `isExecuted`, and later blocks are stamped after the worker's
clock less a skew; the order's id is known to its executors only. Log scanning does allow reorganisations up
to the configured buffer.

Where the code and its documentation disagree, the model follows the code:

- The order table calls EXECUTED and CANCELLED terminal, but the repository never consults the table:
  `OffTableExactly` lists every write that leaves it. `ExecutedCanBecomeFailed` is a run from EXECUTED to FAILED
  with the swap landed, which the next audit puts right; `CancelledCanBecomeFailed` is one from CANCELLED to
  FAILED.
- The stuck sweep is called the safety net of lost monitor jobs, but it selects by submission time. An order
  claimed and then dropped before its hash is recorded, because the worker dies or because the error handler's
  own database call rejects, stays EXECUTING for good: `StrandedExactly` says which orders do, and
  `ClaimThenNothingStrands` gives two runs to one.
- A monitor check ignores the result of its write, so a check that lost the race reports, and the reconciler
  counts and logs, a resolution it did not make: `CheckLandsExactly` says when the write lands, `CheckCanLose`
  is one that does not.
- A hand-off to the execution queue that fails is left to a reconciler sweep of TRIGGERED orders, but no query
  and no pass selects TRIGGERED: `HandedOffExactly` says which such orders can ever be executed, and
  `ClaimWithoutHandOffStrands` is a run to one that only a cancel can move.
- Every forced correction is to have an audit-trail entry. It has one exactly if the call that writes the entry
  does not reject (`ApplyLog`, `AuditOrder`); `BackfillEntryCanBeLost` and `AuditEntryCanBeLost` are cases, and no
  later run writes the missing entry (`Repeat`).
- FAILED is returned, and logged as "failed before any transaction was signed", although a transaction is on the
  network, exactly if the row is no longer EXECUTING when the error handler reads it
  (`FailedThoughSentExactly`).
- A transition may carry a null hash, which erases the one on the row (`NullErases`); `HashSurvivesExactly` says
  when a hash survives. No caller in the protocol passes one.
- "A transaction can never exist on the network that this database has no record of" holds exactly with
  one live executor (`SingleExecutorExactly`), because a null result of `recordTxHash` is ignored.
- "Safe to re-trigger" after a drop verdict holds exactly when the grace period is at least the deadline
  window plus the clock skew (`DropVerdictIsFinalExactly`). The accepted settings (grace from 10 s, window up
  to 300 s) do not enforce this.
- A log scan whose very first passes fail starts from a later head, so blocks the first attempt would have
  read may never be scanned: `FirstAttemptCoveredExactly` says when, `FirstAttemptCanMiss` is a case.
- `maxBlockRange <= reorgBufferBlocks` is accepted and stops the scan for good (`StuckForever`).

## Model

| member | source | states |
|---|---|---|
| VaultTheorems.AccountingHolds | contracts/src/SyntheticOrderExecutor.sol:85-87 | In every reachable state, inside external calls too, totalAccounted is the sum of all balances of the token, the vault holds at least that much, and no withdrawal or swap can fail on the checked subtraction from it. |
| VaultTheorems.EventLogIsTheLedger | contracts/src/SyntheticOrderExecutor.sol:107-126 | After any run, folding Deposited, Withdrawn and SwapExecuted gives every balance exactly; isExecuted holds exactly of the ids in SwapExecuted; each id appears once; every swap credited at least its minimum. |
| VaultTheorems.SwapSettlesOrVanishes | contracts/src/SyntheticOrderExecutor.sol:303-364 | Whatever happens inside the router call, a swap either leaves no trace or was on time with an unused id, debited the owner exactly amountIn, credited the same owner amountOut >= minAmountOut, and moved no other balance. |
| VaultTheorems.SwapAdmittedExactly | contracts/src/SyntheticOrderExecutor.sol:320-334 | In a reachable state a swap passes the checks if and only if all the documented restrictions hold, in whatever order they are checked. |
| VaultTheorems.SettledOnlyGrows | contracts/src/SyntheticOrderExecutor.sol:543-545 | No step un-executes an id, reverts included, and only a returning swap of an unused id adds one. |
| VaultTheorems.WholeSwapLogs | contracts/src/SyntheticOrderExecutor.sol:346-363 | A swap transaction that settles adds exactly one SwapExecuted event, with its own arguments, to those of its id, and none to those of any other id, whatever happens inside the router call. |
| VaultTheorems.WithdrawalGoesThrough | contracts/src/SyntheticOrderExecutor.sol:234-247 | In any reachable state, paused or delisted, a withdrawal succeeds if and only if 0 < amount <= own balance, and moves that balance, the total and the holdings by the amount and nothing else. |
| VaultTheorems.ExitsGoThrough | contracts/src/SyntheticOrderExecutor.sol:234-247 | Any list of withdrawals by any users succeeds in its order if and only if amounts are positive and no balance is overdrawn in total. |
| VaultTheorems.EveryoneCanLeave | contracts/src/SyntheticOrderExecutor.sol:500-518 | If everyone withdraws everything, in any order and any instalments, all succeed, totalAccounted ends at zero and exactly the unaccounted surplus remains. |
| VaultTheorems.AWayOutExists | contracts/src/SyntheticOrderExecutor.sol:234-247 | In every reachable state between transactions there are withdrawals that all succeed and leave every balance at zero. |
| VaultTheorems.ExitOneIsARun | contracts/src/SyntheticOrderExecutor.sol:234-247 | A successful withdrawal is a run of the step machine, so the invariants hold across it. |
| VaultInvariants.AdminTouchesNoBalance | contracts/src/SyntheticOrderExecutor.sol:408-528 | No admin, pause or sweep step changes a balance, a total or the replay set, nor anything about the call in flight. |
| VaultInvariants.RunKeeps | contracts/src/SyntheticOrderExecutor.sol:191-364 | Accounting, the ledger, the replay set and the backing hold after every step of every run, and of the state a revert would restore. |
| VaultInvariants.DebitNeverPanics | contracts/src/SyntheticOrderExecutor.sol:241-242 | Given the sum invariant, a debit succeeds exactly when the balance covers it; the second subtraction never underflows. |
| Vault.UnaccountedBalance | contracts/src/SyntheticOrderExecutor.sol:535-539 | What may be swept is exactly the holdings beyond totalAccounted. |
| VaultContract.SyntheticOrderExecutor.constructor | contracts/src/SyntheticOrderExecutor.sol:162-178 | The new contract is the initial state of the machine: nothing allowed, owed or spent, unpaused, the admin in both roles, with an executor or without. |
| VaultContract.SyntheticOrderExecutor.Deposit | contracts/src/SyntheticOrderExecutor.sol:191-204 | Succeeds if and only if unpaused, the token allowlisted, the amount positive, the transfer goes through, something arrives and the credit fits; the sender's balance and the total then rise by exactly what arrived. Each error exactly; a failure leaves no trace. The storage after it is that of the machine's transaction. |
| VaultContract.SyntheticOrderExecutor.DepositETH | contracts/src/SyntheticOrderExecutor.sol:207-219 | The same for wrapped ETH, credited as WETH. |
| VaultContract.SyntheticOrderExecutor.Withdraw | contracts/src/SyntheticOrderExecutor.sol:234-266 | Succeeds if and only if 0 < amount <= own balance and the token call, or unwrapping and the ETH send, go through; balance, total and holdings then fall by the amount. Paused or delisted makes no difference; a failure leaves no trace. |
| VaultContract.SyntheticOrderExecutor.SwapRefusal | contracts/src/SyntheticOrderExecutor.sol:320-334 | The checks, in the order of the code, refuse with the machine's error or not at all. |
| VaultContract.SyntheticOrderExecutor.ExecuteSwap | contracts/src/SyntheticOrderExecutor.sol:303-364 | Succeeds if and only if all checks pass, the router call goes through, its result is at least minAmountOut and the credit fits; then the owner's input falls by amountIn and output rises by that result, the holdings move by what was pulled and delivered, the id is spent and the event is logged. SlippageExceeded exactly below the floor; a failure leaves no trace. |
| VaultContract.SyntheticOrderExecutor.SetExecutor | contracts/src/SyntheticOrderExecutor.sol:419-434 | Exactly for admins; the role moves from the previous executor to the new one, and nothing else changes. |
| VaultContract.SyntheticOrderExecutor.SetTokenAllowed | contracts/src/SyntheticOrderExecutor.sol:447-455 | Succeeds exactly for an admin, a token and a positive cap; allowlists the token with that cap and changes nothing else, or nothing at all. |
| VaultContract.SyntheticOrderExecutor.RemoveToken | contracts/src/SyntheticOrderExecutor.sol:462-469 | Succeeds exactly for an admin and an allowlisted token; takes the token and its cap off, and changes no balance, so it stays withdrawable. |
| VaultContract.SyntheticOrderExecutor.SetMaxTradeAmount | contracts/src/SyntheticOrderExecutor.sol:472-480 | Succeeds exactly for an admin, an allowlisted token and a positive cap; changes that cap only, and the event carries the one from before. |
| VaultContract.SyntheticOrderExecutor.Pause | contracts/src/SyntheticOrderExecutor.sol:487-489 | Succeeds exactly for a pauser while unpaused; sets the flag and nothing else. |
| VaultContract.SyntheticOrderExecutor.Unpause | contracts/src/SyntheticOrderExecutor.sol:492-494 | Succeeds exactly for an admin while paused; the pauser role is not enough. |
| VaultContract.SyntheticOrderExecutor.SweepUnaccounted | contracts/src/SyntheticOrderExecutor.sol:519-528 | Succeeds exactly for an admin, a recipient and a positive surplus; what is left of the token is exactly what is owed. |
| VaultEntryPoints.DepositAdmittedExactly | contracts/src/SyntheticOrderExecutor.sol:191-193 | A deposit passes the checks if and only if the vault is unpaused and idle, the token allowlisted and the amount positive; and with which error it is refused otherwise. |
| VaultEntryPoints.DepositETHAdmittedExactly | contracts/src/SyntheticOrderExecutor.sol:207-211 | The same for ETH: unpaused, idle, a positive value, and WETH allowlisted. |
| VaultEntryPoints.DepositSettlesExactly | contracts/src/SyntheticOrderExecutor.sol:195-203 | Whatever happened during the transfer, the deposit settles if and only if the vault holds more than on entry and the credit fits, and credits the depositor exactly the difference. |
| VaultEntryPoints.SwapRefusedExactly | contracts/src/SyntheticOrderExecutor.sol:303-336 | Which error a refused swap gets: the first restriction, in the order of the code, that does not hold. |
| VaultEntryPoints.SwapSettlesExactly | contracts/src/SyntheticOrderExecutor.sol:346-363 | An admitted swap settles if and only if the router reports at least minAmountOut and the credit fits, whatever else happens inside the router call; the two balances and the two totals then move by amountIn and amountOut, and the id is spent. |
| VaultEntryPoints.WithdrawalAdmittedExactly | contracts/src/SyntheticOrderExecutor.sol:234-240 | A withdrawal passes the checks if and only if no call is under way and 0 < amount <= own balance; pause and allowlist play no part. |
| VaultEntryPoints.AdminNeedsRole | contracts/src/SyntheticOrderExecutor.sol:419-519 | Whoever lacks the role, pauser for the pause and admin for all else, changes nothing. |
| VaultEntryPoints.SetExecutorExactly | contracts/src/SyntheticOrderExecutor.sol:419-434 | Who holds the executor role afterwards: the new one, if any, and everyone else but the previous one. |
| VaultEntryPoints.SetTokenAllowedExactly | contracts/src/SyntheticOrderExecutor.sol:447-455 | Adds the token with its cap, unless one of them is zero; every other token and all else stays. |
| VaultEntryPoints.RemoveTokenExactly | contracts/src/SyntheticOrderExecutor.sol:462-469 | Removes an allowlisted token and zeroes its cap; every other token and all else stays. |
| VaultEntryPoints.SetMaxTradeAmountExactly | contracts/src/SyntheticOrderExecutor.sol:472-480 | Changes the cap of an allowlisted token to a positive one; every other cap and all else stays. |
| VaultEntryPoints.PauseExactly | contracts/src/SyntheticOrderExecutor.sol:487-494 | Paused afterwards exactly if it was or a pauser paused, and no longer exactly if an admin resumed. |
| VaultEntryPoints.SweepExactly | contracts/src/SyntheticOrderExecutor.sol:519-528 | Between transactions, a sweep leaves of the token exactly what is owed, of every other token everything, and nothing to a zero address or without a surplus. |
| VaultEntryPoints.InitExactly | contracts/src/SyntheticOrderExecutor.sol:162-178 | Roles, allowlist, caps, balances and replay set of a new vault. |
| ProtocolTruth.ExecutedIsNeverALie | apps/worker/src/reconcile/reconciler.service.ts:36-39 | With any executors and retries, in every reachable state EXECUTED implies the id is consumed on chain, and a tracked hash is a transaction carrying the order's id. |
| ProtocolTruth.AtMostOneSwap | contracts/src/SyntheticOrderExecutor.sol:321-338 | With any executors and retries at most one swap of the id ever lands, and exactly one once the id is consumed. |
| ProtocolTruth.RunKeepsEvidence | packages/core/src/repositories/order.repository.ts:107-115 | A hash or a submission time, once on the row, is never erased by any actor. |
| EndToEnd.ExecutedMeansSettled | contracts/src/SyntheticOrderExecutor.sol:303-364 | For protocol, quotes and vault as one system, through any interleaving: the id counts as consumed exactly if the vault's replay set has it, the swaps landed are the SwapExecuted events of the id, and an EXECUTED order has exactly one such event; it is the owner's, for exactly the asked amountIn, through the pool of the first of the best fee tiers that answered when the signed transaction was built, with the slippage floor of that tier, and credits at least the floor of every tier that answered. |
| EndToEndSettles.OrderCanSettle | apps/worker/src/execution/execution.service.ts:88-204 | Whenever the vault takes the swap that the quotes lead to, there is a run of the whole system that carries a new order from PENDING to EXECUTED with hash, block and amount on the row and the one swap, as dealt, in the ledger: nothing in the protocol stands in its way. |
| ProtocolAttempt.ClaimedAndSignedAtMostOnce | apps/worker/src/execution/execution.service.ts:162-190 | Without retries, however many engines, executors and cancels run, an order is triggered, claimed and signed at most once. |
| ProtocolAttempt.CancelIsFinal | apps/backend/src/services/order.service.ts:131-154 | Without retries, once a cancel is written no transaction of the order is ever signed or mined, in any continuation. |
| ProtocolDeadline.DropVerdictIsFinal | packages/chain/src/monitor/transactionMonitor.ts:97-144 | If the grace period covers the deadline window and the clock skew, no continuation of a run consumes the id of an order that was failed as dropped. |
| ProtocolLimits.DropVerdictIsFinalExactly | packages/chain/src/monitor/transactionMonitor.ts:121-131 | That condition is necessary as well as sufficient, over all runs. |
| ProtocolSingle.PersistBeforeBroadcast | packages/chain/src/contract/executorClient.ts:220-258 | With one executor and no retries, at every interleaving and crash point, a transaction of the order on the network has its hash and a submission time on the row, then and in every continuation. |
| ProtocolSingle.FailedButConsumedHasEvidence | apps/worker/src/reconcile/reconciler.service.ts:256-263 | With one executor and no retries, every reachable FAILED order whose id is consumed has a hash and a submission time, so the audit's skip drops nothing. |
| ProtocolSingle.FailedThoughSentExactly | apps/worker/src/execution/execution.service.ts:214-268 | With one executor and no retries, when a transaction of the order is on the network, the error handler defers to the monitor if and only if the row it reads is EXECUTING; else the row is EXECUTED or FAILED already, and FAILED is returned. |
| ProtocolStranded.StrandedExactly | packages/core/src/repositories/order.repository.ts:191-200 | With one executor and no retries, an EXECUTING order that nobody is at work on and no monitor job knows of can still leave that status if and only if it has a submission time. |
| ProtocolStranded.StrandedForever | apps/worker/src/execution/execution.service.ts:214-268 | An EXECUTING order without a submission time, with nobody at work on it and nothing of it on the network, is never written again, whatever any number of actors do. |
| ProtocolStranded.ClaimThenNothingStrands | apps/worker/src/execution/execution.service.ts:162-216 | Two runs to such an order: the executor dies after its claim, or throws and its error handler's own database call rejects. |
| ProtocolStranded.HandedOffExactly | apps/worker/src/trigger/triggerEngine.ts:100-114 | A TRIGGERED order that nobody is at work on can ever be executed if and only if it was handed to the execution queue. |
| ProtocolStranded.ForgottenForever | apps/worker/src/trigger/triggerEngine.ts:103-107 | A TRIGGERED order that was not handed off, with no engine about to, stays as it is or is cancelled, whatever any number of actors do. |
| ProtocolStranded.ClaimWithoutHandOffStrands | apps/worker/src/trigger/triggerEngine.ts:92-114 | A run to such an order: the engine dies after its claim, or its hand-off rejects and it goes on. |
| ProtocolLimits.SingleExecutorExactly | apps/worker/src/workers/executor.worker.ts:36 | PersistBeforeBroadcast and FailedButConsumedHasEvidence hold in all runs if and only if at most one executor is live. |
| ProtocolLimits.OffTableExactly | packages/core/src/domain/orderStatus.ts:16-26 | Which status writes leave the documented transition table, exactly. |
| ProtocolLimits.ExecutedCanBecomeFailed | apps/worker/src/execution/execution.service.ts:254-260 | A run takes an order from EXECUTED to FAILED although its swap landed, and the audit takes it back. |
| ProtocolLimits.CancelledCanBecomeFailed | apps/worker/src/execution/execution.service.ts:254-260 | A run takes an order from CANCELLED to FAILED: an error in an execution that was under way when the user cancelled. |
| Orders.VersionCountsStatusWrites | packages/core/src/repositories/order.repository.ts:70-174 | The version counts the status writes, whatever writes land in whatever order. |
| Orders.TransitionMeansUntouched | packages/core/src/repositories/order.repository.ts:59-69 | A transition prepared from a snapshot wins if and only if no status write landed since: no ABA. |
| Orders.AtMostOneWinner | packages/core/src/repositories/order.repository.ts:70-94 | Among any writes, at most one transition prepared from one version wins. |
| Orders.RacersHaveOneWinner | packages/core/src/repositories/order.repository.ts:70-94 | Racers on one snapshot: exactly one wins, and the row is as that one left it. |
| Orders.EvidenceStays | packages/core/src/repositories/order.repository.ts:70-239 | No sequence of writes erases a submission time, and none without a transition that passes a null hash erases a hash. |
| Orders.HashSurvivesExactly | packages/core/src/repositories/order.repository.ts:75-87 | A hash survives any sequence of writes if and only if every winning transition that passes null is followed by a write that lands and sets a hash again. |
| Orders.NullErases | apps/backend/src/services/order.service.ts:179-195 | A transition with a null hash erases the hash of the row it was prepared from. |
| Orders.StaysExecutingExactly | packages/core/src/repositories/order.repository.ts:124-174 | Barring another claim, an EXECUTING row is EXECUTING after any writes if and only if no status write landed. |
| OrderStatus.IsTerminal | packages/core/src/domain/orderStatus.ts:43-45 | The terminal list is exactly the statuses without an outgoing transition. |
| OrderStatus.IsUserCancellable | packages/core/src/domain/orderStatus.ts:47-49 | The cancellable list is exactly the statuses from which the table allows CANCELLED. |
| OrderStatus.WhatMayPrecede | packages/core/src/domain/orderStatus.ts:16-26 | The table read backwards: from which statuses each status may be reached. |
| OrderRepo.OrderRepository.Create | packages/core/src/repositories/order.repository.ts:28-30 | Creates a PENDING row exactly if neither id is taken, and keeps execution ids unique. |
| OrderRepo.OrderRepository.FindByExecutionId | packages/core/src/repositories/order.repository.ts:36-38 | Finds a row with the id exactly if there is one. |
| OrderRepo.OrderRepository.TransitionStatus | packages/core/src/repositories/order.repository.ts:70-94 | Writes, and reports success, exactly if status and version are as expected; a hash passed is set, null erases it, absent keeps it; touches no other row. |
| OrderRepo.OrderRepository.RecordHash | packages/core/src/repositories/order.repository.ts:107-115 | Attaches hash and time, and changes nothing else, exactly if the order is EXECUTING. |
| OrderRepo.OrderRepository.MarkConfirmed | packages/core/src/repositories/order.repository.ts:124-149 | Exactly if the order is EXECUTING: EXECUTED, one version on, with the hash, block and time given, and the amount if one is given. |
| OrderRepo.OrderRepository.MarkFailed | packages/core/src/repositories/order.repository.ts:152-174 | Exactly if the order is EXECUTING: FAILED, one version on, with the time, and the hash and block where they are given. |
| OrderRepo.OrderRepository.ForceExecutedFromReconciliation | packages/core/src/repositories/order.repository.ts:214-239 | Exactly if the status is as expected, whatever the version: EXECUTED, one version on, with the time, and hash, block and amount where they are given. |
| OrderRepo.OrderRepository.FindMany | packages/core/src/repositories/order.repository.ts:191-268 | The list queries return only selected rows, none twice, in the order of the query, as many as match or the limit; what the limit cuts off comes no earlier than what is returned. The stuck query returns EXECUTING orders submitted before now - olderThanMs, the oldest first, and leaves out none but for the limit. |
| OrderRepo.StuckAreListed | packages/core/src/repositories/order.repository.ts:191-200 | That meaning of the stuck query: every order submitted before the bound is listed, unless the limit is full of orders submitted no later. |
| OrderRepo.PlayRow | packages/core/src/repositories/order.repository.ts:70-239 | Under any interleaving each row sees exactly the writes addressed to it, in order. |
| OrderService.OrderService.CancelOrder | apps/backend/src/services/order.service.ts:131-154 | With anything written in between, a cancel succeeds if and only if the order was PENDING or TRIGGERED when read and its status was not written since; otherwise nothing is written and the current status is reported. |
| OrderService.OrderService.TransitionOrder | apps/backend/src/services/order.service.ts:179-195 | Refuses off-table transitions; otherwise writes, the optional hash included, if and only if the status was not written since the read. |
| OrderService.OrderService.MarkTriggered | apps/backend/src/services/order.service.ts:159-171 | Goes ahead from PENDING and FAILED only, and writes if and only if nobody else did. |
| TransactionMonitor.SafeToResubmitExactly | packages/chain/src/monitor/transactionOutcome.ts:64-74 | Resubmission is called safe if and only if there is no receipt, no mempool entry, the grace period is over and the id is unconsumed; a failed read never settles anything. |
| TransactionMonitor.OutcomeExactly | packages/chain/src/monitor/transactionMonitor.ts:55-150 | Each of the six outcomes exactly, by the answers: a receipt decides at any age, SUCCESS with its block and amount and REVERTED with its block; then the mempool and the grace period; then the contract; whatever fails to answer when asked is RPC_ERROR. |
| TransactionMonitor.ShouldKeepPolling | packages/chain/src/monitor/transactionOutcome.ts:60-62 | Polling continues exactly while the outcome is not terminal. |
| TxMonitor.TxMonitorService.Check | apps/worker/src/monitor/txMonitor.service.ts:35-76 | With any writes by others between its read and its write: writes only this row, as the classified outcome of the row it read demands; reports that conclusion whether or not the write landed; asks to be called again exactly if it came to none. Undisturbed, the row afterwards by the answers alone: a reverted receipt FAILED and a successful one EXECUTED with its block at any age, a transaction gone past its grace EXECUTED or FAILED as the contract says, one never submitted FAILED, and else as it was. |
| Reconciliation.CheckedSettles | apps/worker/src/monitor/txMonitor.service.ts:35-221 | That row, field by field, is what the check writes. |
| TxMonitor.CheckLandsExactly | apps/worker/src/monitor/txMonitor.service.ts:76-221 | The write of a check lands if and only if the row is still EXECUTING, which, another claim apart, is if and only if nobody has written its status since the read. |
| TxMonitor.CheckCanLose | apps/worker/src/monitor/txMonitor.service.ts:79-97 | A check whose order somebody else fails in between changes nothing and still reports its own resolution. |
| TxMonitor.TxMonitorService.SweepStuck | apps/worker/src/monitor/txMonitor.service.ts:230-241 | Checks exactly the listed stuck orders, each once: EXECUTING and submitted before now - olderThanMs, the oldest first, none left out but for the limit. Every status write it got through is reported as a resolution, and if nobody else wrote the reports are exactly those. |
| ServiceRuns.CheckIsARun | apps/worker/src/monitor/txMonitor.service.ts:35-221 | Undisturbed and truthfully answered, a check is a run of the protocol. |
| ServiceRuns.AuditIsARun | apps/worker/src/reconcile/reconciler.service.ts:259-272 | Likewise the FAILED audit of a row. |
| ServiceRuns.LogIsARun | apps/worker/src/reconcile/reconciler.service.ts:190-220 | Likewise applying a log that the chain emitted. |
| ServiceRuns.StuckFilterAgrees | packages/core/src/repositories/order.repository.ts:191-200 | The stuck query selects an order if and only if the sweep of the protocol makes the monitor know of it. |
| ServiceRuns.CancelIsARun | apps/backend/src/services/order.service.ts:131-154 | A cancel of a cancellable order, with anything in between its read and its write, is a run of the protocol that ends in the row the service reports, with the cancel on record exactly if the service reports success. |
| ServiceRuns.ReportedCancelIsFinal | apps/backend/src/services/order.service.ts:131-154 | Without retries, once the service reports a cancel, no transaction of the order is signed or mined in any continuation. |
| ServiceRuns.RetriggerIsARun | apps/backend/src/services/order.service.ts:159-171 | And so is markTriggered of a PENDING or FAILED order, with anything in between. |
| ServiceRuns.ClaimIsARun | apps/worker/src/trigger/triggerEngine.ts:137-143 | An engine's claim, with anything in between, is a run of the protocol that ends in the row the claim leaves, counts as a trigger exactly if the claim wins, and only then leads to a hand-off. |
| LogScan.ScanIsComplete | apps/worker/src/reconcile/reconciler.service.ts:162-187 | With reorganisations bounded by the buffer, after any passes, failed ones and lagging heads included, every block from the first successful pass's start up to the next pass's start was scanned in its final version. |
| LogScan.FirstPassScansExactly | apps/worker/src/reconcile/reconciler.service.ts:168-174 | The first successful pass scans exactly the blocks from maxRange below its head, or from block 0, up to its head. |
| LogScan.LaterPassScansExactly | apps/worker/src/reconcile/reconciler.service.ts:166-187 | Every later one scans exactly the blocks from the reorg buffer below the checkpoint, or from block 0, to the head or a whole range on; the checkpoint it leaves is the last block scanned, unless it was past that. |
| LogScan.FirstAttemptCoveredExactly | apps/worker/src/reconcile/reconciler.service.ts:168-172 | Counted from the first pass tried, the same holds if and only if the first success started no later or nothing lies in between. |
| LogScan.CheckpointNeverDecreases | packages/core/src/repositories/reconciliation.repository.ts:24-39 | Over any passes the checkpoint never moves back. |
| LogScan.AdvancesExactly | apps/worker/src/reconcile/reconciler.service.ts:170-175 | A successful pass below the head advances the checkpoint if and only if the range exceeds what it re-scans, and by at least min(head - checkpoint, range - buffer). |
| LogScan.BacklogClears | apps/worker/src/reconcile/reconciler.service.ts:162-187 | A backlog of n times (range - buffer) blocks is cleared by n passes. |
| LogScan.StuckForever | apps/worker/src/reconcile/reconciler.service.ts:170-175 | Past the buffer, a range that does not exceed the buffer never advances again. |
| Reconciliation.BackfilledMeaning | apps/worker/src/reconcile/reconciler.service.ts:190-218 | A backfill writes a row at most once, from the first log about it, and not at all if it is EXECUTED. |
| Reconciliation.BackfillsExactly | apps/worker/src/reconcile/reconciler.service.ts:190-218 | A backfill corrects a row if and only if it is not EXECUTED and some log is about it; the row then has the hash, block and amount of the first such log. |
| Reconciliation.AuditsExactly | apps/worker/src/reconcile/reconciler.service.ts:259-273 | The audit corrects a row if and only if it is FAILED, has a hash or a submission time, and its id is consumed; only status, version and time change. |
| Reconciliation.SecondRunFindsNothing | apps/worker/src/reconcile/reconciler.service.ts:41-45 | With chain, head and clock frozen and the first scan at the head, a second run has nothing to do on any order. |
| Reconciliation.NothingLeftBehind | apps/worker/src/reconcile/reconciler.service.ts:246-255 | After a run every order with a log in the window is EXECUTED, and no FAILED order with evidence is consumed. |
| Reconciliation.AuditLeavesNoLie | apps/worker/src/reconcile/reconciler.service.ts:256-273 | In every reachable state of the protocol, with one executor and no retries, an answered audit leaves no order FAILED whose id is consumed. |
| ReconcilerService.AuditPassLeavesNoLie | apps/worker/src/reconcile/reconciler.service.ts:256-294 | On a table of reachable rows, with one executor and no retries, an undisturbed FAILED audit that does not throw, with all FAILED rows within its limit, leaves no order FAILED whose id is consumed. |
| Reconciliation.LogInWindow | packages/chain/src/contract/executorClient.ts:129-136 | The log view holds exactly the logs of the blocks in the range. |
| Reconciliation.LogsOfBlocks | packages/chain/src/contract/executorClient.ts:129-136 | The logs scanned are those of each block once, in order: windows in a row add up. |
| ReconcilerService.ReconciliationRepository.SetCheckpoint | packages/core/src/repositories/reconciliation.repository.ts:30-39 | Advances or stays. |
| ReconcilerService.ReconcilerService.SweepStuckExecuting | apps/worker/src/reconcile/reconciler.service.ts:116-150 | Lists the EXECUTING orders submitted before now - stuckAfterMs, the oldest first, none left out but for the limit; checks them in order, up to where it throws, none if the list query rejects; counts what the checks reported and logs an entry for each, the last one missing only if it threw; those cover every write that took effect, and are exactly those if nobody else wrote. |
| ReconcilerService.ReconcilerService.ApplyLog | apps/worker/src/reconcile/reconciler.service.ts:190-244 | With others writing between read and write, corrects the order whose id the log carries exactly if it was not EXECUTED and its status is as read; writes an entry for exactly that, unless the log call itself throws. |
| ReconcilerService.ReconcilerService.BackfillFromLogs | apps/worker/src/reconcile/reconciler.service.ts:162-187 | Applies the logs of the window in order; counts and logs exactly the corrections that took effect, the last one missing only if it threw; the checkpoint moves exactly if nothing threw; an unanswered node scans nothing. |
| ReconcilerService.ReconcilerService.AuditFailed | apps/worker/src/reconcile/reconciler.service.ts:256-294 | Goes through the FAILED orders up to where it throws or the chain does not answer, none if the list query rejects; undisturbed, corrects exactly those inspected that have evidence and a consumed id; counts exactly the corrections that took effect, and logs them. |
| ReconcilerService.ReconcilerService.AuditOrder | apps/worker/src/reconcile/reconciler.service.ts:259-294 | With others writing since the list was read, the correction takes effect exactly if the order as listed has evidence and a consumed id and its row is still FAILED; it has no entry exactly if the log call throws. |
| ReconcilerService.ReconcilerService.AuditExecuted | apps/worker/src/reconcile/reconciler.service.ts:302-336 | Writes no order; reports exactly the EXECUTED orders, in the order listed and up to where it throws, whose id the contract says is not consumed. |
| ReconcilerService.ReconcilerService.Run | apps/worker/src/reconcile/reconciler.service.ts:69-87 | With others writing during any pass and any pass throwing at its list query, before an item or in a log call: stuckChecked is the number listed, stuckResolved at least and undisturbed exactly the resolutions that took effect, failedButExecuted exactly the audit's corrections that did, backfilled exactly the backfill's unless it threw; if nothing threw every write that took effect has an entry; the checkpoint moves exactly if the backfill did not throw. A pass is among the errors only through a fault of its own or an order that the chain does not answer for, so no pass is stopped by another. Undisturbed, an order with nothing to correct is neither touched nor logged wherever a pass throws, and if none does the orders end as the specification of the three correcting passes says. |
| ReconcilerService.ReconcilerService.Repeat | apps/worker/src/workers/reconciler.worker.ts:48-64 | Over any scheduled runs with nobody else writing, an EXECUTED order stays as it is and no entry says that it was corrected, so an entry that was lost is lost for good. |
| ReconcilerService.BackfillEntryCanBeLost | apps/worker/src/reconcile/reconciler.service.ts:205-231 | A log backfill of an EXECUTING order whose audit-trail call rejects leaves it EXECUTED without an entry. |
| ReconcilerService.AuditEntryCanBeLost | apps/worker/src/reconcile/reconciler.service.ts:266-281 | The same for the FAILED audit. |
| TriggerEngine.NoOrderTriggeredTwice | apps/worker/src/trigger/triggerEngine.ts:131-137 | However engines and everyone else interleave, no order is triggered by two engines or twice by one. |
| TriggerEngine.FilterAgrees | packages/core/src/repositories/order.repository.ts:256-268 | The query and isTriggered agree on every side, trigger and price. |
| TriggerEngine.FiredAreListed | packages/core/src/repositories/order.repository.ts:256-268 | What the query lists are the oldest PENDING orders for which isTriggered holds, none left out but for the limit. |
| TriggerEngine.ClaimWinsExactly | apps/worker/src/trigger/triggerEngine.ts:138-150 | A claim wins if and only if what the others wrote since the query leaves its row at the version that was read. |
| TriggerEngine.LeftAloneExactly | apps/worker/src/trigger/triggerEngine.ts:138-150 | Which is so if and only if none of their writes to the order wrote its status. |
| TriggerEngine.TriggerEngine.Run | apps/worker/src/trigger/triggerEngine.ts:65-129 | The candidates are the oldest PENDING orders that the price fires, all of them within the batch. With any writes by others between the claims, a candidate is triggered if and only if nobody else has written its status between the query and its claim; without others all are, skipped is 0, and no other row changes. The pass succeeds exactly if the price is trusted and neither the query nor a claim rejects; then candidates = triggered + skipped, and handed-off and handoffFailures partition triggered, which is exactly what this engine won. If a claim rejects the result is lost, but what was won stays TRIGGERED and handed off; an order whose rejected claim landed and won is TRIGGERED and not handed off. An untrusted price fires nothing. |
| Trigger.BothFireExactlyAtTheTrigger | packages/core/src/domain/trigger.ts:20-29 | Every price fires one side or the other, and both exactly at the trigger. |
| Trigger.ScaledRoundsDown | packages/chain/src/price/price.service.ts:102-105 | toScaled is the exact number of the text, rounded down to 18 decimals. |
| PriceService.AcceptsExactly | packages/chain/src/price/price.service.ts:49-98 | A price is accepted if and only if it is fresh and no answering cross-check is off by (maxDivergenceBps + 1) ten-thousandths of it or more; an unavailable cross-check does not count. |
| PriceService.RefusesExactly | packages/chain/src/price/price.service.ts:49-98 | Which error a refused price gets, exactly, for each of the six. |
| PriceService.SellFiresWithinBound | packages/chain/src/price/price.service.ts:80-89 | A SELL fires only if the cross-check is below trigger * (10001 + maxBps) / 10000. |
| PriceService.BuyFiresWithinBound | packages/chain/src/price/price.service.ts:80-89 | A BUY fires only if the cross-check is above trigger * (9999 - maxBps) / 10000. |
| PriceService.BuyBoundExactly | packages/chain/src/price/price.service.ts:80-89 | The BUY bound holds of all firings if and only if the trigger is positive or the allowed divergence is below 100%; the API creates no order with a zero trigger. |
| PriceService.AcceptedIsPositive | apps/backend/src/api/schemas/order.schema.ts:11-17 | A trigger price that the API accepts is exact in units of the column, and positive. |
| PriceService.BuyBoundOfCreatedOrders | packages/chain/src/price/price.service.ts:80-89 | So the BUY bound holds of every order created through the API, whatever divergence is allowed. |
| UniswapAdapter.QuoteIsTheBest | packages/chain/src/dex/uniswapAdapter.ts:58-69 | The quote is the maximum over all tiers that answered, the earliest of equals; none exactly if no tier answered. |
| UniswapAdapter.FloorIsTight | packages/chain/src/dex/uniswapAdapter.ts:148-149 | The slippage floor is at most the quote, monotone in it, and within one unit of the exact ratio. |
| UniswapAdapter.BuildExactly | packages/chain/src/dex/uniswapAdapter.ts:142-164 | A quote is accepted if and only if it is at most 30 s old; the parameters carry its pool fee and amounts, the floor is the quoted amount less the slippage rounded down, and the deadline is the present second plus the window. |
| UniswapAdapter.SlippageFloorReachesTheOwner | packages/chain/src/dex/uniswapAdapter.ts:142-164 | If the built parameters execute on the vault, the owner paid the quoted input and was credited at least the floor of the best quote, at most 30 s plus the deadline window after it was quoted. |
| UniswapAdapter.MiningIsTheVaults | contracts/src/SyntheticOrderExecutor.sol:320-322 | A transaction consumes its id exactly if it leaves a trace on the vault, and only an unused id, on time: the mining step of the protocol is the vault's. |
| DecimalText.ScaledIsFloor | packages/chain/src/price/price.service.ts:102-105 | On digit strings with any number of decimals, scaling is exact up to rounding down. |
| DecimalText.FormatIsExact | apps/backend/src/services/order.service.ts:199-204 | The printed digits denote exactly the amount, with no trailing zero, no redundant leading zero, and a digit before the dot. |
| DecimalText.ReadBackExactly | apps/backend/src/services/order.service.ts:199-204 | Reading back what was printed is exact at any scale that is not coarser, so no two amounts print alike. |
| DecimalText.PrintedIsReadExactly | packages/chain/src/price/price.service.ts:102-105 | toScaled of a printed amount is the amount times 10^(18 - decimals). |
| ExecutionService.ExecutionService.FindOrder | apps/worker/src/execution/execution.service.ts:88-99 | One protocol step; goes on exactly if TRIGGERED. |
| ExecutionService.ExecutionService.IsExecuted | apps/worker/src/execution/execution.service.ts:105-105 | One protocol step; what it learns may be stale afterwards. |
| ExecutionService.ExecutionService.Reconcile | apps/worker/src/execution/execution.service.ts:110-117 | One protocol step: TRIGGERED to EXECUTED by compare-and-swap. |
| ExecutionService.ExecutionService.ClaimOrder | apps/worker/src/execution/execution.service.ts:162-172 | One protocol step; wins exactly if status and version are still as read. |
| ExecutionService.ExecutionService.SignLocally | packages/chain/src/contract/executorClient.ts:244-252 | One protocol step; puts nothing on the network. |
| ExecutionService.ExecutionService.RecordSigned | apps/worker/src/execution/execution.service.ts:178-179 | One protocol step; the result is ignored. |
| ExecutionService.ExecutionService.Broadcast | packages/chain/src/contract/executorClient.ts:254-257 | One protocol step, possible only after the record. |
| ExecutionService.ExecutionService.HandOff | apps/worker/src/execution/execution.service.ts:198-198 | One protocol step; from here on the monitor knows of the order. HandOffUnheard is the same call when it rejects all the same. |
| ExecutionService.ExecutionService.Reread | apps/worker/src/execution/execution.service.ts:216-249 | One protocol step; defers exactly if the row is EXECUTING with a hash. |
| ExecutionService.ExecutionService.FailOrder | apps/worker/src/execution/execution.service.ts:254-260 | One protocol step: the compare-and-swap from whatever status was read. |
| ExecutionService.ExecutionService.HandleFailure | apps/worker/src/execution/execution.service.ts:214-268 | With any other actors and its own calls rejecting, before or after taking effect, a run of the protocol; puts nothing on the network. Undisturbed, throws exactly if its re-read rejects, or its FAILED write when it comes to one; defers to the monitor exactly if the row is EXECUTING with a hash; and fails the order otherwise, also when the FAILED write lands and rejects. |
| ExecutionService.ExecutionService.Resolve | apps/worker/src/execution/execution.service.ts:216-267 | The outcome by the row as re-read, whatever others do after: thrown, left to the monitor, or failed; a rejected hand-off still returns SUBMITTED. |
| ExecutionService.ExecutionService.ExecuteOrder | apps/worker/src/execution/execution.service.ts:88-204 | With any other actors between its awaits and any await rejecting, before or after taking effect and the error handler's included, one call is a run of the protocol, so every theorem about runs covers it; the outcome tells its last step. Undisturbed, the row and the network after it are those that the first rejected await decides: SUBMITTED means the hash is on the row, FAILED that nothing got to the network. |

## Left out

- ExecutionService.ExecutionService.ExecuteOrder: the clock moves only by the others' steps, and the pause, balance, quote and parameter checks before the claim are one possible failure, since none of them writes anything.
- ProtocolStranded.HandedOffExactly: how often the queue delivers a job (three attempts, duplicates collapsed by job id) is left open, so an order whose attempts are used up, or that is triggered again after its job ended, counts as one that can still be delivered.
- OrderRepo.OrderRepository.FindMany: the update time is not a column of the model, so the order of the query by status, and which rows its limit cuts off, is left open.
- ReconcilerService.ReconcilerService.Run: the answers of the chain are fixed for the duration of one run. A call that rejects is taken to have written nothing, so a write that lands although its call rejects shows as a throw before its log entry. Entries carry the order and the kind; their texts, hashes and blocks are not modelled.
- ReconcilerService.ReconcilerService.SweepStuckExecuting: with others writing, the reported resolutions may be more than those that took effect, as in the original.
- Orders.StaysExecutingExactly: a second claim of the order in between is left out of the equivalence; TxMonitor.CheckLandsExactly has the condition without that restriction.
- Trigger.ScaledRoundsDown: texts are digits with an optional dot; signs, spaces, prefixes and exponents, which the original libraries also accept, are not modelled.
- Reorganisations in the order protocol, and nodes that answer falsely.
- Fees, gas, nonces and revert reasons: they do not affect the safety argument.
- Error messages, monitor attempt counters, update timestamps on the row.
- Roles beyond the three holder sets; granting and revoking them directly.
- Order creation against live contract state, listing and the HTTP layer.
- Uniswap pool mathematics, oracle fetching, queues, the database engine and signing internals.
- EIP-712 signed orders: announced in the documentation, not in the contract.
