# Verified model of a rotating-savings backend

The repository is a NestJS backend for rotating savings groups: members contribute every round, one
member receives the round's payout, and what happened is kept in an audit log. This project models
its protocols, state machines and arithmetic in Dafny and proves what they promise over all inputs
and all runs. `dafny verify dfyconfig.toml` checks everything.

| module | what it models |
|---|---|
| `JsText`, `JsNumber`, `JsonString`, `Json` | JavaScript strings as UTF-16 code units, `Number::toString`, JSON string escaping (section 7 of RFC 8259), `JSON.stringify` and a parser that undoes it |
| `StableJson` | the canonical printer `stableStringify` |
| `HashChain`, `AuditChain`, `AuditStore` | the audit hash chain, the backfill migration, write-once anchors |
| `Payouts` | interleaved `distributePayout` calls, sweeps, reconciliation jobs and crashes |
| `Contributions`, `ContributionKeys`, `ContributionLocks`, `ContributionStatuses`, `ContributionRaces` | interleaved contribution requests, locks, confirmation workers and reconcilers |
| `Installments` | installment plans with pause and resume, and penalty accrual |
| `RefreshTokens` | refresh token rotation with reuse detection (section 4.14.2 of RFC 9700) |
| `PayoutOrder`, `Rounds` | membership order, activation, rounds and recipients |
| `EventPoller` | the on-chain event poller with checkpoint and processed set |
| `PoisonTracker` | the bounded tracker of repeatedly failing jobs |
| `Fx` | decimal normalisation and round payout totals |

How the code appears in the model:

- Objects whose methods update fields are classes (`AuditStore.Store`, `Installments.PlanRecord`,
  `RefreshTokens.TokenStore`, `PayoutOrder.Group`, `Rounds.RoundService`, `EventPoller.Listener`,
  `PoisonTracker.Detector`). Each method is proved equal to a function on the object's value, and
  the lemmas are about runs of those functions.
- Operations that interleave with each other between their own steps (`Payouts`, `Contributions`) are
  transition systems: a state, an event for every step the environment can let happen next, and runs
  over arbitrary event sequences. An event that is not enabled changes nothing.
- SHA-256 is a parameter of every statement about the chain. Clocks, random draws, the network, the
  chain's verdicts, queue deliveries and crashes are parameters or events.

Where the code does not do what its documentation suggests, the code is followed:

- A path payment stores its hash only when its call saves SUBMITTED, so a submission can be found by the
  sweep exactly when its call pays directly or has made that save
  (`Payouts.CoveredIffDirectOrSaved`). One that is sent and then rejected for slippage is marked FAILED
  without a hash, and in no continuation does a sweep look at it (`Payouts.RejectedPathPaymentUncovered`).
- A reconciliation job carries its row's id, and a job that has failed or completed keeps that id in the
  queue. A sweep and a worker settle a row exactly when no such job is in the way
  (`Payouts.SweepSettlesIffNotBlocked`). A payout that is still pending through all attempts of its job
  is never settled without an operator (`Payouts.StrandedStays`, `Payouts.StrandingReachable`).
- A CONFIRMED contribution can be overwritten by FAILED, exactly by a confirmation worker that ran into
  its deadline (`ContributionStatuses.ConfirmedLostIffTimedOut`, `ContributionRaces.ConfirmedCanBecomeFailed`).
- `tryAdvanceRound` pays the finished round exactly when it is not the last one
  (`Rounds.AdvancePaysIffNotLast`); every fresh group has a complete life in which everybody pays and only
  the last recipient gets nothing (`Rounds.CompletedWithLastUnpaid`).
- A departing member without a payout order is compared as order 0, which can give two members the same
  order (`PayoutOrder.LeaveKeepsDistinctIff`). A removal leaves a gap that SEQUENTIAL activation accepts,
  exactly when the removed member was not the last in order (`PayoutOrder.RemovalKeepsRecipientsIff`).
- Installments do not add up to the total unless their number divides it
  (`Installments.InstallmentsAddUp`).
- A fetched page that ends inside a ledger loses the rest of that ledger for good
  (`EventPoller.CaughtUpIffWholeLedgers`, `EventPoller.SplitLedgerIsLost`). What a handler did not get to
  before it threw is lost too (`EventPoller.CutIsFinal`, `EventPoller.LostRoundsStayLost`).
- A first failure is never reported as poison, even with threshold 1
  (`PoisonTracker.PoisonIffStreakReachesThreshold`), and asking for a job's status can change the answer
  to its next failure (`PoisonTracker.InspectionChangesVerdictIff`).

## Model

| member | source | states |
|---|---|---|
| JsNumber.NumberRoundTrip | ahjoorxmr/src/audit/audit-chain-hash.ts:40 | reading the text of a finite number gives the number back, in all four layouts JavaScript prints |
| JsNumber.LayoutIff | ahjoorxmr/src/audit/audit-chain-hash.ts:40 | scientific notation is used exactly from 1e21 on and below 1e-6, and a dot otherwise exactly for what is not whole |
| JsText.AtMostIff | ahjoorxmr/src/audit/audit-chain-hash.ts:45 | the order of sorted keys: a prefix, or the smaller code unit at the first difference, and nothing else |
| JsonString.StringRoundTrip | ahjoorxmr/src/audit/audit-chain-hash.ts:47 | for every sequence of code units, lone surrogates included, a reader undoes the quoted and escaped text and leaves what follows it |
| JsonString.QuotedTextIsClean | ahjoorxmr/src/audit/audit-chain-hash.ts:47 | a quoted string never contains a control character or an unpaired surrogate, whatever it quotes |
| Json.StringifyRoundTrip | ahjoorxmr/src/audit/audit-chain-hash.ts:72 | the parser recovers every denotable value from its printed text, whatever text follows |
| Json.StringifyInjective | ahjoorxmr/src/audit/audit-chain-hash.ts:72 | two denotable values with the same text are the same value |
| StableJson.StableIsStringifyOfCanonical | ahjoorxmr/src/audit/audit-chain-hash.ts:38-49 | sorting keys while printing gives the plain text of the sorted value |
| StableJson.StableRoundTrip | ahjoorxmr/src/audit/audit-chain-hash.ts:38-49 | the parser recovers the sorted form of any value from its stable text |
| StableJson.StableStringifyIffEquivalent | ahjoorxmr/src/audit/audit-chain-hash.ts:38-49 | equal text if and only if the values are equal up to object key order, with null, undefined and non-finite numbers identified |
| AuditChain.PayloadIffSameRow | ahjoorxmr/src/audit/audit-chain-hash.ts:55-73 | two rows have the same hashed text if and only if all columns agree, JSON columns up to key order and null versus `{}` |
| AuditChain.PayloadSaysColumns | ahjoorxmr/src/audit/audit-chain-hash.ts:56-72 | the hashed text parses to an object that has every column under the column's own name, JSON columns as their stable text |
| HashChain.EqualHeads | ahjoorxmr/src/audit/audit-chain-hash.ts:78-82 | walking back from equal heads, either all payloads agree and the lengths are equal, or the walk ends at two different texts with one digest |
| AuditChain.TamperEvidence | ahjoorxmr/src/audit/audit-chain-hash.ts:55-82 | two valid chains of any lengths with one head hash are the same rows in the same order, or an explicit collision is named |
| AuditChain.SameHistorySameHead | ahjoorxmr/src/audit/audit-chain-hash.ts:55-82 | the converse: the same history has the same head hash |
| AuditStore.DefaultsKeepPayload | ahjoorxmr/migrations/1750000000000-AddTamperEvidenceToAuditLogs.ts:143-175 | the migration's defaulted row and the service's stored row have the same hashed text |
| AuditStore.BackfilledIsValid | ahjoorxmr/migrations/1750000000000-AddTamperEvidenceToAuditLogs.ts:55-86 | rows linked one after another form one valid chain under the service's own hash, with no row left out |
| AuditStore.Store.Backfill | ahjoorxmr/migrations/1750000000000-AddTamperEvidenceToAuditLogs.ts:55-86 | the loop writes only the chain columns and leaves a valid chain over the whole table |
| AuditStore.HeadIsLast | ahjoorxmr/src/audit/audit-anchor.service.ts:48-54 | the head query returns the last row of the chain, and nothing exactly when the chain is empty |
| AuditStore.ChainIsSelection | ahjoorxmr/src/audit/audit-anchor.service.ts:131-137 | a chain is exactly the table's rows with that id and partition, in table order |
| AuditStore.StampMarksLastRow | ahjoorxmr/src/audit/audit-anchor.service.ts:100-108 | stamping writes the reference into the chain's last row and changes no other row |
| AuditStore.StampKeepsChains | ahjoorxmr/src/audit/audit-anchor.service.ts:100-108 | stamping the anchor reference changes no chain of the table |
| AuditStore.Store.AnchorCurrentChainHead | ahjoorxmr/src/audit/audit-anchor.service.ts:41-111 | one anchor with the head's hash is appended, older anchors stay, the head row is stamped; without a chain or a head nothing changes |
| AuditStore.LatestAnchor | ahjoorxmr/src/audit/audit-anchor.service.ts:139-146 | the anchor of the chain that no later anchor of it follows; none exactly when the chain has no anchor |
| AuditStore.GlobalChainId | ahjoorxmr/src/audit/audit-anchor.service.ts:210-223 | the chain of the oldest row of the GLOBAL partition, none when that row has no chain |
| AuditStore.Store.VerifyLatestAnchor | ahjoorxmr/src/audit/audit-anchor.service.ts:118-204 | for the given chain or the global one, ok if and only if some anchor of the chain with no later one after it names the hash of the chain's last row |
| AuditStore.AppendedAnchorDecides | ahjoorxmr/src/audit/audit-anchor.service.ts:85-98 | after anchoring, a verification compares the last row with the anchor just appended and with no older one |
| AuditStore.CutChainFails | ahjoorxmr/src/audit/audit-anchor.service.ts:148-170 | a chain that lost its newest rows after it was anchored does not verify, or two payloads with one digest are named |
| AuditStore.AnchorFixesHistory | ahjoorxmr/src/audit/audit-anchor.service.ts:131-170 | an anchor taken over one table and matching a later one fixes the whole chain between them, or payloads collide |
| AuditStore.VerifiedTableIsOriginal | ahjoorxmr/src/audit/audit-anchor.service.ts:118-204 | backfill, anchor, verify: a later table with a valid chain that verifies against the anchor says row by row what the table said before the backfill, or a collision is named |
| Payouts.PayoutOrderIdInjective | ahjoorxmr/src/groups/payout.service.ts:300-302 | different groups or rounds have different payout order ids, whatever characters the group id has |
| Payouts.RunKeepsInvariant | ahjoorxmr/src/groups/payout.service.ts:128-265 | the protocol invariant holds in every reachable state |
| Payouts.AtMostOneSubmission | ahjoorxmr/src/groups/payout.service.ts:128-227 | in every interleaving with crashes, at most one on-chain submission is made per group and round |
| Payouts.CoveredIffDirectOrSaved | ahjoorxmr/src/groups/payout.service.ts:172-246 | in every reachable state a submission is waiting for a sweep or settled with the chain's verdict if and only if its call needs no path payment or has saved SUBMITTED |
| Payouts.CoveredAtSubmission | ahjoorxmr/src/groups/payout.service.ts:177-232 | at the step that makes it, a submission is covered if and only if its call needs no path payment |
| Payouts.SavedBySubmittedSave | ahjoorxmr/src/groups/payout.service.ts:245-246 | a call counts as having saved SUBMITTED exactly from the successful save on, and never changes its way to pay |
| Payouts.DirectSubmissionsCovered | ahjoorxmr/src/groups/payout.service.ts:217-255 | every direct submission is always covered: selected by the sweep, or settled with the chain's verdict |
| Payouts.LostStaysUncovered | ahjoorxmr/src/groups/payout.service.ts:181-215 | a path payment whose call gets past its save of SUBMITTED without it is uncovered in every continuation |
| Payouts.RejectedPathPaymentUncovered | ahjoorxmr/src/groups/payout.service.ts:181-209 | every path payment that is sent and then rejected stays FAILED without hash, uncovered and unselected, in every continuation |
| Payouts.InsertReachable | ahjoorxmr/src/groups/payout.service.ts:128-170 | every group and round can reach the insert by either way to pay, so the case above occurs |
| Payouts.FailureWriters | ahjoorxmr/src/groups/payout.service.ts:251-255 | apart from the reconciler only the catch block and a rejected path payment write FAILED, and leave a row without hash |
| Payouts.OnlyUnsentMarkedFailed | ahjoorxmr/src/groups/payout.service.ts:251-255 | a call writes FAILED only over a row without a direct submission |
| Payouts.CatchFailsIff | ahjoorxmr/src/groups/payout.service.ts:251-255 | the catch block marks the row FAILED if and only if the call has no hash |
| Payouts.RepeatedCallRequeues | ahjoorxmr/src/groups/payout.service.ts:134-151 | a call for a payout that has a row submits nothing and sees to the job of a SUBMITTED row |
| Payouts.PathPayoutReaches | ahjoorxmr/src/groups/payout.service.ts:181-246 | a path payment that goes well ends with its hash in a SUBMITTED row and one submission |
| Payouts.PayoutRunReaches | ahjoorxmr/src/groups/payout.service.ts:128-250 | a direct payout that goes well ends with its hash in a SUBMITTED row, one submission and one job with five attempts |
| Payouts.SweepSettlesIffNotBlocked | ahjoorxmr/src/bullmq/payout-reconciliation.processor.ts:40-75 | once the chain has decided, one sweep and one worker give a direct submission's row the chain's verdict if and only if it had it or no active, failed or completed job holds the row's job id |
| Payouts.WorkSettles | ahjoorxmr/src/bullmq/payout-reconciliation.processor.ts:56-70 | a worker's turn on a settleable job makes the row CONFIRMED if the chain confirmed its hash and FAILED if not, and completes the job; on any other job it changes no row |
| Payouts.ConfirmedOnlyByChain | ahjoorxmr/src/bullmq/payout-reconciliation.processor.ts:60-64 | in every run a CONFIRMED row has a hash and the chain confirmed it |
| Payouts.FailedWithHashByChain | ahjoorxmr/src/bullmq/payout-reconciliation.processor.ts:66-70 | in every run a FAILED row with a hash has one that the chain failed |
| Payouts.NothingToDo | ahjoorxmr/src/bullmq/payout-reconciliation.processor.ts:33-48 | a job for a settled or missing row is completed at once and changes no row |
| Payouts.StrandedStays | ahjoorxmr/src/bullmq/queue.service.ts:198-212 | an unsettled row whose own job has used up its attempts, without other jobs or workers on it, stays unsettled in every continuation without an operator |
| Payouts.StrandingReachable | ahjoorxmr/src/bullmq/queue.service.ts:39-49 | for every group, round and hash there is such a run: the chain confirms after the fifth attempt and the row is never CONFIRMED |
| Payouts.OperatorRetrySettles | ahjoorxmr/src/bullmq/job-failure.service.ts:200-226 | after an operator's retry of the failed job one worker settles the row |
| Contributions.RunKeepsInvariant | ahjoorxmr/src/contributions/contributions.service.ts:102-151 | the protocol invariant, with rows apart in key, slot and transaction, holds in every reachable state, including after lock expiry and lock deletion by another request |
| ContributionKeys.SameKeySameId | ahjoorxmr/src/contributions/contributions.service.ts:372-399 | all successful responses for one idempotency key carry the same contribution id |
| ContributionKeys.OneRowPerKey | ahjoorxmr/migrations/1749000000000-AddContributionStateMachine.ts:18-23 | at most one row exists for a key in any reachable state |
| ContributionKeys.OneRowPerSlot | ahjoorxmr/src/contributions/entities/contribution.entity.ts:28 | at most one row exists for a user, group and round in any reachable state |
| ContributionKeys.OneRowPerTransaction | ahjoorxmr/src/contributions/entities/contribution.entity.ts:27 | at most one row exists for a transaction hash in any reachable state |
| ContributionKeys.InsertCreatesIffFree | ahjoorxmr/src/contributions/contributions.service.ts:247-286 | an insert creates exactly one PENDING row with the request's columns if no row shares key, slot or transaction, and otherwise nothing and refuses |
| ContributionKeys.RetryFinds | ahjoorxmr/src/contributions/contributions.service.ts:102-123 | a retry is answered with its key's settled row, waits for one in flight, and goes on to the lock without one |
| ContributionKeys.SettledKeyIsAnswered | ahjoorxmr/src/contributions/contributions.service.ts:102-117 | a request that arrives after its key was settled gets the stored id, and creates nothing |
| ContributionKeys.WaitIsAnswered | ahjoorxmr/src/contributions/contributions.service.ts:372-399 | a waiting request is answered with its row once that is settled and not before, or at its timeout |
| ContributionKeys.BlockedFinds | ahjoorxmr/src/contributions/contributions.service.ts:133-149 | a request without the lock waits for its key's row, looks a second time, and then gives up |
| ContributionKeys.LocksIffFree | ahjoorxmr/src/contributions/contributions.service.ts:126-134 | a request gets the lock if and only if Redis answers and the lock is free |
| ContributionLocks.LockExcludes | ahjoorxmr/src/contributions/contributions.service.ts:126-151 | as long as no lock expires, at most one request at a time works on a key, in any interleaving with crashes |
| ContributionStatuses.SettlersBeginIff | ahjoorxmr/src/contributions/contributions.service.ts:405-411 | the reconciler takes up exactly ON_CHAIN_SUBMITTED rows, a worker exactly rows with a job |
| ContributionStatuses.SettlersDecideIff | ahjoorxmr/src/bullmq/tx-confirmation.processor.ts:66-100 | a settler decides what the chain says; undecided, a worker goes on and the reconciler gives up; only a worker times out |
| ContributionStatuses.SettlersWrite | ahjoorxmr/src/bullmq/tx-confirmation.processor.ts:102-109 | what was decided is written, over whatever status the row has |
| ContributionStatuses.StatusWriters | ahjoorxmr/src/contributions/contributions.service.ts:293-297 | a row's status changes only from PENDING to ON_CHAIN_SUBMITTED by its creator or to a settler's decision, and nothing else of the row changes |
| ContributionStatuses.SettledStaysSettled | ahjoorxmr/src/contributions/contributions.service.ts:405-445 | a CONFIRMED or FAILED row never returns to PENDING or ON_CHAIN_SUBMITTED in any continuation |
| ContributionStatuses.ConfirmedByChain | ahjoorxmr/src/bullmq/tx-confirmation.processor.ts:66-100 | a CONFIRMED row's transaction was confirmed by the chain |
| ContributionStatuses.ConfirmedLostIffTimedOut | ahjoorxmr/src/bullmq/tx-confirmation.processor.ts:97-109 | a step turns CONFIRMED into FAILED if and only if it is the write of a worker that timed out |
| ContributionRaces.ConfirmedCanBecomeFailed | ahjoorxmr/src/bullmq/tx-confirmation.processor.ts:97-109 | for every contribution there is a run in which this happens after the chain confirmed it |
| Installments.PlanRecord.constructor | ahjoorxmr/src/payments/payments.service.ts:41-63 | a new record is what `Create` accepts: equal installments, due at ledger 0, not paused |
| Installments.PlanRecord.SettleInstallment | ahjoorxmr/src/payments/payments.service.ts:66-86 | result and new record are those of `Settle`, every refusal and the expiry write included |
| Installments.PlanRecord.PausePlan | ahjoorxmr/src/payments/payments.service.ts:92-121 | result and new record are those of `Pause`, with limit and cooldown |
| Installments.PlanRecord.ResumePlan | ahjoorxmr/src/payments/payments.service.ts:127-153 | result and new record are those of `Resume`, with the missing pause ledger |
| Installments.SettlesIff | ahjoorxmr/src/payments/payments.service.ts:69-85 | a settlement succeeds if and only if an installment of a running plan is due and the expiry is not past, and moves one installment on; it expires the plan if and only if the expiry is past |
| Installments.SettleRefusals | ahjoorxmr/src/payments/payments.service.ts:69-72 | each refusal, exactly when its guard is the first to fail |
| Installments.PausesIff | ahjoorxmr/src/payments/payments.service.ts:95-120 | a pause succeeds if and only if the plan runs, has had fewer than three pauses, and its last resume is at least 100 ledgers ago |
| Installments.ResumesIff | ahjoorxmr/src/payments/payments.service.ts:130-152 | a resume succeeds if and only if the plan is paused and the ledger is not before the pause, and shifts due, expiry and total by the time between |
| Installments.SettledInTime | ahjoorxmr/src/payments/payments.service.ts:66-86 | in every run of a fresh plan no settlement succeeds before its due ledger or after the initial expiry, both plus total paused ledgers |
| Installments.CompletedByAllInstallments | ahjoorxmr/src/payments/payments.service.ts:79-84 | a fresh plan is completed exactly by its n-th successful settlement |
| Installments.AccrualMeasuresLateness | ahjoorxmr/src/payments/installment-penalty-accrual.ts:25-56 | lateness counts from the due ledger, and whole windows plus progress below one add up to it |
| Installments.QuotientTruncates | ahjoorxmr/src/payments/payments.service.ts:42 | the installment is the total divided toward zero, for negative totals too |
| Installments.ErasingPausesSimulates | ahjoorxmr/src/payments/payments.service.ts:66-153 | for every run, the never-paused plan on the clock minus paused ledgers ends in the erased state and answers every settlement alike |
| Installments.AccrualOfErased | ahjoorxmr/src/payments/installment-penalty-accrual.ts:25-56 | lateness, completed windows and mid-window progress equal those of the erased plan at the shifted ledger |
| Installments.PausePreservesLateness | ahjoorxmr/src/payments/installment-penalty-accrual.ts:25-70 | nothing accrues during a pause, and at every offset after the resume accrual is what it was at that offset from the pause |
| Installments.RunOnSchedule | ahjoorxmr/src/payments/payments.service.ts:66-153 | expiry and next due ledger are the initial ones plus total paused ledgers, next due by interval times min(current, n-1), in every run |
| Installments.ChangesBounded | ahjoorxmr/src/payments/payments.service.ts:66-153 | state-changing steps are bounded by a measure that each of them lowers |
| Installments.FreshPlanLife | ahjoorxmr/src/payments/payments.service.ts:32-153 | any run of a new plan changes it at most n + 6 times and keeps its schedule |
| Installments.PausesApart | ahjoorxmr/src/payments/installment-pause.constants.ts:31-37 | two pauses of one run begin at least 100 ledgers apart |
| Installments.InstallmentsAddUp | ahjoorxmr/src/payments/payments.service.ts:41-43 | installments sum to the total if and only if n divides it; otherwise the remainder is missing |
| RefreshTokens.TokenStore.RefreshTokens | ahjoorxmr/src/auth/auth.service.ts:119-172 | answer and token table are those of `Refresh`: reuse, expiry, session end, missing user and rotation |
| RefreshTokens.TokenStore.StoreRefreshToken | ahjoorxmr/src/auth/auth.service.ts:291-315 | the table gains one token, with the carried-over or a new absolute expiry |
| RefreshTokens.TokenStore.RevokeAllUserTokens | ahjoorxmr/src/auth/auth.service.ts:227-233 | afterwards no token of the user is unrevoked; no token disappears, and other users' and earlier revoked tokens are as they were |
| RefreshTokens.TokenStore.RevokeOneSession | ahjoorxmr/src/auth/auth.service.ts:208-215 | only the owner's named token becomes revoked |
| RefreshTokens.TokenStore.LogOut | ahjoorxmr/src/auth/auth.service.ts:217-225 | the given token, or without one all of the user's, become revoked |
| RefreshTokens.TokenStore.DeleteExpiredTokens | ahjoorxmr/src/auth/auth.service.ts:235-240 | a token stays if and only if its expiry is not past, and those that stay are unchanged |
| RefreshTokens.IssuedIff | ahjoorxmr/src/auth/auth.service.ts:134-169 | a token is issued if and only if the presented one is signed, stored, unrevoked and within both expiries, its user exists and the new hash is free; the old one is revoked and the new one lasts seven days |
| RefreshTokens.RefusedIff | ahjoorxmr/src/auth/auth.service.ts:120-155 | when each refusal is given, and exactly which tokens it revokes |
| RefreshTokens.LoginStores | ahjoorxmr/src/auth/auth.service.ts:291-315 | a login stores one token for seven days with an absolute expiry in days from now |
| RefreshTokens.RevokeSessionIff | ahjoorxmr/src/auth/auth.service.ts:208-215 | succeeds exactly for the owner of a stored token and stamps that token alone |
| RefreshTokens.LogoutRevokes | ahjoorxmr/src/auth/auth.service.ts:217-225 | stamps the given token alone, or every unrevoked token of the user |
| RefreshTokens.DeletionKeepsAnswers | ahjoorxmr/src/auth/auth.service.ts:235-240 | deleting expired tokens changes the answer to no later refresh |
| RefreshTokens.DeletionForgetsReuse | ahjoorxmr/src/auth/auth.service.ts:134-148 | a deleted token whose signature still verifies revokes nothing when presented, where the stored one would have revoked its user's sessions; a revoked token that is kept still does |
| RefreshTokens.RunKeepsInvariant | ahjoorxmr/src/auth/auth.service.ts:119-172 | the token invariant holds after every run of atomic steps |
| RefreshTokens.ChainsAreLinear | ahjoorxmr/src/auth/auth.service.ts:157-169 | tokens of one login share user and absolute expiry, and at most one of them is unrevoked |
| RefreshTokens.RefreshWithinSession | ahjoorxmr/src/auth/auth.service.ts:150-169 | a refresh succeeds only within its login's absolute lifetime, moves the one live token and extends no session |
| RefreshTokens.ReuseKillsAll | ahjoorxmr/src/auth/auth.service.ts:134-140 | presenting a stored revoked token is denied and leaves every earlier token of the user dead |
| RefreshTokens.NoRefreshAfterReuse | ahjoorxmr/src/auth/auth.service.ts:134-140 | after such an attempt no token issued to the user before it refreshes again, in any continuation |
| RefreshTokens.NoRefreshAfterRevokeAll | ahjoorxmr/src/auth/auth.service.ts:227-233 | after all of a user's tokens were revoked none issued before refreshes again, in any continuation |
| RefreshTokens.NoRefreshAfterRevokedSession | ahjoorxmr/src/auth/auth.service.ts:208-215 | after the owner revoked a login's live token no token of that login refreshes again, in any continuation |
| RefreshTokens.ReplayIsDetected | ahjoorxmr/src/auth/auth.service.ts:134-140 | a token that was rotated and is replayed while stored is always detected as reuse |
| PayoutOrder.Group.AddMember | ahjoorxmr/src/memberships/memberships.service.ts:137-197 | result and members are those of `Add`: status, capacity and duplicate checks, next order or none |
| PayoutOrder.Group.RemoveMember | ahjoorxmr/src/memberships/memberships.service.ts:260-285 | result and members are those of `Remove`, orders untouched |
| PayoutOrder.Group.LeaveGroup | ahjoorxmr/src/memberships/memberships.service.ts:396-465 | the renumbering loop gives the members of `Leave` |
| PayoutOrder.JoinsIff | ahjoorxmr/src/memberships/memberships.service.ts:147-196 | a join succeeds if and only if the group is not ACTIVE, not full and the user is new, who then comes last with an order right behind all others, or none |
| PayoutOrder.LeavesIff | ahjoorxmr/src/memberships/memberships.service.ts:413-435 | a removal succeeds exactly for a member of a group that is not ACTIVE, a departure for one of a PENDING group |
| PayoutOrder.OnlyTheUserGoes | ahjoorxmr/src/memberships/memberships.service.ts:271-285 | after a removal exactly the user is gone and the others are unchanged |
| PayoutOrder.OnlyTheUserLeaves | ahjoorxmr/src/memberships/memberships.service.ts:437-465 | after a departure exactly the user is gone |
| PayoutOrder.NobodyJoinsTwice | ahjoorxmr/src/memberships/memberships.service.ts:164-169 | in every run of joins, departures and removals users stay distinct |
| PayoutOrder.SequentialRunIsPermutation | ahjoorxmr/src/memberships/memberships.service.ts:437-465 | every run of joins and leaves keeps the orders a permutation of 0..n-1 with n at most the capacity |
| PayoutOrder.SequentialRunIsDistinct | ahjoorxmr/src/memberships/memberships.service.ts:260-285 | with removals in the run, orders stay distinct and non-negative |
| PayoutOrder.RelativeOrderKept | ahjoorxmr/src/memberships/memberships.service.ts:453-465 | two members who stay keep their relative order through any run |
| PayoutOrder.LeavePreservesRelativeOrder | ahjoorxmr/src/memberships/memberships.service.ts:453-465 | a departure keeps who comes before whom, in both directions |
| PayoutOrder.LeaveKeepsDistinctIff | ahjoorxmr/src/memberships/memberships.service.ts:459-465 | a departure keeps orders distinct if and only if the member had an order or 0 and 1 are not both held |
| PayoutOrder.ShuffleIndices | ahjoorxmr/src/groups/groups.service.ts:483-487 | the in-place swaps give the array `Shuffled` for every sequence of draws |
| PayoutOrder.ShuffledIsPermutation | ahjoorxmr/src/groups/groups.service.ts:483-487 | for every sequence of random draws the result is a permutation of 0..n-1 |
| PayoutOrder.ShuffleIsBijective | ahjoorxmr/src/groups/groups.service.ts:483-487 | every permutation comes from exactly one sequence of draws |
| PayoutOrder.ShufflePlacesDraw | ahjoorxmr/src/groups/groups.service.ts:484-487 | the draw for a position picks the number that ends up there |
| PayoutOrder.AdminCheckIffPermutation | ahjoorxmr/src/groups/groups.service.ts:501-508 | the sorted-and-compared check accepts exactly the permutations of 0..n-1 |
| PayoutOrder.Group.Activate | ahjoorxmr/src/groups/groups.service.ts:450-565 | result and group are those of `Activated`: admin, status, size and order checks, the orders given, and the reset after a failed deployment |
| PayoutOrder.ActivatesIff | ahjoorxmr/src/groups/groups.service.ts:450-509 | activation succeeds if and only if the admin activates a pending, large enough group, the deployment works, and ADMIN_DEFINED orders are a permutation of 0..n-1 |
| PayoutOrder.ActivationLeaves | ahjoorxmr/src/groups/groups.service.ts:450-565 | what each outcome leaves: ACTIVE in round 1 with permuted orders if RANDOM, PENDING in round 0 after a failed deployment, no change after a refusal |
| PayoutOrder.Group.AssignOrders | ahjoorxmr/src/groups/groups.service.ts:488-491 | each member gets the order at its index and changes in nothing else |
| PayoutOrder.RecipientsIffPermutation | ahjoorxmr/src/groups/payout.service.ts:80-91 | each round 1..n has exactly one recipient if and only if the orders are a permutation of 0..n-1 |
| PayoutOrder.ActivationGivesRecipients | ahjoorxmr/src/groups/groups.service.ts:482-509 | after RANDOM or ADMIN_DEFINED activation each round has exactly one recipient |
| PayoutOrder.RemovalKeepsPermutationIff | ahjoorxmr/src/memberships/memberships.service.ts:284-285 | a removal leaves the orders a permutation of 0..n-1 if and only if the removed member was the last in order |
| PayoutOrder.RemovalKeepsRecipientsIff | ahjoorxmr/src/groups/groups.service.ts:461-515 | after any removal SEQUENTIAL activation succeeds if enough members are left, and then each round has one recipient if and only if the removed member was the last in order |
| PayoutOrder.RemovalLeavesRoundEmpty | ahjoorxmr/src/memberships/memberships.service.ts:284-285 | the smallest run with a removal after which a round of a SEQUENTIAL group has no recipient |
| Rounds.RoundService.Distribute | ahjoorxmr/src/groups/payout.service.ts:70-98 | only an unpaid member with the round's order in an ACTIVE group is marked |
| Rounds.RoundService.TryAdvanceRound | ahjoorxmr/src/groups/round.service.ts:36-120 | the round advances exactly when there are active members and all have paid; new state as in `TryAdvance` |
| Rounds.RoundService.Record | ahjoorxmr/src/memberships/memberships.service.ts:573-600 | result and group are those of `RecordPayout`, every refusal included |
| Rounds.AdvancesIffEverybodyPaid | ahjoorxmr/src/groups/round.service.ts:41-67 | the round moves by one if and only if the group is ACTIVE, somebody is active and all who are have paid; otherwise nothing changes |
| Rounds.AdvanceClearsPayments | ahjoorxmr/src/groups/round.service.ts:102-106 | after an advance that is not the last no active member counts as having paid |
| Rounds.SecondAdvanceDoesNothing | ahjoorxmr/src/groups/round.service.ts:53-59 | a second attempt right after such an advance changes nothing |
| Rounds.EveryRoundIsPaidFor | ahjoorxmr/src/groups/round.service.ts:53-106 | between two advances of any run every member active at the second and at the first has paid |
| Rounds.DistributesIff | ahjoorxmr/src/groups/payout.service.ts:70-98 | a payout marks exactly the member with the round's order in an ACTIVE group, if it goes through |
| Rounds.RecordsIff | ahjoorxmr/src/memberships/memberships.service.ts:573-598 | a payout is recorded if and only if the group is ACTIVE and the user is next and not paid yet |
| Rounds.FreshInvariant | ahjoorxmr/src/groups/groups.service.ts:482-509 | distinct orders and no marks are enough for the round invariant to hold at the start |
| Rounds.RunKeeps | ahjoorxmr/src/groups/round.service.ts:36-120 | in every run the round is in 1..total while ACTIVE and total+1 when COMPLETED, paid members' orders are below it, and marks are never undone |
| Rounds.OneMarkPerRound | ahjoorxmr/src/groups/payout.service.ts:80-98 | no two marks of a run share their round or their member |
| Rounds.AdvancePaysIffNotLast | ahjoorxmr/src/groups/round.service.ts:66-97 | advancing marks the finished round's unpaid recipient if and only if the round was not the last |
| Rounds.PaidIffRoundOverAndNotLast | ahjoorxmr/src/groups/round.service.ts:36-120 | in every run without recorded or failing payouts, a member is paid if and only if its round is over and is not the last |
| Rounds.CompletedWithLastUnpaid | ahjoorxmr/src/groups/round.service.ts:66-97 | every fresh group with an active member has a run that completes it with everybody paying, in which the last recipient alone stays unpaid |
| Rounds.LastRoundNotPaidByAdvancing | ahjoorxmr/src/groups/round.service.ts:66-97 | without a recorded payout the last round's member stays unpaid in every run, failing payouts included |
| EventPoller.Listener.HandleParsedEvent | ahjoorxmr/src/event-listener/event-listener.service.ts:296-427 | an event's writes are done in order up to the one that throws, if any |
| EventPoller.Listener.RunEvents | ahjoorxmr/src/event-listener/event-listener.service.ts:126-131 | a transaction's events are applied in order until a handler throws, and none after it |
| EventPoller.Listener.PollNow | ahjoorxmr/src/event-listener/event-listener.service.ts:99-143 | checkpoint, processed set and database after a poll are those of `Poll`; nothing changes without a contract address |
| EventPoller.RunKeeps | ahjoorxmr/src/event-listener/event-listener.service.ts:111-142 | over any polls of any lists the checkpoint never falls between polls and nothing at or below it is applied afterwards |
| EventPoller.AppliedAtMostOnce | ahjoorxmr/src/event-listener/event-listener.service.ts:115-141 | each non-empty hash has its events applied at most once, for arbitrary repeated and overlapping lists |
| EventPoller.ContributionIsLastEvent | ahjoorxmr/src/event-listener/event-listener.service.ts:334-361 | the contribution of an applied transaction is that of its last saved event, in every later state |
| EventPoller.ContributionSaysEvent | ahjoorxmr/src/event-listener/event-listener.service.ts:314-361 | without a throwing handler the stored row has group, user, wallet, amount and round, or round 1, of the transaction's last complete event, in every later state |
| EventPoller.WritesAscendIff | ahjoorxmr/src/event-listener/event-listener.service.ts:108-142 | inside a poll the checkpoint only rises if and only if the handled ledgers ascend |
| EventPoller.LedgerOrderKeepsCheckpointsAscending | ahjoorxmr/src/event-listener/event-listener.service.ts:470-472 | with ledger-ascending lists every checkpoint ever written is at least the one before |
| EventPoller.RunReplays | ahjoorxmr/src/event-listener/event-listener.service.ts:126-141 | the database is always the replay of the applied transactions in order |
| EventPoller.RoundGrowsByCompletions | ahjoorxmr/src/event-listener/event-listener.service.ts:399-403 | without failing handlers a group's round grows by exactly the RoundCompleted events applied for it |
| EventPoller.CutIsFinal | ahjoorxmr/src/event-listener/event-listener.service.ts:126-141 | once a transaction is applied, in whole or up to a throwing handler, later polls apply only transactions with other hashes, and the database changes by nothing else |
| EventPoller.LostRoundsStayLost | ahjoorxmr/src/event-listener/event-listener.service.ts:126-141 | with throwing handlers a round is behind the announced completions by exactly those not reached, and no later poll makes up for any |
| EventPoller.FlagsMeanEvents | ahjoorxmr/src/event-listener/event-listener.service.ts:363-426 | without failing handlers a member is marked paid if and only if a contribution of theirs was applied after the group's last completed round, and marked as recipient if and only if a completed round named them by user, else wallet, else order |
| EventPoller.CaughtUpIffWholeLedgers | ahjoorxmr/src/event-listener/event-listener.service.ts:111-114 | a poll leaves exactly the transactions up to the checkpoint applied if and only if its page does not end inside a ledger |
| EventPoller.SplitLedgerIsLost | ahjoorxmr/src/event-listener/event-listener.service.ts:111-114 | otherwise the transaction after the page's end is applied by no later poll |
| EventPoller.ExactlyOnce | ahjoorxmr/src/event-listener/event-listener.service.ts:99-143 | with whole pages every successful transaction up to the checkpoint is applied exactly once, up to its first throwing handler, and no other is |
| PoisonTracker.Detector.RecordFailure | ahjoorxmr/src/bullmq/poison-message-detector.service.ts:82-154 | tracker and verdict are those of `Record`: count on, start again, or begin and enforce the limit |
| PoisonTracker.Detector.EnforceTrackerLimit | ahjoorxmr/src/bullmq/poison-message-detector.service.ts:252-265 | exactly the oldest entries beyond the limit are deleted, ties by insertion order |
| PoisonTracker.Detector.GetPoisonStatus | ahjoorxmr/src/bullmq/poison-message-detector.service.ts:160-171 | the job's entry, or none after deleting a stale one |
| PoisonTracker.Detector.CleanupStaleEntries | ahjoorxmr/src/bullmq/poison-message-detector.service.ts:240-247 | exactly the stale entries are deleted |
| PoisonTracker.Detector.GetAllPoisonCandidates | ahjoorxmr/src/bullmq/poison-message-detector.service.ts:177-189 | the remaining entries at the threshold, in tracker order |
| PoisonTracker.EvictionByAge | ahjoorxmr/src/bullmq/poison-message-detector.service.ts:252-265 | exactly the limit remains, and no evicted entry was first seen after a kept one |
| PoisonTracker.StatusIff | ahjoorxmr/src/bullmq/poison-message-detector.service.ts:160-171 | a status is given exactly within the time to live, and a stale entry, and no other, is gone afterwards |
| PoisonTracker.VerdictCarries | ahjoorxmr/src/bullmq/poison-message-detector.service.ts:101-153 | the answer carries the threshold and the failure's own signature and error class |
| PoisonTracker.DropsExactly | ahjoorxmr/src/bullmq/poison-message-detector.service.ts:195-206 | clearing, listing and resetting drop exactly the job, the stale entries, and everything |
| PoisonTracker.RunKeepsInvariant | ahjoorxmr/src/bullmq/poison-message-detector.service.ts:82-197 | in every run the limit holds, and a job's entry sums up its failures since it was last dropped: longest one-signature suffix, its first and last times |
| PoisonTracker.VerdictCountsStreak | ahjoorxmr/src/bullmq/poison-message-detector.service.ts:90-153 | the count a failure is answered with is the length of its longest same-signature suffix |
| PoisonTracker.PoisonIffStreakReachesThreshold | ahjoorxmr/src/bullmq/poison-message-detector.service.ts:118-153 | in every run, reporting poison agrees with the streak reaching the threshold if and only if the threshold or the streak is at least 2 |
| PoisonTracker.CandidatesExact | ahjoorxmr/src/bullmq/poison-message-detector.service.ts:177-189 | a job is listed if and only if its streak reaches the threshold and its last failure is not stale |
| PoisonTracker.FailingJobStaysTracked | ahjoorxmr/src/bullmq/poison-message-detector.service.ts:136-145 | on a clock that does not run back a failing job is tracked afterwards if and only if the limit is positive |
| PoisonTracker.InspectionChangesVerdictIff | ahjoorxmr/src/bullmq/poison-message-detector.service.ts:160-171 | reading a job's status changes its next verdict if and only if the entry is stale and that failure would be reported |
| Fx.ToFixedIsNearest | ahjoorxmr/src/fx/fx.service.ts:156 | rounding gives a seven-place value, none is nearer, ties go away from zero |
| Fx.SubmitOkIff | ahjoorxmr/src/fx/fx.service.ts:77-165 | a payment is normalised if and only if it is in the unit of account, or cross-asset is allowed, a rate came and it has not expired |
| Fx.SubmitValue | ahjoorxmr/src/fx/fx.service.ts:132-156 | the exact value is the amount, or the amount times the fetched rate, and normalisation stays within half a unit of it |
| Fx.LockedRateIs | ahjoorxmr/src/fx/fx.service.ts:77-113 | the locked rate is one for the unit of account and the fetched one otherwise, and expires the configured seconds later |
| Fx.AssetsEqualIff | ahjoorxmr/src/fx/fx.service.ts:198-203 | two assets are equal if and only if issuers agree and codes agree letter by letter, whatever the case |
| Fx.SubmitWithinHalfUnit | ahjoorxmr/src/fx/fx.service.ts:124-165 | the normalised amount has seven places and is within half a unit of amount times locked rate; the unit of account itself is unchanged |
| Fx.ComputePayoutAmount | ahjoorxmr/src/groups/payout.service.ts:318-348 | the loop computes `Payout`: the rounded total of confirmed contributions, or the configured amount without any |
| Fx.ConfirmedCount | ahjoorxmr/src/groups/payout.service.ts:323-329 | the rows that count are the confirmed ones of the group and round, each as often as it is stored |
| Fx.PayoutFallback | ahjoorxmr/src/groups/payout.service.ts:331-333 | without a confirmed contribution of the round the payout is the configured amount |
| Fx.PayoutOrderFree | ahjoorxmr/src/groups/payout.service.ts:323-347 | any order of the rows gives the same payout |
| Fx.PayoutIsExactSum | ahjoorxmr/src/groups/payout.service.ts:335-347 | with normalised amounts the payout is exactly their sum, no rounding lost |
| Fx.PayoutOfRawRows | ahjoorxmr/src/groups/payout.service.ts:339-347 | without normalised amounts the payout is within half a unit of the sum of amounts at the rows' own rates, or rate 1 without one |
| Fx.PayoutNearExact | ahjoorxmr/src/groups/payout.service.ts:318-348 | the payout of n normalised contributions is within n half-units of the exact sum of amount times locked rate |
| Fx.BoundIsAttained | ahjoorxmr/src/groups/payout.service.ts:318-348 | for every n payments exist that reach this bound |

## Left out

- Controllers, DTOs, guards, mail, metrics, notifications, webhooks and the other migrations: plumbing without a deep property.
- SHA-256, JWT signing, Redis, BullMQ, TypeORM, Horizon and the Stellar SDK: parameters and steps of the models; unique indexes are taken as the database enforces them.
- ISO date formatting: an audit row's timestamp text and the instant the database orders by are separate fields.
- Stellar anchors and live inserts of audit rows: the chain results are about the backfill and the hash functions, since live inserts compute no hash.
- AuditStore.Store.VerifyLatestAnchor: write-once anchors only.
- BullMQ is not part of the repository: that an add with an existing job id is ignored, that a failed job stays until an operator acts and a completed one until it ages out, and that a stalled job is put back or failed, is taken from its options in `queue.service.ts` and the repository's own design notes.
- Payouts.AtMostOneSubmission: counts submissions made by `distributePayout`; resending the same signed transaction at failover is one submission, and the hash the network answers with is taken to be the transaction's.
- Payout rows can go from CONFIRMED back to SUBMITTED while their creating call is still running; no claim is made that they do not.
- `GroupsService.advanceRound` disburses without a payout row, and the manual payout endpoint accepts any round; neither is part of the runs.
- Payouts and contributions are modelled on values as transition systems, since their steps interleave; updating a loaded entity and saving it later is modelled by a copy each call holds.
- The confirmation worker's lock per transaction hash is modelled by jobs that may be skipped at any time.
- RefreshTokens.RunKeepsInvariant: each refresh is one atomic step, and a newly signed token never equals one issued before; the token version counter and session listing are left out.
- PayoutOrder.SequentialRunIsPermutation: each join, leave and removal is one atomic step; waitlist admission after a departure is not modelled.
- Rounds.RunKeeps: payouts are those of `tryAdvanceRound` and `recordPayout`; trust scores, penalties and reading the current recipient are left out, the outcome of the transfer is a parameter.
- EventPoller.AppliedAtMostOnce: polls do not overlap and do not crash midway; decoding of transaction metadata is left out, events carry the fields the handlers read.
- EventPoller.ExactlyOnce: pages are given as parts of the chain's list; the URL cursor and the limit of 200 are not modelled.
- The failure signature and its canonical text (which is not injective) are parameters of the poison tracker.
- PoisonTracker.RunKeepsInvariant: the limit is a natural number.
- Fx.PayoutNearExact: arithmetic is exact, without the 20 significant digits of decimal.js, and amounts have at most seven places; the amount normalised is the one read from the chain, which the row's own amount need not equal.
- The FX oracle request, tolerance checks of path payments, and defaults for a group's asset codes.
