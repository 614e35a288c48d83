# Verified models of the commitment optimizer's state machines and integer kernels

This Dafny project models the parts of the cloud commitment portfolio optimizer whose correctness only shows over whole
runs or unbounded inputs, and proves what they promise. Each module covers one component:

| Module | Component |
|---|---|
| `RotationChain`, `KeyRotation` | the validator of API-key rotation history; first-run setup, registration and rotation, which write the history, and the reader that setup finds it with |
| `RefreshFamilies` | login, refresh-token rotation with reuse detection (section 4.14.2 of RFC 9700), logout, administration |
| `ManagedCache` | the cache of one asynchronously created and disposed resource |
| `RollingWindow`, `Limiters` | rolling-window limiters and the full log that they summarise |
| `ArgonExecution` | the bounded executor for password hashing |
| `Outbox` | the outbox of adapter events and its workers |
| `SqlPlan` | discovery, validation and running of migration plans |
| `Csv`, `ControlTotals` | the CSV reader, and reconciliation with control totals |
| `Backtest`, `Optimizer` | replay of commitment baselines, and evaluation and choice of candidates |
| `AuditPaging` | keyset paging of the audit log |
| `Common`, `Text`, `Decimal`, `Sorting` | shared vocabulary |

A component that changes state is a class whose methods are proved equal to a specification function on a snapshot
value; its guarantees are lemmas about every finite run of those functions. Transactions that lock the rows they decide
on are single steps; a read made before the lock is a separate step, so interleavings count. Failures are part of the
runs: any statement may fail, a commit may take effect without being acknowledged, a worker may stop for ever. Clocks,
generated ids, remote responses and failures are parameters.

`dafny verify dfyconfig.toml` checks the whole project.

## Where the code does not do what one might expect

For each of these a lemma shows an input, and another states for all inputs exactly when the expected property holds.

- First-run setup refuses a database whose rotation history it cannot read back, and a rotation can make the history
  unreadable for good. The API passes on the caller's note, and one rotation with the note `system:first-run:v1` commits
  and leaves two keys that bear the marker of the first (`KeyRotation.MarkerNoteIsRecordedButRejected`). A request id that
  begins with a tab would pass the database's `btrim` check and fail the validator's `trim` check
  (`KeyRotation.TabbedRequestIdIsRecordedButRejected`); the API generates its request ids and digests, which are
  canonical. A registration before first-run setup leaves no marker (`KeyRotation.RegistrationBeforeSetupIsRejected`).
  Over every run of the three transactions the history is readable if and only if first-run setup committed and every
  transaction that committed was given a trimmed request id, a hexadecimal digest and a note that is not the marker
  (`KeyRotation.ReachableIsAccepted`).
- When the disposer fails, the cache forgets the resource and a later `get` creates a second one
  (`ManagedCache.FailedDisposalAllowsTwoResources`). After any run, two undisposed resources can come about without a
  further failure if and only if a disposer failed in the run (`ManagedCache.SecondResourceIff`). A `get` that waits on a
  close can fail with it (`ManagedCache.WaitingGetCanBreak`), and does exactly when the closed generation's factory or
  disposer failed (`ManagedCache.WaitingGetBreaksIff`).
- An operation counted active before `close` may be invoked after it, because its start precedes its promise job
  (`ArgonExecution.InvocationCanFollowClose`). Of the operations not invoked at the close, exactly those that were started
  can still be (`ArgonExecution.InvokedAfterCloseIff`).
- Workers that stop before their mark let an outbox event be sent up to a thousand times
  (`Outbox.StoppedWorkersCallAgain`), after which the row, for as long as it is first in line, blocks every claim
  (`Outbox.FullRowBlocks`). No event is claimed more than five times if and only if none is claimed while a flight at
  its fifth attempt or later has its mark still to come (`Outbox.PromptRunIff`), and then none is sent more than five
  times.
- Enqueuing an event twice raises in the lifecycle trigger of db/migrations/0023_create_ecosystem_events.sql
  (`Outbox.EnqueuedTwiceIsRefused`), although the statement is written to return the existing row: a known event is
  refused if and only if its row is not retrying (`Outbox.RefusedIff`).
- Reported savings are clamped at zero: a mean loss is reported as no savings (`Optimizer.LossIsReportedAsZero`), and
  they are the rounded mean if and only if that is not negative (`Optimizer.ReportedSavings`).

## Model

| member | source | states |
|---|---|---|
| `RotationChain.ValidateApiKeyRotationChains` | core/tenant/initialization-rotation-chain.ts:41-55 | returns normally exactly for histories whose audits document links and whose keys partition into disjoint chains, one per origin and in its tenant, revoked up to a live last key; the map then sends each origin to that key |
| `RotationChain.CanonicalLinkReads` | core/tenant/initialization-rotation-chain.ts:57-101 | an audit row yields a link exactly when both keys exist and the row documents the revocation of the one and the creation of the other, with no other fields |
| `RotationChain.UniqueMap` | core/tenant/initialization-rotation-chain.ts:157-165 | a map by key exactly when the keys are distinct |
| `RotationChain.FollowLinks` | core/tenant/initialization-rotation-chain.ts:120-139 | the walk from an origin ends, without its cycle guard, on the full chain of that origin |
| `RotationChain.Walk` | core/tenant/initialization-rotation-chain.ts:141-155 | the second walk visits exactly the keys of the origin's chain and never meets its guard |
| `RotationChain.WalkOrigins` | core/tenant/initialization-rotation-chain.ts:120-139 | for walkable state the walks give every origin's full chain and the map of their last keys |
| `RotationChain.PathsMeet` | core/tenant/initialization-rotation-chain.ts:103-155 | two paths from keys that nothing points at meet only at the same place of the same path: why the walks neither cycle nor collide |
| `RotationChain.ChainUnique` | core/tenant/initialization-rotation-chain.ts:120-139 | a start has only one full chain |
| `RotationChain.CanonicalHistoryPasses` | core/tenant/initialization-rotation-chain.ts:41-118 | a canonical history passes every check before the walks |
| `RotationChain.WalkableDetachedRings` | core/tenant/initialization-rotation-chain.ts:103-155 | what passes the degree checks but is not reached from an origin is revoked, linked and closed under links: detached rings |
| `RotationChain.SizeCheckDecides` | core/tenant/initialization-rotation-chain.ts:41-55 | once the degree checks pass, the final size comparison alone decides whether the history is canonical |
| `KeyRotation.ApiKeyStore.InitializeFirstRun` | core/tenant/initialization.ts:164-219 | adds the first key, with the marker note, to a database without keys and registrations, and otherwise nothing |
| `KeyRotation.ApiKeyStore.RegisterTransaction` | core/tenant/registration-repository.ts:43-70 | adds a live key and its succeeded registration together or nothing |
| `KeyRotation.ApiKeyStore.RotateTransaction` | core/tenant/api-key-rotation-repository.ts:47-163 | writes revocation, replacement and audit row together or nothing, whatever statement fails; success is reported exactly when it committed and was acknowledged |
| `KeyRotation.ReadHistory` | core/tenant/initialization-rotation-state.ts:14-58 | reads exactly the histories with one marker key that the validator accepts, and returns the marker and the last key of each origin's chain |
| `KeyRotation.GrownPartition` | core/tenant/api-key-rotation-repository.ts:68-86 | revoking the last key of a chain and linking a new one keeps the partition into chains |
| `KeyRotation.RotationGrowsChain` | core/tenant/api-key-rotation-repository.ts:68-86 | a committed rotation extends the chain that ended in the rotated key, and no other |
| `KeyRotation.InsertionStartsChain` | core/tenant/registration-repository.ts:150-174 | a key that setup or registration inserts is an origin with a chain of its own, and no other chain changes |
| `KeyRotation.RunIsConsistent` | core/tenant/api-key-rotation-repository.ts:47-86 | after any sequence of setups, registrations and rotations, committed, aborted or unacknowledged, the keys partition into chains from the created origins, linked by exactly the committed rotations |
| `KeyRotation.CreatedAreRead` | core/tenant/initialization-rotation-state.ts:18-25 | while no rotation was given the marker note, the origins that the reader finds by note and by registration are those that were created |
| `KeyRotation.OriginIsNoReplacement` | core/tenant/initialization-rotation-chain.ts:103-118 | in a canonical history no origin is the replacement of a rotation |
| `KeyRotation.ReachableIsAccepted` | core/tenant/initialization.ts:97-123 | whatever transactions commit, abort or lose their acknowledgement, the history reads back if and only if first-run setup committed and every transaction that committed was given a trimmed request id, a hexadecimal digest and a note other than the marker |
| `KeyRotation.ReadReachable` | core/tenant/initialization.ts:112-119 | run on any reachable database, the reader succeeds under exactly that condition; its map then has the created origins as keys, the marker among them, sends each to a live key of its tenant, and names every live key |
| `KeyRotation.CanonicalInputsSuffice` | core/tenant/api-key-rotation-service.ts:28-35 | callers that pass only trimmed request ids, hexadecimal digests and other notes meet the condition, whatever commits |
| `KeyRotation.RejectedForGood` | core/tenant/initialization-rotation-state.ts:49-53 | once a transaction has committed other input, the history never reads back, whatever follows |
| `KeyRotation.CurrentKeysAreTheLiveKeys` | core/tenant/initialization-rotation-chain.ts:120-139 | the returned map names the live keys, one per origin, and no others |
| `KeyRotation.MarkerNoteIsRecordedButRejected` | core/tenant/api-key-rotation-input.ts:12-34 | after setup a rotation with the marker's note commits, whatever its request id and digest, and the history never reads back |
| `KeyRotation.TabbedRequestIdIsRecordedButRejected` | core/tenant/initialization-rotation-chain.ts:88-101 | after setup a rotation with a request id that begins with a tab commits, and the history never reads back |
| `KeyRotation.RegistrationBeforeSetupIsRejected` | core/tenant/initialization.ts:101-110 | after a registration in an empty database the history never reads back |
| `RefreshFamilies.SessionStore.RefreshTransaction` | core/tenant/auth-refresh-repository.ts:38-139 | the locked decision: invalid, CSRF failure, inactivity, reuse, expiry or a child token, with its rows committed together or not at all |
| `RefreshFamilies.SessionStore.LoginTransaction` | core/tenant/auth-login-repository.ts:72-184 | a login adds a family with its root token and one audit row, or only a denial row |
| `RefreshFamilies.SessionStore.LogoutTransaction` | core/tenant/auth-logout-repository.ts:49-118 | a logout revokes a live family once and audits it once |
| `RefreshFamilies.RunKeepsInv` | core/tenant/auth-refresh-rotation.ts:33-60 | in every reachable state each family's tokens are one parent chain, all but the last used, idle expiry within the family's absolute expiry, and each revocation by reuse, inactivity or logout has exactly one audit row |
| `RefreshFamilies.UsedTokenHasChild` | core/tenant/auth-refresh-rotation.ts:33-60 | every used token has a child |
| `RefreshFamilies.OneChildPerToken` | core/tenant/auth-refresh-rotation.ts:33-60 | no token has two children |
| `RefreshFamilies.RunExtends` | core/tenant/auth-refresh-repository.ts:59-139 | over any run revocation is permanent, a revoked family gains no token and a used token stays used |
| `RefreshFamilies.RefreshIssuesIff` | core/tenant/auth-refresh-repository.ts:59-84 | a presented token is exchanged exactly when CSRF digest, family, owner, use and both expiries allow and the new ids are fresh |
| `RefreshFamilies.IssuedMarksUsed` | core/tenant/auth-refresh-rotation.ts:14-99 | the exchange marks the token used and appends one unused child that expires at the earlier of idle lifetime and family expiry |
| `RefreshFamilies.ReuseRevokes` | core/tenant/auth-refresh-repository.ts:59-120 | presenting a used token with its CSRF digest to a live family of an active owner revokes it, adds no token and leaves exactly one audit row |
| `RefreshFamilies.AtMostOneIssue` | core/tenant/auth-refresh-repository.ts:38-84 | of all refreshes on one token in a run, at most one is issued |
| `RefreshFamilies.FoundFamilyStaysRight` | core/tenant/auth-refresh-repository.ts:17-57 | the family looked up before the lock is still the token's when the lock is held |
| `ManagedCache.RunKeepsInv` | core/shared/lifecycle.ts:9-52 | the ownership invariant over every interleaving of get, close, factory and disposer |
| `ManagedCache.AtMostOneLive` | core/shared/lifecycle.ts:13-52 | at any moment at most one generation is created and not yet settled by its disposer |
| `ManagedCache.DisposedAtMostOnce` | core/shared/lifecycle.ts:26-52 | each created resource reaches the disposer at most once, and nothing else does |
| `ManagedCache.LateGetNeverHoldsClosed` | core/shared/lifecycle.ts:16-40 | a get that starts after a close never returns the closed generation |
| `ManagedCache.CurrentStaysUntilTaken` | core/shared/lifecycle.ts:20-40 | over any further run a generation stays current until a close or its own failure: a late failure of an old one never clears a newer one |
| `ManagedCache.UndisposedTwiceMeansDisposerFailed` | core/shared/lifecycle.ts:26-52 | a reachable cache with two undisposed resources has a failed disposal |
| `ManagedCache.SecondResourceIff` | core/shared/lifecycle.ts:26-52 | after any run, a further run without disposer failures can reach two undisposed resources if and only if a disposer failed in the run |
| `ManagedCache.FailedDisposalAllowsTwoResources` | core/shared/lifecycle.ts:26-52 | a run with one failing disposer that leads to two undisposed resources |
| `ManagedCache.WaitingGetBreaksIff` | core/shared/lifecycle.ts:16-18 | a get that waits on a settled close fails with it if and only if the factory or the disposer of the closed generation failed |
| `ManagedCache.WaitingGetCanBreak` | core/shared/lifecycle.ts:16-18 | a run in which a get waits on a close, its disposer fails, and so does the get |
| `ManagedCache.Closure.Get` | core/shared/lifecycle.ts:16-25 | the synchronous part of get equals its step: wait, join or create |
| `ManagedCache.Closure.Close` | core/shared/lifecycle.ts:27-35 | the synchronous part of close equals its step: join the closing operation, or take the current generation |
| `RollingWindow.AtMostLimitPerWindow` | core/shared/rolling-window-limiter.ts:49-62 | no half-open interval of window length holds more than the limit of admissions |
| `RollingWindow.RetryIsLeast` | core/tenant/auth-session-limiter.ts:187-193 | the retry time is the least whole number of seconds, at least one, after which there is room |
| `RollingWindow.PrunedRecent` | core/shared/rolling-window-limiter.ts:52-53 | the kept suffix shows the same recent entries as the full log |
| `Limiters.LocalRollingWindowLimiter.Admit` | core/shared/rolling-window-limiter.ts:49-64 | prunes, decides and stores as specified, and refuses after close |
| `Limiters.AdmitRefines` | core/shared/rolling-window-limiter.ts:49-64 | one admission on pruned buckets agrees with the full log in decision, charge and exact wait |
| `Limiters.LocalSessionLimiter.AdmitDual` | core/tenant/auth-session-limiter.ts:149-176 | charges both buckets or neither |
| `Limiters.DualRefines` | core/tenant/auth-session-limiter.ts:149-176 | agrees with the full log: admitted exactly when both have room, and otherwise the wait is the least after which both have |
| `Limiters.SessionDecisionsAreExact` | core/tenant/auth-session-limiter.ts:68-100 | after any calls with a clock that never goes back, every decision and every wait of the session limiter is that of the full log |
| `Limiters.SessionWindowBound` | core/tenant/auth-session-limiter.ts:68-100 | and each key has at most its limit in every window: 5 per account and 20 per address in 15 minutes, 60 per address and 10 per family in 5 |
| `Limiters.SharedDecisionsAreExact` | core/shared/rolling-window-limiter.ts:42-69 | the same for the shared limiter with a fixed rule per key |
| `ArgonExecution.ArgonExecutor.Create` | core/tenant/argon-executor.ts:43-55 | refuses exactly the bounds outside 1..2 and 0..32 |
| `ArgonExecution.ArgonExecutor.Run` | core/tenant/argon-executor.ts:57-71 | starts, queues or refuses as specified |
| `ArgonExecution.ArgonExecutor.Finish` | core/tenant/argon-executor.ts:73-88 | frees the place and drains the queue into the free places |
| `ArgonExecution.ArgonExecutor.CloseExecutor` | core/tenant/argon-executor.ts:90-94 | rejects every queued submission, once |
| `ArgonExecution.RunKeepsInv` | core/tenant/argon-executor.ts:57-94 | over every run: active and queued within bounds and equal to the submissions in those phases, an open executor queues only when full, starts and queue in submission order |
| `ArgonExecution.StartsInSubmissionOrder` | core/tenant/argon-executor.ts:57-88 | a started submission leaves no earlier one queued, and operations are invoked in that order |
| `ArgonExecution.RunAdvances` | core/tenant/argon-executor.ts:57-94 | over any run a settled submission keeps its outcome, and nothing starts after close |
| `ArgonExecution.Conservation` | core/tenant/argon-executor.ts:57-94 | in every reachable state the active, the queued and the settled or refused submissions add up to all submissions |
| `ArgonExecution.InvokedAfterCloseWasActive` | core/tenant/argon-executor.ts:73-94 | an operation first invoked after the close had been started before it |
| `ArgonExecution.InvokedAfterCloseIff` | core/tenant/argon-executor.ts:73-94 | of the operations not invoked when the executor is closed, some further run invokes one if and only if it had been started |
| `ArgonExecution.InvocationsAfterCloseIff` | core/tenant/argon-executor.ts:73-94 | a closed executor can invoke more operations if and only if one is started and not yet invoked |
| `ArgonExecution.InvocationCanFollowClose` | core/tenant/argon-executor.ts:73-94 | a run in which an operation is invoked after close |
| `Outbox.Adapters.EnqueueEvent` | core/adapters/ecosystem-repository.ts:58-87 | inserts exactly for a new key; returns the existing row exactly when it is retrying, and raises exactly when it is not; neither writes |
| `Outbox.RefusedIff` | db/migrations/0023_create_ecosystem_events.sql:94-103 | in every reachable outbox a known key is refused if and only if its row is not retrying |
| `Outbox.EnqueuedTwiceIsRefused` | core/adapters/ecosystem-repository.ts:69-87 | the second of two successive enqueues of any event is refused |
| `Outbox.Adapters.ClaimNext` | core/adapters/ecosystem-repository.ts:105-139 | claims the first due unlocked row in the order of next attempt, creation and id, or reports that none is due |
| `Outbox.Adapters.MarkFlight` | core/adapters/ecosystem-service.ts:144-168 | the guarded update and the catch around it, whether or not it took effect or was acknowledged |
| `Outbox.Adapters.Built` | core/adapters/ecosystem-service.ts:171-193 | the request goes out or the catch is entered: always the catch for a target without a contract |
| `Outbox.Adapters.Responded` | core/adapters/ecosystem-service.ts:130-148 | a 2xx goes on to linking or the sent mark, another status to retry or failure, an error to the catch |
| `Outbox.NextExists` | core/adapters/ecosystem-repository.ts:109-118 | when something is due there is a first due row |
| `Outbox.RunKeepsInv` | core/adapters/ecosystem-repository.ts:105-181 | the invariant behind the following, for any number of workers, crashes, lost acknowledgements and overrun leases |
| `Outbox.TerminalIsPermanent` | core/adapters/ecosystem-repository.ts:105-181 | sent, failed and disabled rows never change, and are never claimed again |
| `Outbox.ReachableRow` | core/adapters/ecosystem-service.ts:121-169 | the count equals the number of claims and bounds the calls; sent only after some worker saw a 2xx, failed only at five attempts or more; invoice-reconciliation events are never sent |
| `Outbox.ClaimPastTheLimit` | core/adapters/ecosystem-service.ts:147-168 | a row claimed past its fifth attempt has no mark of such an attempt that took effect |
| `Outbox.PromptStepIff` | core/adapters/ecosystem-service.ts:121-169 | from a state within the limit, a step stays within it if and only if it is no claim of a row with an unmarked flight at the limit |
| `Outbox.PromptRunIff` | core/adapters/ecosystem-service.ts:121-169 | over every run, no event is claimed more than five times if and only if no row is claimed while a flight of it at the fifth attempt or later has its mark still to come |
| `Outbox.PromptRunsCallFiveTimes` | core/adapters/ecosystem-service.ts:121-169 | in those runs no event gets more than five calls |
| `Outbox.StoppedWorkersCallAgain` | core/adapters/ecosystem-service.ts:121-169 | otherwise any number of calls up to a thousand is possible, of workers that each claim when the lease before has ended |
| `Outbox.FullRowBlocks` | db/migrations/0023_create_ecosystem_events.sql:44-44 | over any run in which every claim finds such a row, at the bound of its count, first in line, no row is claimed and the count stays |
| `Outbox.BackoffDoubles` | core/adapters/ecosystem-service.ts:271-273 | the delay starts at a second, doubles, and is an hour from the thirteenth attempt on |
| `SqlPlan.DiscoverSqlFiles` | core/db/sql-plan.ts:26-96 | succeeds exactly when there are SQL files, all well named and with pairwise different version numbers; the result is a permutation of them in ascending order |
| `SqlPlan.AdjacentIsGlobal` | core/db/sql-plan.ts:86-96 | comparing neighbours of sorted files finds every duplicate |
| `SqlPlan.AcceptsExactlyPrefixes` | core/db/sql-plan-validation.ts:16-73 | accepts exactly the ledgers whose rows, in any order, are those of a prefix of the plan |
| `SqlPlan.NoDriftIsDigits` | core/db/sql-plan-validation.ts:22-73 | every version that is read as a number has been found in the plan, so reading it cannot fail |
| `SqlPlan.AppliedVersions` | core/db/sql-plan-validation.ts:16-26 | the returned map holds the versions of that prefix and no others |
| `SqlPlan.Database.ApplySqlFile` | core/db/sql-runner.ts:71-99 | a file and its ledger row commit together or not at all |
| `SqlPlan.Database.ExecuteSqlPlan` | core/db/sql-runner.ts:41-58 | applies in order from the first file not applied up to the first failure, and reports what it applied, skipped or failed at |
| `SqlPlan.RunKeepsPrefix` | core/db/sql-runner.ts:41-99 | whatever the plan and wherever it fails, a run is refused with nothing changed, or the ledger is a prefix of the plan and the schema the in-order fold of it, before and after |
| `SqlPlan.RunsOnlyAppend` | core/db/sql-runner.ts:41-99 | over any sequence of runs with any plans the ledger stays consistent with the schema and only grows at its end |
| `SqlPlan.ResumesWhereItStopped` | core/db/sql-runner.ts:41-99 | after any failure, a clean run of the same plan skips what is applied, applies the rest and completes it |
| `SqlPlan.CompletedPlanIsStable` | core/db/sql-runner.ts:41-58 | a run after full success applies nothing and changes nothing |
| `Csv.ParseCsv` | core/imports/csv.ts:1-36 | the loop equals the recursive scan |
| `Csv.ReadsWhatIsWritten` | core/imports/csv.ts:1-36 | any records written by section 2 of RFC 4180, quoted where needed or everywhere, with LF or CRLF and with or without a last break, read back as their rows less the blank ones |
| `Csv.RoundTrip` | core/imports/csv.ts:1-36 | rows with a non-blank field each come back unchanged |
| `Csv.ReadingIsIdempotent` | core/imports/csv.ts:1-36 | whatever text is read, its rows survive being written and read again |
| `ControlTotals.ValidateControlTotals` | core/imports/synthetic-csv-parser.ts:145-180 | null exactly when the groups of the rows are the expected ones and each group's sums equal its last expected total |
| `ControlTotals.SameTotals` | core/imports/synthetic-csv-parser.ts:172-180 | comparing sizes and one side's entries decides equality of both maps |
| `ControlTotals.MatchingIsEquality` | core/imports/synthetic-csv-parser.ts:182-190 | comparing texts is comparing amounts, for canonical texts |
| `ControlTotals.TotalKeyInjective` | core/imports/synthetic-csv-parser.ts:208-210 | the joined key tells groups apart, since their texts hold no NUL |
| `ControlTotals.NulMovesBetweenTexts` | core/imports/synthetic-csv-parser.ts:208-210 | and if they could, two groups would share a key: a NUL moves from one text to the next |
| `ControlTotals.ScaledTextReads` | core/imports/synthetic-csv-parser.ts:248-257 | reading the text of a scaled amount gives it back |
| `ControlTotals.ReadingScaledText` | core/imports/synthetic-csv-parser.ts:248-257 | writing the amount of a canonical text gives back the text |
| `ControlTotals.GroupsConserve` | core/imports/synthetic-csv-parser.ts:149-171 | the totals of the groups, in any order, add up to the total of all rows |
| `Decimal.ReadingNumeral` | core/imports/synthetic-csv-parser.ts:182-190 | toString inverts BigInt on canonical numerals |
| `Backtest.ReplayBaseline` | core/backtests/backtest-worker.ts:143-184 | the loop equals the replay in which month i is a function of the months before it and of itself |
| `Backtest.NoLookAhead` | core/backtests/backtest-worker.ts:143-184 | histories that agree on their first n months get the same first n results and the same decision for the month after, whatever that month brings |
| `Backtest.SavingsConserve` | core/backtests/backtest-worker.ts:170-177 | savings and simulated cost add up to the on-demand cost |
| `Backtest.MonthlyRegret` | core/backtests/backtest-worker.ts:151-165 | a month's regret is at most the part of its commitment left unused |
| `Backtest.RegretBounds` | core/backtests/backtest-worker.ts:170-178 | regret is the sum of negative parts, at least the total loss and at most the commitments left unused |
| `Backtest.CommittedCostBounds` | core/backtests/backtest-worker.ts:192-203 | for a discount of 0 to 10000 bps a commitment costs between nothing and its face value |
| `Backtest.BestBaseline` | core/backtests/backtest-worker.ts:109-113 | the first of the results with the greatest savings |
| `Backtest.BuildReplays` | core/backtests/backtest-worker.ts:101-113 | the best baseline saves at least as much as each baseline and never less than nothing |
| `Backtest.MonthlyTotals` | core/backtests/backtest-worker.ts:210-221 | the grouping loop gives each month once, in order, with the sums of its rows |
| `Backtest.TotalsPermute` | core/backtests/backtest-worker.ts:210-221 | the totals, and so every replay, do not depend on the order of the rows |
| `Backtest.TotalsAscend` | core/backtests/backtest-worker.ts:218-220 | the months of the totals strictly ascend |
| `Optimizer.P95DownsideIsLossAtRank` | core/optimizer-runs/optimizer-worker.ts:244-260 | the p95 downside is the loss at sorted cost n - ceil(95n/100) |
| `Optimizer.NetIsMonotone` | core/optimizer-runs/optimizer-worker.ts:254-258 | net saving grows, and loss shrinks, with the cost |
| `Optimizer.UtilizationIsFull` | core/optimizer-runs/optimizer-worker.ts:261-265 | p50 and p95 utilization are 10000 bps whenever the commitment is positive, else 0 |
| `Optimizer.GapBindsOnlyAtZero` | core/optimizer-runs/optimizer-worker.ts:266-267 | when exactly the utilization gap binds: under a tolerance of 0 or more, only at zero commitment |
| `Optimizer.FeasibleMeetsPolicy` | core/optimizer-runs/optimizer-worker.ts:258-268 | feasible exactly when downside, mean saving and utilization gap meet the policy, and then never of high risk |
| `Optimizer.BindingConstraints` | core/optimizer-runs/optimizer-worker.ts:436-447 | lists exactly the violated bounds, in order |
| `Optimizer.ReportedSavings` | core/optimizer-runs/optimizer-worker.ts:278-278 | the reported savings are the rounded mean exactly when it is not negative, as a feasible candidate's is under a policy that asks for 0 or more |
| `Optimizer.LossIsReportedAsZero` | core/optimizer-runs/optimizer-worker.ts:278-278 | for the single cost 0 and any positive rate the rounded mean is negative and the reported savings are zero |
| `Optimizer.RoundedDivIsNearest` | core/optimizer-runs/optimizer-worker.ts:489-493 | rounding is to a nearest integer for either sign |
| `Optimizer.MeanIsBetweenExtremes` | core/optimizer-runs/optimizer-worker.ts:483-487 | the rounded mean lies between the nets of the least and of the greatest cost |
| `Optimizer.CandidateOrder` | core/optimizer-runs/optimizer-worker.ts:457-466 | the comparator is a total preorder and answers oppositely when its arguments change places |
| `Optimizer.CandidatesAreOrdered` | core/optimizer-runs/optimizer-worker.ts:222-235 | the candidates are a sorted permutation of those evaluated, every feasible one before every infeasible one |
| `Optimizer.SelectionIsBest` | core/optimizer-runs/optimizer-worker.ts:83-85 | a candidate is selected whenever one is feasible; it is feasible, has the greatest savings among the feasible and the least downside among ties |
| `AuditPaging.ListIs` | core/audit/audit-service.ts:30-44 | a page holds the first rows in order, and has a cursor exactly when more remain |
| `AuditPaging.WalkDescends` | core/audit/audit-repository.ts:31-55 | whatever is inserted between pages, the rows of a walk strictly descend and match |
| `AuditPaging.WalkMissesNothing` | core/audit/audit-repository.ts:31-55 | whatever is inserted between pages, a finished walk has every row that matched its first query |
| `AuditPaging.WalkIsFirstQuery` | core/audit/audit-repository.ts:31-55 | if only rows above the cursor are inserted, the walk finishes and is exactly the first query's rows in order |
| `AuditPaging.AuditWalk` | core/audit/audit-service.ts:30-44 | and so for a tenant's log: its own rows, each once, strictly descending, on max(1, ceil(m/limit)) pages |

## Left out

- Routes, cookies, pages, loggers, configuration, HTTP, object storage and the Redis variants of the limiters.
- SQL is modelled as row stores with the constraints and triggers that matter; isolation below row locks, connection
  handling and rollback failures beyond "nothing was written" are not modelled.
- First-run setup's counts of tenants and registrations, its comparison of tenant and administrator with the
  configuration, and the idempotency ledger of registrations beyond its succeeded rows. Queries without ORDER BY return
  rows in insertion order.
- Digests (SHA-256, password hashes, token digests) are injective labels; signing of access tokens is left out.
- JSON columns: `exactObject` compares key names joined with NUL, the model compares sets of key names; a JSON column
  cannot hold NUL.
- Timestamp-ordering checks of the schema in rotation and refresh are covered by the case that the transaction aborts.
- Unicode normalisation of imported texts, date parsing, tag parsing and the header checks of imports.
- canonical-usage-parser.ts and aws-cur-csv-parser.ts repeat the reconciliation code modelled here.
- `compareSqlFiles`: the order of files of equal version is left open, since they are refused right after.
- SQL files that end their own transaction, and content that is not valid UTF-8, are not modelled.
- The product in `percentile` is the exact rational pct * n / 100, not a floating-point one; `localeCompare` on months
  is comparison by character code; `Array.prototype.sort` is a stable insertion sort.
- Maps that the source updates in place are value maps held in fields or locals; aliasing of arrays inside them is not
  modelled.
- `last_error` texts of the outbox and the results of its updates, which no caller uses.
- Role checks and the removal of sensitive fields in the audit service, and the encoding of cursors.
- The explanation, frontier and approval fields of optimizer output; forecasts, reports, approvals and the job queue.
