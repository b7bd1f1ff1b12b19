# Verified models of the delivery, authentication and command protocols

This project models the protocols of the server in Dafny 4.11 and proves what they
guarantee. `dafny verify dfyconfig.toml` checks all of it.

## What is modelled

**Credential delivery** (`Delivery*.dfy`). A lease-and-fence work queue. Intents move through
queued, processing, retryable, delivered, permanently failed and cancelled. A worker claims
an intent with a fresh token and a database-clock lease, revalidates, calls the provider outside
any transaction, and finalizes by compare-and-set on its token. Beside the queue stand the
provider-authority rows (generation, circuit version, suspension, probe lease) and the attempt
fences that hold back a generation switch.

- `DeliveryTiming` has the attempt budget and the retry delay.
- `DeliveryTables` has the rows and the effect of each committed transaction as a function.
- `DeliveryDatabase` has the transactions statement by statement, as methods that update a
  `Database` in place; each is proved to have exactly the effect of its function, including the
  roll-back cases.
- `DeliveryProtocol` is the state machine: every committed transaction is one step, workers may
  crash between any two, and a history records authorizations, resolutions and circuit changes.
- `DeliverySafety` and `DeliveryAccounting` hold the invariants, `DeliveryTheorems` and
  `DeliveryClaims` the results, and `DeliveryOverlap` a run that shows where one of them is sharp.
- `DeliverySettlement` rules on answers independently of the code, and `DeliveryOutcomes`,
  `DeliveryEffects` and `DeliveryCircuit` say of the rows before and after it when each transaction
  commits and what it leaves.

**Rate limiting** (`RequestLimiter.dfy`, `RequestLockouts.dfy`). The fixed-window limiter with lockout and opportunistic
deletion of stale rows, compared with one that never deletes, and its bounds over all runs.
`RequestLockouts.dfy` has when a scope is locked out, for how long, and when it reopens.

**WorkOS sessions** (`Workos*.dfy`). Provider sessions, permanent tombstones, one-time exchange of
signed assertions and the local sessions minted from them, across sign-in, use with a sliding idle
window, linking, rotation, logout, disabling and enabling of methods, disabling of a principal,
retirement of a signing key and erasure of a principal. `WorkosLedger` has the transactions as
functions and the runs, `WorkosStore` the same statement by statement, `WorkosSafety` the invariants
and results, and `WorkosReadings` what depends on the order of clock readings. `WorkosSessions` follows
local sessions from the assertion they go back to, and `WorkosEffects` and `WorkosMethods` say when each
transaction commits, why it is refused, and which rows it writes.

**Commands** (`Command*.dfy`). `CommandAdmission` admits commands through a map of weak references to
per-principal semaphores, with every interleaving of lookup, pruning and drop. `CommandCommit` is
the state machine of authority-bearing commands over the shared semaphore and connection pool: a
command keeps a permit, a guarded connection and a transaction as locals, may be dropped at any
wait, and gives its locals back one at a time while other commands and the database act.
`CommandExecution` is the code of one command with its deadlines; each of its statements is one
step of that machine.

**Live counts** (`LiveProjection.dfy`) and **process trees** (`ProcessTree.dfy`).

A run is a sequence of steps. A step that is not enabled changes nothing, so theorems over all
sequences are theorems over all interleavings. What the code does not decide itself (a clock
reading, a fresh identifier, entropy, what a provider answers, which rows others have locked)
is a parameter of the step.

## Assumptions

- A committed transaction is one atomic step; the database clock does not go back in commit order.
- The limiter and the WorkOS ledger read the process clock, the ledger before or during its
  transaction. The ledger's steps may read it in any order, and only the results that name the
  order (`AssertionsExchangeOnce`, `DeadForever`) assume one; the limiter's results assume readings
  that do not go back in commit order, across all processes.
- Tokens and identifiers handed out as fresh are fresh. One worker configuration is fixed per run.
- A claim's fence row is written by the trigger in `crates/database_schema/schema/current.sql:37-58`, so
  a claim and its fence appear together.
- Integers are unbounded, except where 64-bit saturation is the point (the retry cap); the
  saturating additions on clocks never reach their bound.
- The claim columns of an intent, which the schema sets and clears together, are one lease value.
- A future that becomes ready by a deadline is seen as ready; one that is not is cut off at it.
- An acknowledged BEGIN has been processed, and an acknowledged COMMIT or ROLLBACK has ended the
  transaction; otherwise the database may begin or end a transaction whenever it likes.
- Hashes and fingerprints are injective.

## Where the results differ from what the code suggests

- The limiter accepts at most `2 * max - 3` requests in any interval of one window's length, one
  fewer than twice a window's allowance, and this is reached (`IntervalBoundIsTight`). With a limit
  below two it accepts a scope's first request all the same, so the bound `2 * (max - 1)` holds of all
  runs if and only if `max >= 2` (`BoundNeedsTwoAttempts`).
- The lease condition of the attempt budget asks for strictly more than needed: equality would do
  (`LeaseConditionIsSharp`).
- Two calls for one intent can act at once: an uncertain answer keeps its fence but is retried within
  a second or more (`CallsCanOverlap`). This is the only way (`CallsMeetOnlyAfterUncertainAnswers`).
- An assertion can be exchanged twice when processes' clocks disagree across its expiry
  (`BackwardsReadingsExchangeTwice`); `ExchangeableExactly` says exactly when. An idled-out session can
  revive in the same way, and in no other (`RevivesExactly`).
- A tombstone left by disabling a method does not revoke local sessions that had already expired;
  they stay unrevoked but unusable, which is why `TombstonesAreFinal` says revoked or expired while
  `LogoutIsFinal` says revoked.
- An observed unavailability whose generation is no longer the active one rolls the whole
  finalization back (`ObservedUnavailabilitySuspends`).

## Model

| member | source | states |
|---|---|---|
| DeliveryTiming.LeaseCoversAttempt | crates/api/src/identity_delivery.rs:168-221 | With any accepted budget, phases that meet their timeouts back to back end strictly before the provider deadline and more than the margin before the claim can be recovered, although the clock is floored to seconds |
| DeliveryTiming.LeaseConditionIsSharp | crates/api/src/identity_delivery.rs:190-209 | For whole-second leases and margins every schedule meets the deadline if and only if the lease is at least coverage plus margin plus the one-second reserve |
| DeliveryTiming.AcceptedExactly | crates/api/src/identity_delivery.rs:168-221 | A budget is accepted if and only if its parts are in range and every back-to-back schedule ends more than a nanosecond before its deadline |
| DeliveryTiming.CapIsIdeal | crates/api/src/identity_delivery.rs:306-320 | Neither 64-bit saturation nor the exponent clamp at 62 ever shows: the cap is min(base * 2^(n-1), max) over unbounded integers |
| DeliveryTiming.RetryAcceptedExactly | crates/api/src/identity_delivery.rs:100-127 | A retry policy is accepted if and only if base and maximum are whole seconds from one to a day, in order, with one to a hundred attempts |
| DeliveryTiming.RetryDelayIsExact | crates/api/src/identity_delivery.rs:306-328 | The delay is the jittered value floored by the hint up to the maximum, lies in 1..=max, and exceeds the cap only for a hint |
| DeliveryTiming.RetryCapMonotone | crates/api/src/identity_delivery.rs:306-320 | Later attempts never draw from a smaller interval |
| DeliveryTiming.JitterIsFull | crates/api/src/identity_delivery.rs:306-328 | Without a hint the possible delays are exactly 1 up to the cap |
| DeliveryDatabase.Database.LockProviderAuthority | crates/api/src/identity_delivery.rs:1365-1402 | The share-locked look finds the gateway operable exactly when its generation is the active one, has its fingerprint and is not suspended, and tells suspension from discontinuity |
| DeliveryDatabase.Database.EnqueueIntent | crates/api/src/authentication.rs:603-688 | A queued intent for the operable generation, or an error and no change; a credential hash that any intent already has is refused |
| DeliveryDatabase.Database.CancelIntents | crates/api/src/authentication.rs:690-722 | Every unfinished intent of the credential hash is cancelled and loses its claim and envelope, the others are untouched, and the count is the number cancelled |
| DeliveryDatabase.Database.SelectForClaim | crates/api/src/identity_delivery.rs:2497-2542 | The claimable row nobody holds that was created first, and of equally old ones the one with the lowest id; none exactly when there is none |
| DeliveryDatabase.Database.ClaimDelivery | crates/api/src/identity_delivery.rs:2484-2681 | The claim transaction: the row of a revoked credential is cancelled, unclaimed and stripped of its envelope with nothing else changed, whatever the state of the provider; a suspended or foreign provider changes nothing; otherwise the row is leased, its attempt counted unless it is reused, and fenced |
| DeliveryDatabase.Database.RevalidateInvocation | crates/api/src/identity_delivery.rs:2749-2816 | A call is permitted if and only if the claim is held, the credential active, the generation operable, the deadline the claim's own, and deadline, lease and credential all still ahead |
| DeliveryDatabase.Database.PersistUnavailable | crates/api/src/identity_delivery.rs:3244-3278 | Suspends the active generation, keeps the later of two observations, revokes any probe and raises the circuit version; nothing otherwise |
| DeliveryDatabase.Database.SettleOutcome | crates/api/src/identity_delivery.rs:3016-3057 | Agrees with the independent ruling; a next attempt is set exactly for what stays retryable, after exactly the jittered delay or what the answer asks for up to the maximum, and strictly inside the credential's life; delivered and cancelled are never overwritten |
| DeliveryDatabase.Database.ResolveIntent | crates/api/src/identity_delivery.rs:3062-3168 | The compare-and-set on the claim token; a credential revoked meanwhile wins |
| DeliveryDatabase.Database.ReleaseFences | crates/api/src/identity_delivery.rs:3178-3199 | Drops the attempt's own fence unless its completion is uncertain, and the collected batch |
| DeliveryDatabase.Database.FinalizeDelivery | crates/api/src/identity_delivery.rs:3001-3199 | The whole finalization, undone if an observed unavailability cannot be recorded |
| DeliveryDatabase.Database.SwitchGeneration | crates/api/src/identity_delivery.rs:1525-1555 | The active row is retired and cleared, the entrant starts at circuit version 0 |
| DeliveryDatabase.Database.BindProviderAuthority | crates/api/src/identity_delivery.rs:1432-1562 | Startup binding: sweep expired fences, keep the active generation or switch to a fresh one once nothing is live, queued or reused; errors change nothing |
| DeliveryDatabase.Database.LeaseProviderProbe | crates/api/src/identity_delivery.rs:1933-1962 | A probe lease on a suspended circuit without a live lease, raising the version |
| DeliveryDatabase.Database.FinishProviderProbe | crates/api/src/identity_delivery.rs:1992-2034 | The probe's compare-and-set on token and version; only a success needs the lease to be unexpired |
| DeliveryDatabase.CollectedBatchExists | crates/api/src/identity_delivery.rs:3178-3199 | A batch of oldest expired fences exists for every table, and it may be empty only when no fence has expired |
| DeliverySettlement.SettlesAsRuled | crates/api/src/identity_delivery.rs:3009-3057 | The settlement, whose later checks override earlier ones, is one ruling by cases: deliveries and cancellations stand, an expired credential overrides the rest, the last attempt is final, and anything else waits for its delay unless the credential ends first |
| DeliverySettlement.NextAttemptIsExact | crates/api/src/identity_delivery.rs:3039-3051 | For each kind of answer the exact delay: max of 1 + entropy mod the doubling cap and, for a stated or hinted wait, that wait up to the maximum |
| DeliveryOutcomes.FinalizesExactly | crates/api/src/identity_delivery.rs:3169-3177 | A finalization commits unless it would record an unavailable provider for a generation that is no longer the gateway's |
| DeliveryOutcomes.AnswersRead | crates/api/src/identity_delivery.rs:573-590 | Every retryable answer that names the unavailable provider says so, and exactly uncertain failures leave open whether the provider still acts |
| DeliveryOutcomes.FinalizedRowIsExact | crates/api/src/identity_delivery.rs:3060-3168 | In every reachable state a held claim rewrites its own row only: status, code, receipt, delivery time, next attempt and envelope as ruled, or cancelled if the credential was revoked meanwhile |
| DeliveryOutcomes.WaitingTimeIsExact | crates/api/src/identity_delivery.rs:3039-3051 | The delay on the row a finalization leaves, from the row's attempt count, the entropy and what the answer asked for |
| DeliveryOutcomes.FencesReleasedExactly | crates/api/src/identity_delivery.rs:3178-3199 | The attempt's own fence goes if and only if its answer leaves nothing open, the collected batch goes, and every other fence stays as it is |
| DeliveryOutcomes.CollectsOldestFirst | crates/api/src/identity_delivery.rs:3185-3190 | No fence that expired before a collected one is left, and no expired one at all unless a whole batch was taken |
| DeliveryOutcomes.SuspendsExactly | crates/api/src/identity_delivery.rs:3244-3278 | An unavailable answer suspends at the later of two observations, keeps the later one's name, calls off the probe, raises the version by one and changes nothing else |
| DeliveryEffects.EnqueuesExactly | crates/api/src/authentication.rs:603-688 | An intent enters if and only if the gateway serves, the credential lives and its hash is new; it waits from its creation on, and nothing else changes |
| DeliveryEffects.EnqueueRefusals | crates/api/src/authentication.rs:603-688 | Each refusal of an enqueue has exactly its own cause |
| DeliveryEffects.CancelsExactly | crates/api/src/authentication.rs:690-722 | A cancellation ends exactly the unfinished intents of its hash, with its reason, and leaves the others as they are |
| DeliveryEffects.ErasesExactly | crates/identity/src/subject_privacy.rs:2345-2350 | An erasure removes exactly the named intents, and every fence stays |
| DeliveryEffects.RevokedCredentialIsCancelled | crates/api/src/identity_delivery.rs:2559-2572 | A claim that finds a revoked credential's row leaves it cancelled as inactive, unclaimed, without waiting time or envelope, starts no worker, adds no fence and touches nothing else, even under a suspended or foreign provider |
| DeliveryEffects.RevokedCredentialIsNeverClaimed | crates/api/src/identity_delivery.rs:2559-2572 | No claim finds that row again in any continuation |
| DeliveryEffects.UnservedClaimChangesNothing | crates/api/src/identity_delivery.rs:2573-2583 | A claim through a suspended, disabled or foreign gateway writes nothing |
| DeliveryEffects.ClaimReplies | crates/api/src/identity_delivery.rs:2559-2583 | Each reply and error of a claim has exactly its own cause |
| DeliveryEffects.ClaimGrantsExactly | crates/api/src/identity_delivery.rs:2584-2681 | In every reachable state a claim starts a worker if and only if the credential is active and the gateway serves; lease, fence, deadline, provenance and the worker's copy of the row are exact |
| DeliveryEffects.DueExactly | crates/api/src/identity_delivery.rs:2508-2535 | In every reachable state a row is due if and only if it is unfinished and its creation, waiting time or lease end has passed; by hand only a waiting row with the expected count |
| DeliveryEffects.NoIntentIsStuck | crates/api/src/identity_delivery.rs:2497-2681 | From its waking time on, a claim of any unfinished intent through a gateway that serves starts a worker on it or cancels it |
| DeliveryEffects.PreparationDecides | crates/api/src/identity_delivery.rs:2875-2930 | In every reachable state the provider is called if and only if a preparation finds nothing against it, and each finding leads to its own resolution |
| DeliveryCircuit.BindsExactly | crates/api/src/identity_delivery.rs:1432-1562 | A gateway binds if and only if its generation is the active one with the same fingerprint, or is new while no fence is live and no intent unfinished; exactly the expired fences go |
| DeliveryCircuit.RebindsExactly | crates/api/src/identity_delivery.rs:1470-1486 | Binding again moves the binding time forward, calls off exactly a lapsed probe, and keeps the suspension |
| DeliveryCircuit.SwitchesExactly | crates/api/src/identity_delivery.rs:1525-1555 | The entrant starts unsuspended at version 0, the active row is retired with its circuit cleared one version higher, and rows retired before stay |
| DeliveryCircuit.TakesOverOnceQuiet | crates/api/src/identity_delivery.rs:1487-1555 | Once everything is quiet a new generation can take over, and is then the only one in service |
| DeliveryCircuit.LeasesExactly | crates/api/src/identity_delivery.rs:1933-1962 | A probe is leased if and only if the circuit is suspended and no unexpired lease probes it; each other case has its own reply |
| DeliveryCircuit.ProbesExactly | crates/api/src/identity_delivery.rs:1992-2034 | A probe's answer counts if and only if its lease is the circuit's last event, and unexpired for good news; good news ends the suspension, bad news renews it at the later observation |
| DeliveryCircuit.ProbeLeadsOut | crates/api/src/identity_delivery.rs:1933-2034 | A probe leased and answered in time with nothing in between leaves a suspended provider operable |
| DeliverySafety.Reachable | crates/api/src/identity_delivery.rs:1432-3278 | The invariants of rows, fences, claims, workers, authorizations and history hold in every run |
| DeliverySafety.StepKeeps | crates/api/src/identity_delivery.rs:1432-3278 | Every step of the protocol keeps those invariants |
| DeliverySafety.SettledRowOk | crates/api/src/identity_delivery.rs:3016-3057 | A settled row is terminal or waits strictly after now and strictly before its credential expires |
| DeliverySafety.AuthorizeKeeps | crates/api/src/identity_delivery.rs:2791-2816 | A permitted call is authorized with its fence already in place |
| DeliverySafety.FreshClaimRow | crates/api/src/identity_delivery.rs:2585-2657 | A committed claim leaves a well-formed row, a fence until the lease ends, and a worker whose copy matches the row and whose number is allowed |
| DeliveryTheorems.OneGeneration | crates/api/src/identity_delivery.rs:1432-1562 | At most one generation is active, and every unfinished intent, unexpired fence and call that may still take effect belongs to it |
| DeliveryTheorems.StepRetains | crates/api/src/identity_delivery.rs:1470-1480 | Every step keeps retained generations, and every change of a circuit or lifecycle strictly raises the circuit version |
| DeliveryTheorems.GenerationsAreForever | crates/api/src/identity_delivery.rs:1510-1524 | A generation name is never forgotten, refingerprinted or reactivated, and its circuit version never falls |
| DeliveryTheorems.CallsStayFenced | crates/api/src/identity_delivery.rs:2651-2657 | From authorization to effect deadline a call's fence is present unless its own definitive finalization committed |
| DeliveryTheorems.DefinitiveOnlyByOwnFinalization | crates/api/src/identity_delivery.rs:3009-3013 | Only the token's own finalization, with an outcome that is not uncertain, releases it |
| DeliveryTheorems.OnlyBindRetires | crates/api/src/identity_delivery.rs:1525-1540 | Only binding a different generation takes one out of service |
| DeliveryTheorems.NoSwitchWhileCallsMayTakeEffect | crates/api/src/identity_delivery.rs:1487-1500 | At every switch all effect deadlines of unresolved calls have passed, whatever crashed, was cancelled or lost its claim |
| DeliveryTheorems.TokensResolveOnce | crates/api/src/identity_delivery.rs:3062-3168 | No claim token resolves two finalizations |
| DeliveryTheorems.UnheldFinalizeChangesNothing | crates/api/src/identity_delivery.rs:3062-3168 | One finalization by a worker that does not hold its claim changes no intent and resolves nothing |
| DeliveryClaims.LostForever | crates/api/src/identity_delivery.rs:2484-2681 | A token that no row carries any more is never on a row again, over every continuation |
| DeliveryClaims.LostClaimsChangeNothing | crates/api/src/identity_delivery.rs:3062-3168 | Once its claim is lost, a worker changes no intent and resolves nothing, whenever in any continuation its finalization runs |
| DeliveryClaims.ClaimsAreLostByTouching | crates/api/src/identity_delivery.rs:2497-2542 | The claim on a processing row is lost if and only if a step touches the row |
| DeliveryClaims.EveryEndingTouches | crates/api/src/authentication.rs:690-722 | Recovery by another token, cancellation of the credential and erasure each touch the row, so they lose the claim |
| DeliveryClaims.FinalizationLoses | crates/api/src/identity_delivery.rs:3062-3168 | A token's own committed finalization loses the claim, hit or miss |
| DeliveryClaims.EarlierCallIsOver | crates/api/src/identity_delivery.rs:2604-2657 | Of any two calls authorized for one intent in any run, one had been finalized, definitively or uncertainly, or lay past its effect deadline by the margin, when the other was authorized |
| DeliveryClaims.CallsMeetOnlyAfterUncertainAnswers | crates/api/src/identity_delivery.rs:3009-3013 | A later call is authorized inside an earlier one's deadline and margin with the earlier still unresolved if and only if the earlier's finalization before that was an uncertain answer |
| DeliveryOverlap.CallsCanOverlap | crates/api/src/identity_delivery.rs:3178-3199 | A run of an accepted configuration in which two calls for one intent are unresolved inside their deadlines at once |
| DeliveryClaims.OneIntentPerCredential | crates/database_schema/schema/current.sql:2667-2668 | In every run a credential hash belongs to at most one intent |
| DeliveryTheorems.FinalizeEffect | crates/api/src/identity_delivery.rs:3062-3168 | A finalization changes at most the row whose claim it holds |
| DeliveryTheorems.WhoMayChangeAClaimedIntent | crates/api/src/identity_delivery.rs:2497-2542 | A processing row changes only by its own token's finalization, a claim at or after its lease's end, a cancellation of its credential, or an erasure |
| DeliveryTheorems.TerminalStep | crates/api/src/authentication.rs:690-722 | No step touches a finished intent, and only an erasure removes it |
| DeliveryTheorems.TerminalIsAbsorbing | crates/api/src/identity_delivery.rs:2497-2542 | Delivered, permanently failed and cancelled rows stay exactly as they are over all continuations |
| DeliveryTheorems.ClearedOnlyByCurrentProbe | crates/api/src/identity_delivery.rs:1992-2034 | A suspension is cleared only through a probe that was unexpired and leased after every earlier observation or lease of that generation |
| DeliveryTheorems.SuspensionEndsInClearing | crates/api/src/identity_delivery.rs:1992-2034 | While a generation stays active its suspension ends in no other way |
| DeliveryTheorems.ObservedUnavailabilitySuspends | crates/api/src/identity_delivery.rs:3169-3177 | An observed unavailability leaves the provider suspended without a probe and one version higher, and is logged, even when the claim was lost; it writes nothing when the generation is no longer owned |
| DeliveryTheorems.AttemptsAreAccountedFor | crates/api/src/identity_delivery.rs:2585-2657 | Counts stay in 0..=max, call numbers in 1..=max, the count is exactly the finalized calls plus the open one, and at most max calls are finalized per intent |
| DeliveryTheorems.RowsMeetTheSchema | crates/database_schema/schema/current.sql:783-855 | The schema's shape, expiry, lifecycle and time checks hold of every reachable intent, fence and authority row |
| DeliveryTheorems.RetryChainsAreFinite | crates/api/src/identity_delivery.rs:3016-3057 | A waiting intent's next attempt lies strictly between its finalization and its credential's expiry, and without explicit retries it is rescheduled fewer times than its life has seconds |
| DeliveryTheorems.NextAttemptAdvances | crates/api/src/identity_delivery.rs:2512-2521 | Under automatic processing a later waiting time is strictly later, so the remaining slack strictly shrinks |
| DeliveryTheorems.RecoveryWindowsAreDisjoint | crates/api/src/identity_delivery.rs:2604-2657 | Across a lease recovery the old effect window ends at least the margin before the new claim begins |
| DeliveryTheorems.NotRecoverableMeanwhile | crates/api/src/identity_delivery.rs:2497-2542 | While an attempt that meets its timeouts runs, no claim can take its row over and the clock does not turn it away |
| DeliveryAccounting.RunAccounts | crates/api/src/identity_delivery.rs:2585-3057 | The accounting of attempts, retries and circuit versions holds in every run |
| DeliveryAccounting.ClaimedRowAccounts | crates/api/src/identity_delivery.rs:2585-2603 | A claim opens a fresh number or takes over the open one: lease recoveries and calls never made consume none |
| DeliveryAccounting.ResolvedRowAccounts | crates/api/src/identity_delivery.rs:3028-3057 | A finalization that called the provider closes exactly one number, and the finalized calls stay within the limit |
| RequestLimiter.Limiter.EnforceRequestLimit | crates/api/src/authentication.rs:213-301 | One request against the table: a locked-out scope waits for the end of its lockout and nothing is written, any other refusal locks the scope out for the whole lockout from now; the new table |
| RequestLimiter.CleanupIsInvisible | crates/api/src/authentication.rs:233-255 | Every request of every run gets the same decision and retry-after as without any deletion |
| RequestLimiter.IntervalBound | crates/api/src/authentication.rs:257-300 | Any half-open interval of one window's length accepts at most 2 * max - 3 requests of a scope |
| RequestLimiter.IntervalBoundIsTight | crates/api/src/authentication.rs:257-300 | That bound is reached |
| RequestLimiter.BoundNeedsTwoAttempts | crates/api/src/authentication.rs:257-300 | The bound 2 * (max - 1) holds of all runs if and only if the limit is at least two |
| RequestLimiter.WindowBound | crates/api/src/authentication.rs:257-300 | Each window accepts at most max - 1 requests |
| RequestLockouts.RefusalLasts | crates/api/src/authentication.rs:213-301 | In every run a refusal at T of a scope that was not locked out is followed, until T plus the lockout, by refusals of that scope only, each with exactly the time that remains |
| RequestLockouts.ReopensExactly | crates/api/src/authentication.rs:257-300 | The scope's first request at or after the end of a lockout is accepted if and only if the window the lockout began in is over |
| RequestLockouts.ReopensAfterLockout | crates/api/src/authentication.rs:257-300 | With a lockout at least as long as the window it is always accepted |
| RequestLockouts.LocksOutExactly | crates/api/src/authentication.rs:257-300 | A scope is locked out if and only if its window is still open and has accepted all it may |
| RequestLockouts.OtherScopesAreKept | crates/api/src/authentication.rs:233-255 | Another scope's row goes if and only if the cleanup reached it, it is older than the retention and it is not locked out; otherwise it stays as it is |
| WorkosStore.Store.EnforceTombstoneBoundary | crates/api/src/auth_http.rs:1457-1493 | No rejection if and only if there is neither kind of evidence; a logout is asked for if and only if the subject is not erased and the session is tombstoned |
| WorkosStore.Store.ClaimProviderSession | crates/api/src/auth_http.rs:1586-1673 | Collect expired exchanges, bind or refresh the provider session of exactly this identity, and consume the assertion once |
| WorkosStore.Store.EndProviderSession | crates/api/src/auth_http.rs:1678-1727 | Seal the active session of this identity at a time no earlier than it was last seen and leave its tombstone |
| WorkosStore.Store.IsEligible | crates/identity/src/session.rs:2310-2526 | Unrevoked, unexpired, not idle too long, of an active principal, an active method and an unretired signing key |
| WorkosStore.Store.UseSession | crates/identity/src/session.rs:2433-2461 | Only the used session's idle window moves, only while it is live, only forward, exactly once a quarter of it is gone, then all the way, and never past its expiry or one full window from now |
| WorkosStore.Store.IsCompletedLogout | crates/identity/src/session.rs:1999-2060 | In every ledger a run leads to: a revoked session in its lifetime whose provider session has left a tombstone, and no other |
| WorkosSafety.CompletedLogoutExactly | crates/api/src/auth_http.rs:3371-3392 | The join on the sealed provider row asks nothing beyond the tombstone |
| WorkosStore.Store.EnableMethod | crates/api/src/auth_http.rs:3275-3285 | A disabled method of an active principal that no provider subject is bound to becomes active |
| WorkosStore.Store.RetireSigningKey | crates/identity/src/session.rs:2829-2890 | The key is retired and every live session it vouched for revoked |
| WorkosStore.Store.LogoutSession | crates/api/src/auth_http.rs:3359-3460 | A completed logout is a read; otherwise end the provider session and revoke its whole local scope, or change nothing |
| WorkosStore.Store.RotateSession | crates/identity/src/session.rs:2086-2250 | An eligible session is revoked as of now; a fresh successor inherits principal, method, provider session, key, expiry and authentication time, unrevoked, with as much idle window as one full window and the expiry allow; no other session changes |
| WorkosStore.Store.ResolveSubject | crates/identity/src/workos.rs:1014-1150 | The active identity of an active principal under an unretired key, or a fresh admission that never takes over a bound subject |
| WorkosStore.Store.CreateSession | crates/api/src/auth_http.rs:1758-1860 | Sign-in: resolve, claim, and mint one session that ends after its time to live or with its assertion, whichever is first, idles out likewise, carries the assertion's provider session and key and the subject's identity, and is authenticated no later than the assertion was issued; any failure changes nothing |
| WorkosStore.Store.IssueSession | crates/identity/src/session.rs:787-823 | Mints exactly if the session would live at all under a fresh reference, with both bounds on expiry and idle expiry reached or kept |
| WorkosStore.Store.AttachSubject | crates/identity/src/workos.rs:1169-1266 | For an active principal and key, attach a new identity or reactivate a disabled one of the same principal; a linked one is refused |
| WorkosStore.Store.AddWorkosMethod | crates/api/src/auth_http.rs:2258-2390 | Link with recent authentication: a completed link is a read, otherwise attach, claim and end in one transaction; any failure changes nothing |
| WorkosSafety.Reachable | crates/api/src/auth_http.rs:1457-1727 | The ledger's invariants hold in every run, with clock readings in any order |
| WorkosSafety.StepKeeps | crates/api/src/auth_http.rs:1457-1727 | Every transaction keeps them, however far its reading lies behind earlier ones |
| WorkosSafety.LogoutIsFinal | crates/api/src/auth_http.rs:3408-3460 | After a committed logout no run, with readings in any order, has or creates an unrevoked local session of that provider session; the tombstone stays, and the row stays logged out no earlier than it was last seen |
| WorkosSafety.TombstonesAreFinal | crates/identity/src/methods.rs:133-190 | Whatever ended a provider session, with readings in any order, its local sessions are revoked or expired by the latest reading, and one ended by a link never has any |
| WorkosSafety.OneOwnerForEver | crates/api/src/auth_http.rs:1604-1646 | With readings in any order, a provider session and its local sessions belong to one subject, principal and method for ever |
| WorkosReadings.AssertionsExchangeOnce | crates/api/src/auth_http.rs:1648-1672 | No run with ordered readings exchanges an assertion twice, although exchange rows are deleted |
| WorkosReadings.ExchangedTwiceOnlyBackwards | crates/api/src/auth_http.rs:1600-1603 | In any run, an assertion exchanged twice was collected in between at a reading on or after its expiry and exchanged again at one before it |
| WorkosSafety.ExchangeableExactly | crates/api/src/auth_http.rs:1594-1603 | An otherwise acceptable assertion can be exchanged if and only if each earlier exchange of it was followed by one that read the clock at or after its expiry |
| WorkosReadings.BackwardsReadingsExchangeTwice | crates/api/src/auth_http.rs:1594-1603 | A run of three sign-ins whose readings run back exchanges one assertion twice |
| WorkosReadings.SpentForever | crates/identity/src/session.rs:2086-2143 | A revoked or expired session stays so over every continuation, in any order of readings |
| WorkosReadings.DeadForever | crates/identity/src/session.rs:2494-2526 | With ordered readings a session that is no longer live, idle windows included, is never live again |
| WorkosReadings.RevivesExactly | crates/identity/src/session.rs:2433-2461 | A session that is not live by the latest reading is live again if and only if an eligible use at an earlier reading slides its idle window past the latest one |
| WorkosSessions.SignInMints | crates/identity/src/session.rs:787-823 | A committed sign-in adds exactly one session, within the assertion's expiry and the time to live with one of them reached, and likewise for its idle window |
| WorkosSessions.NoSessionOutlivesItsAssertion | crates/identity/src/session.rs:787-823 | In every run a session with a provider session goes back, through uses and rotations, to an assertion of that provider session and key, and ends no later than it expires; its authentication is no more recent |
| WorkosSessions.RotatesExactly | crates/identity/src/session.rs:2086-2190 | Exactly an eligible session is rotated; predecessor revoked now, successor inheriting all but the idle window, every other session and table unchanged |
| WorkosSessions.RotationHandsOver | crates/identity/src/session.rs:2086-2190 | After a rotation the predecessor is eligible at no reading in any continuation, and the successor at once |
| WorkosSessions.RevokedForever | crates/identity/src/session.rs:2129-2143 | A revoked session keeps its revocation time and is eligible at no reading in any continuation |
| WorkosSessions.EligibleExactly | crates/identity/src/session.rs:2310-2526 | In every run a session is eligible if and only if it is live, its principal active, its method active and its key unretired; the other checks follow |
| WorkosEffects.ClaimWrites | crates/api/src/auth_http.rs:1586-1673 | A claim writes the provider session's row at the later times seen and the consumed assertion, and collects exactly the expired exchanges |
| WorkosEffects.ClaimRefusals | crates/api/src/auth_http.rs:1586-1673 | Each refusal of a claim has exactly its own cause |
| WorkosEffects.EndsExactly | crates/api/src/auth_http.rs:1678-1727 | Exactly an active provider session of this identity ends, at the later of now and when it was last seen, which its tombstone records |
| WorkosEffects.SignsInExactly | crates/api/src/auth_http.rs:1758-1860 | A sign-in commits if and only if the assertion is unexpired, unconsumed and under an unretired key, nothing denies it, the subject has or is admitted an identity, and the provider session is its own if there is one |
| WorkosEffects.SignInRefusals | crates/api/src/auth_http.rs:1758-1860 | A sign-in asks for a logout, reports an existing link or a consumed assertion exactly in those cases |
| WorkosEffects.SignInWrites | crates/api/src/auth_http.rs:1758-1860 | Besides the session, a sign-in writes the admitted identity if any, the provider session's row and the consumed assertion |
| WorkosEffects.LogsOutExactly | crates/api/src/auth_http.rs:3359-3460 | A logout commits if and only if it is complete already or the session is eligible and its provider session has not ended |
| WorkosEffects.LogoutWrites | crates/api/src/auth_http.rs:3408-3460 | It revokes now exactly the unrevoked sessions of the same principal and provider session, and seals that provider session with its tombstone |
| WorkosMethods.LinksExactly | crates/api/src/auth_http.rs:2305-2365 | A link that is not complete commits if and only if the assertion is unconsumed and acceptable, the subject may become the caller's, and nobody has signed in with the provider session |
| WorkosMethods.LinkRefusals | crates/api/src/auth_http.rs:2258-2365 | A link asks for recent authentication or a logout, or reports an existing link, exactly in those cases |
| WorkosMethods.LinkWrites | crates/api/src/auth_http.rs:2325-2365 | A committed link binds the subject by an active method of the caller, records the provider session as seen and ended now, consumes the assertion in the session's name, and mints nothing |
| WorkosMethods.LinkReadsItsOwn | crates/api/src/auth_http.rs:1534-1581 | In every run a link that changes nothing repeats one that this very session committed with this very assertion, and reports the method linked then |
| WorkosMethods.DisableWrites | crates/identity/src/methods.rs:97-190 | Disabling seals exactly the method's active provider sessions, each with a tombstone, and revokes exactly its unrevoked, unexpired local sessions |
| WorkosMethods.MethodsAreGivenExactly | crates/api/src/auth_http.rs:3275-3285 | A method is registered or enabled again exactly for an active principal, under a fresh name or when no provider subject is bound to it |
| WorkosMethods.RevokesExactly | crates/identity/src/session.rs:2829-2890 | A key's retirement revokes exactly the live sessions it vouched for |
| WorkosMethods.ErasureDenies | crates/identity/src/subject_privacy.rs:2241-2312 | Erasing a principal removes exactly its subjects and provider sessions and leaves evidence against each, turns its methods off, and keeps what belongs to others |
| WorkosMethods.ErasureRevokes | crates/identity/src/subject_privacy.rs:2286-2325 | Exactly its sessions are revoked and lose their provider session, and exactly the exchanges of its provider sessions go |
| WorkosMethods.ErasedForever | crates/identity/src/subject_privacy.rs:2241-2325 | In no continuation is a session of an erased principal eligible, or one of its subjects signed in or linked |
| WorkosSafety.ClaimIsFirst | crates/api/src/auth_http.rs:1594-1603 | At a reading no earlier than every exchange's, an assertion that can be claimed was never exchanged |
| WorkosSafety.LinkIsIdempotent | crates/api/src/auth_http.rs:1534-1581 | Retrying a committed link while assertion, session and recent authentication hold changes nothing and reports the same method |
| WorkosSafety.LogoutIsIdempotent | crates/api/src/auth_http.rs:3368-3404 | Retrying a logout is a read if the session had a provider session and would still live, and refused otherwise |
| WorkosSafety.RetiredKeysVouchForNothing | crates/identity/src/session.rs:2829-2920 | After a key's retirement, with readings in any order, no session of that key is live by the latest reading or eligible at any |
| CommandAdmission.AdmissionSlots.TakeGlobalPermit | crates/api/src/command_http.rs:95-102 | A global permit exactly when one is free |
| CommandAdmission.AdmissionSlots.PrincipalSlots | crates/api/src/command_http.rs:103-113 | Under the lock: prune dead entries, then share the live semaphore or list a new one |
| CommandAdmission.AdmissionSlots.TryPrincipalPermit | crates/api/src/command_http.rs:114-120 | The principal's permit, or a refusal that gives the global permit and the reference back |
| CommandAdmission.AdmissionSlots.Drop | crates/api/src/command_http.rs:85-88 | Dropping an admission returns both permits |
| CommandAdmission.Reachable | crates/api/src/command_http.rs:85-126 | In every interleaving owners are listed, permits exclusive and the capacity kept |
| CommandAdmission.AdmissionBounds | crates/api/src/command_http.rs:85-126 | At most one command per principal and at most the global capacity are in flight |
| CommandAdmission.OneLiveSemaphorePerPrincipal | crates/api/src/command_http.rs:103-113 | Commands of one principal share one semaphore and commands of different ones never do |
| CommandAdmission.RefusedOnlyByOwnPrincipal | crates/api/src/command_http.rs:114-120 | A principal's permit is refused if and only if another command of the same principal has it |
| CommandAdmission.PruneKeepsTheLiving | crates/api/src/command_http.rs:105-105 | Pruning keeps an entry if and only if some command of that principal owns its semaphore |
| CommandAdmission.PrunedMapIsSmall | crates/api/src/command_http.rs:105-105 | After pruning the map has no more entries than commands past the lookup |
| CommandAdmission.AdmitsExactly | crates/api/src/command_http.rs:95-126 | From every reachable state an uninterrupted admission succeeds if and only if a global permit and the lock are free and the principal has no other command; refused, it leaves commands and permits as they were |
| CommandAdmission.LeavingGivesBack | crates/api/src/command_http.rs:85-126 | From every stage leaving gives back the global permit, the principal's permit and the lock, and nothing of any other command |
| CommandCommit.Reachable | crates/api/src/command_http.rs:133-188 | In every interleaving of commands, cancellations and database actions the permits add up, every log is in order, and connections are owned once |
| CommandCommit.StepKeeps | crates/api/src/command_http.rs:240-335 | Every wait's end and every drop of a local keeps that |
| CommandCommit.WokenOk | crates/api/src/command_http.rs:240-335 | However a wait ends, what the command holds and has logged fits the wait it goes to |
| CommandCommit.UnwoundOk | crates/api/src/command_http.rs:133-188 | Dropping the next local keeps that, in the order transaction, guard, permit |
| CommandCommit.ConnectionsNeedPermits | crates/api/src/command_http.rs:246-257 | In every interleaving commands have no more connections out than permits, hold no more permits than slots, and whoever has a connection has a permit |
| CommandCommit.PoolIsClean | crates/api/src/command_http.rs:133-188 | In every interleaving a pooled connection has no open transaction and no BEGIN on its way, and no connection is held twice |
| CommandCommit.EveryFinishedCommandIsSound | crates/api/src/command_http.rs:240-335 | Every finished command's log is sound: refused or expired means no commit was issued, success means it was acknowledged, the connection was returned only after an acknowledgement and closed otherwise, and the permit was dropped last |
| CommandExecution.AuthorityPool.TryPermit | crates/api/src/command_http.rs:246-256 | A permit exactly when one is available |
| CommandExecution.AuthorityPool.Unwind | crates/api/src/command_http.rs:133-188 | Drops every local that is left, whichever way the command ended |
| CommandExecution.AuthorityPool.Execute | crates/api/src/command_http.rs:240-335 | Permit conserved, log sound, the pool short of exactly a connection that was closed; end within lease plus cleanup and before any cutoff gives up; the outcome is the one its script comes to, committed if and only if every stage succeeds within one lease; a commit is issued if and only if the operation succeeded in time |
| CommandExecution.FateExactly | crates/api/src/command_http.rs:240-335 | Each of the six outcomes if and only if its own conditions on the waits: which were answered in time, which ran out, and whether the request was dropped |
| CommandExecution.AuthorityPool.RunTransaction | crates/api/src/command_http.rs:262-304 | From BEGIN on: when a commit is issued, when it succeeds, and what a refusal comes to |
| CommandExecution.AuthorityPool.Refuse | crates/api/src/command_http.rs:285-295 | A refused operation issues no commit; the connection is released if and only if the rollback was acknowledged in time |
| CommandExecution.AuthorityPool.CommitTransaction | crates/api/src/command_http.rs:306-333 | Success if and only if the commit was acknowledged in time, an unknown outcome or a dropped request otherwise |
| CommandExecution.AuthorityPool.CloseConnection | crates/api/src/command_http.rs:155-188 | Closing takes at most the cleanup reserve and the connection ends closed even when interrupted |
| CommandExecution.TimeoutAt | crates/api/src/command_http.rs:240-335 | A wait ends by the deadline, with an answer exactly when one came by then |
| LiveProjection.DeltasExact | crates/api/src/live_projection.rs:141-179 | A delta is published if and only if its row is new or changed, or its key is gone |
| LiveProjection.MentionsExact | crates/api/src/live_projection.rs:141-179 | The deltas mention exactly the keys at which the snapshots differ |
| LiveProjection.DiffReachesCurrent | crates/api/src/live_projection.rs:141-179 | Applying the deltas to a base yields the current counts if and only if the base agrees with them wherever the previous counts did |
| LiveProjection.ChainedUpdatesCompose | crates/api/src/live_projection.rs:141-179 | Following a chain of updates ends on the last snapshot |
| LiveProjection.DeltaCountExact | crates/api/src/live_projection.rs:141-179 | One delta per differing key |
| LiveProjection.DeltasKeepRowOrder | crates/api/src/live_projection.rs:141-179 | Changes come before removals, changes in the order of the current rows and removals in the order of the previous ones |
| LiveProjection.PublishesUnlessClean | crates/api/src/live_projection.rs:180-194 | Nothing is published if and only if the counts are the same or unasked for and nothing else is dirty |
| LiveProjection.PublishesAsAsked | crates/api/src/live_projection.rs:180-194 | A published update is for the game asked, leads a subscriber of the previous snapshot to the current counts, and carries thread position and dirty marks unchanged |
| LiveProjection.Publisher.BeginInflight | crates/api/src/live_projection.rs:62-74 | One more live guard for the game, and counts that match the live guards |
| LiveProjection.Publisher.EndInflight | crates/api/src/live_projection.rs:75-85 | One fewer, with the entry removed at zero |
| LiveProjection.Publisher.HasInflight | crates/api/src/live_projection.rs:86-91 | True exactly while a guard of the game is live |
| ProcessTree.DescendantPids | scripts/with-heavy-build-lock.py:59-68 | Terminates on every table with exactly the least child-closed set containing the root |
| ProcessTree.HasSccacheAncestor | scripts/with-heavy-build-lock.py:71-90 | True if and only if the process descends from a table process that is sccache |

## Left out

- SQL, isolation levels, advisory locks and `SKIP LOCKED`: a transaction is one atomic step, and the rows others hold are a parameter.
- HTTP, JSON, encryption, hashing and token verification: provider answers and verification results are parameters.
- The worker loop, its semaphores and its wake-ups, and re-sealing of envelopes: they decide when a step runs, not what it does.
- Audit rows, tracing and response bodies: they record steps.
- DeliveryTheorems.AttemptsAreAccountedFor: does not bound raw provider calls, because a crash after a call and before its finalization repeats the number.
- DeliveryTheorems.TokensResolveOnce: is about claim tokens; the same intent may be resolved again under a later claim's token.
- DeliveryDatabase.Database.FinalizeDelivery: the batch that the collection subquery selects is a parameter, constrained to be an oldest-expired batch of at most its limit.
- RequestLimiter.IntervalBound: assumes one limit per scope, retention at least the window, a lockout of at least a second and a clock that does not go back.
- The limiter of failed credential attempts (`record_failed_auth_attempt`, `clear_auth_attempt_failures`): the same window and lockout rules over a different key.
- WorkosStore.Store.IsEligible: assurance levels, method kinds and local-proof instances are reduced to whether a session has a method, a provider session and a signing key.
- WorkosStore.Store.AddWorkosMethod: the checks made before the transaction and repeated in it appear once.
- WorkosLedger: each transaction reads the clock once, where some read it again after taking a lock.
- WorkosMethods.DisableWrites: disabling a principal's last active method, which the code refuses, is allowed; the results hold with it.
- WorkosStore.Store.UseSession: its compare-and-set on the idle expiry is part of one atomic step.
- CommandAdmission: executor scheduling is arbitrary interleaving; fairness and waiting order on the map's lock are not modelled.
- CommandExecution.AuthorityPool.Execute: runs one command with no other in between, for the sake of its times; that others may come between its statements is in `CommandCommit`, of which each statement is one step.
- CommandExecution.AuthorityPool.Operate: the operation inside the transaction is an oracle that acknowledges, refuses or reports an expired lease; identity locking and command handling are not modelled.
- LiveProjection: the broadcast channel, and overflow of the in-flight counts.
- `ancestor_pids`: it has no guard against cycles.
- `classify_command`, read handlers, session minting for local proofs and release acceptance, account administration, and the domain, pack and projection crates.
