# GuideHerd server: verified behaviour

A Dafny 4.11 model of the state machines behind GuideHerd's server, and proofs of what they promise over whole runs.
Check it with `dafny verify dfyconfig.toml`, or all files at once with
`dafny verify --resource-limit 2000000 --verification-time-limit 0 *.dfy`.

## What is modelled

| files | part of the server |
|---|---|
| `BookingContexts`, `BookingReconciler`, `ReconcilerInterleaved` | the ten-status booking context with its slot guard, lazy expiry, stale recovery and audit trail, and the pass that settles contexts awaiting verification from the provider's answers, alone and among other requests |
| `HandoffSessions`, `ConversationEvents`, `HandoffStore` | the handoff session store: its lazy-expiry specification against an eager machine, its event log, and the store over its maps |
| `SessionRepository` | the PostgreSQL session repository as conditional updates with rollback, against the in-memory store |
| `DeliveryClaims`, `SummaryDelivery` | the claim core, and the summary delivery that puts a session claim over a notification claim |
| `Outbox`, `OutboxLease`, `Scheduler`, `SchedulerLease` | the two retrying drains, and their processors and executors interleaved, some dying |
| `ConfigTransactions`, `ConfigValidation`, `ValidationLaws`, `OrganizationImport`, `OrganizationExport`, `Listings`, `ImportFolds`, `ImportInvariants`, `ImportLaws`, `OrganizationRoundTrip`, `ConfigService` | the Configuration Store: savepoint transactions, validators, import and export |
| `Administration`, `AdministrationLaws` | versioned and audited configuration changes |
| `Correlation` | the correlation engine over the handoff store |
| `LoginLimiter`, `CalendarRouting` | the login limiter; the calendar-routing gate and route resolution |
| `Options`, `Sequences`, `Retries` | shared: optional values, sequences without repeats, the clock and the backoff |

Each stateful component appears twice: as a specification, a pure step function over its state, about which the
properties are proved over every run; and as a class whose methods assign fields and run loops as the server does and
are proved equal to that step. Code between two awaits is one atomic step. Clocks never go back. Ids, hashes, tokens and
times are opaque values with equality or order. Where requests interleave (claims, summary delivery, two-step redeem,
outbox, scheduler, reconciliation's evidence, correlation) the interleaving is arbitrary.

## Where the code and its documentation differ

The code is what is modelled; each difference has its exact condition.

* Resolving a verification to booked does not consult the slot guard, and a context in verification does not occupy its
  slot. The guard holds over a run if and only if every such resolution found its slot free (`SlotGuardOverRuns`);
  `ResolutionCanDoubleBook` gives the run for any two rivals.
* The reconciler takes any event start other than the new one as "not moved", although its header describes a comparison
  with the old time. The evidence table follows the code.
* One of a reschedule pair is meant to end booked. Neither does when the successor awaits a cancellation and its event is
  cancelled, or when a context that reschedules the successor is decided first and its event has moved; otherwise, once
  the event is located, exactly one does (`OneOfAPairEndsBooked`, `CancelledSuccessorLeavesNoneBooked`,
  `OvertakenSuccessorLeavesNoneBooked`).
* Cancelling a completed or scheduling session succeeds and keeps its outcome (`CancelSucceedsExactlyWhen`).
* `record`, and the outbox's and scheduler's `complete` and `fail`, write unconditionally: what is settled stays settled
  if and only if nobody still holds it (`FinalExactlyWhenUnheld`, in `DeliveryClaims`, `OutboxLease` and
  `SchedulerLease`); `LateRecordReopensAKey`, `LateFailureReopensADelivery` and `CancelDuringHandlerIsLost` are the runs
  that fail. A claim never reads `finalStatus`.
* A scheduled action can start after its expiry, exactly when the clock passes it between the sweep and the claim
  (`LateExactlyWhen`).
* Importing an organization's own export renumbers its group members; once accepted, it is a no-op exactly when
  positions have neither gaps nor repeats (`OwnExportIsANoOpExactlyWhenTidy`).
* A location's audit snapshots show its hours, which another entity audits: two consecutive ones chain if and only if
  the hours are the same, that is, if the last change of them in between left them as they were
  (`LocationHistoryChainsExactlyWhenHoursAgree`, `LocationHistoryChainsExactlyWhenHoursReturn`).
* A stale reclaim does not look at `maxAttempts`: each executor that dies inside a handler adds one attempt to the bound
  (`AttemptsAreBoundedUnderLease`, `EveryDeathCostsAnAttempt`).
* Lower-casing can lengthen an e-mail address past the limit it was accepted under, and an export that holds one is
  refused on import. An organization's own export is accepted exactly when its stored addresses are within the limit
  (`OwnExportOnlyTouches`, `LengthenedAddressIsNotReimported`).
* An unmapped key that every JavaScript object inherits, such as `constructor`, is not seen as unmapped
  (`ResolvedRoutesAreConsistent`, `UnmappedConstructorIsRouted`).

## Model

| member | source | states |
|---|---|---|
| BookingContexts.DecisionsAreLegal | server/scheduling/booking-context-store.js:177-444 | every change any operation makes is a row of the transition table, and a selected start is null exactly while a context is offered or expired |
| BookingContexts.StepIsFaithful | server/scheduling/booking-context-store.js:147-170 | one step appends exactly one audit record for the context whose status it changes and none for any other, and replaying the trail still gives the status |
| BookingContexts.AuditReplayEqualsState | server/scheduling/booking-context-store.js:147-444 | over every run, replaying a context's audit records through the transition table yields its current status, and its selected start is null exactly while offered or expired |
| BookingContexts.TableClaimsOnce | server/scheduling/booking-context-store.js:246-281 | a trail that follows the table holds one claim once the context has left the offer and none before, so it is claimed at most once |
| BookingContexts.ClaimedAtMostOnce | server/scheduling/booking-context-store.js:246-281 | from the empty store every run claims a context once if it has left the offer other than by expiring, and never otherwise |
| BookingContexts.RunsKeepWhatIsSettled | server/scheduling/booking-context-store.js:132-444 | over every run a context is never lost, its offer never changes, a selected start and the calendar bound with it are written once, and rejected, expired, cancelled and rescheduled are absorbing |
| BookingContexts.SlotGuardStep | server/scheduling/booking-context-store.js:51-53 | no two contexts of one organization occupy one calendar instant: one step of any operation keeps this exactly when it is not a resolution to booked into an occupied slot |
| BookingContexts.SlotGuardOverRuns | server/scheduling/booking-context-store.js:246-444 | over a whole run the slot guard holds after every step if and only if every resolution to booked found its slot free |
| BookingContexts.ResolutionCanDoubleBook | server/scheduling/booking-context-store.js:324-339 | for every pair of rival offers there is a run, through verification_required, after which both are booked on the same instant |
| BookingContexts.StalePassFlipsExactlyTheStale | server/scheduling/booking-context-store.js:424-444 | one stale pass turns exactly the stale contexts over to verification_required, each with the reason naming what it was doing, and touches nothing else |
| BookingContexts.OldestFirstIsAnOrderedListing | server/scheduling/booking-context-store.js:309-322 | a listing by status holds each matching context once, ordered by when it was last updated |
| BookingContexts.BookingContextStore.EmitAudit | server/scheduling/booking-context-store.js:147-162 | appends one record naming the action, the context, the actor and the detail |
| BookingContexts.BookingContextStore.ExpireIfDue | server/scheduling/booking-context-store.js:164-170 | an offered context past its expiry becomes expired, audited, before anything else sees it; any other is untouched |
| BookingContexts.BookingContextStore.Create | server/scheduling/booking-context-store.js:177-218 | refuses an inconsistent route or a taken id or token hash, otherwise stores the offer with one record |
| BookingContexts.BookingContextStore.FindByTokenHash | server/scheduling/booking-context-store.js:220-228 | answers only within the organization, after lazy expiry |
| BookingContexts.BookingContextStore.Get | server/scheduling/booking-context-store.js:230-235 | answers after lazy expiry |
| BookingContexts.BookingContextStore.SlotTaken | server/scheduling/booking-context-store.js:246-281 | the scan of all rows finds a rival exactly when one occupies the calendar instant |
| BookingContexts.BookingContextStore.Claim | server/scheduling/booking-context-store.js:246-281 | exactly an offered, unexpired context whose slot no rival occupies is claimed; it binds the start and the calendar of the offered target, the exact one or else one of the same instant, and its own only if no target has that instant |
| BookingContexts.BookingContextStore.Complete | server/scheduling/booking-context-store.js:288-307 | only an in-progress context completes, to one of the three allowed statuses |
| BookingContexts.BookingContextStore.ResolveVerification | server/scheduling/booking-context-store.js:324-339 | only a context awaiting verification resolves, with no slot check |
| BookingContexts.BookingContextStore.BeginCancellation | server/scheduling/booking-context-store.js:348-362 | only a booked context starts cancelling |
| BookingContexts.BookingContextStore.CompleteCancellation | server/scheduling/booking-context-store.js:364-383 | a pending cancellation ends cancelled, booked again or in verification |
| BookingContexts.BookingContextStore.BeginReschedule | server/scheduling/booking-context-store.js:385-400 | only a booked context starts rescheduling |
| BookingContexts.BookingContextStore.CompleteReschedule | server/scheduling/booking-context-store.js:402-422 | a pending reschedule ends rescheduled, booked again or in verification |
| BookingContexts.BookingContextStore.ReconcileStale | server/scheduling/booking-context-store.js:424-444 | one pass over the rows equals the specified stale pass |
| BookingContexts.BookingContextStore.ListByStatus | server/scheduling/booking-context-store.js:309-322 | the first `limit` of the ordered listing |
| BookingContexts.ClaimIsGrantedExactlyWhen | server/scheduling/booking-context-store.js:246-281 | a claim is granted exactly when the row is offered, unexpired, and no other context of the organization is busy on that calendar at that start; the row it leaves is written out field by field |
| BookingContexts.RunBindsAsOffered | server/scheduling/booking-context-store.js:246-281 | after every run, every context that left its offer by a claim holds the calendar of the target offered under its canonical start, failing that one of the same instant, and its own only if no target has that instant |
| BookingContexts.WellRoutedExactly | server/scheduling/booking-context-store.js:66-110 | an offer has no route problem if and only if its kind has its own keys and no other's, every slot is readable and, by event type or by target, bookable |
| BookingContexts.NamedProblemIsThere | server/scheduling/booking-context-store.js:66-110 | the problem a refusal names is one the offer has |
| BookingContexts.OfferIsStoredExactlyWhen | server/scheduling/booking-context-store.js:177-218 | stored exactly if consistent and neither its id nor its token is taken, as it was made; refused otherwise with nothing changed |
| BookingContexts.StoredOffersAreWellRouted | server/scheduling/booking-context-store.js:177-218 | after every run every stored offer is consistent |
| BookingContexts.EndingsAreRecorded | server/scheduling/booking-context-store.js:288-422 | an operation that ends a pending state keeps the reason given and records who ended it, when and why |
| BookingContexts.OneTargetOneContext | server/scheduling/booking-context-store.js:246-281 | over every run whose reinstatements find their slot free, two claimed contexts of one organization whose offers name the same target at the same start are never both occupying it |
| BookingReconciler.OnlyEvidenceResolves | server/scheduling/booking-reconciler.js:69-193 | a context leaves verification_required only with a provider answer, its own or its queued successor's, and with the status the code's evidence table gives for it; every other context is unchanged but for an overdue offer lapsing |
| BookingReconciler.AnswersDecide | server/scheduling/booking-reconciler.js:69-175 | for whole passes, the table of final states: a queued booking whose provider answered ends booked with the event's id exactly when the answer is an uncancelled event, and rejected otherwise; a stand-alone cancellation ends booked again exactly then, and cancelled otherwise; with the reason code and resolver of each |
| BookingReconciler.SuccessorsAnswerDecides | server/scheduling/booking-reconciler.js:112-150 | the same table for a queued successor: what its event's start says about the move settles it and the context it replaces |
| BookingReconciler.OriginalIsSettledToo | server/scheduling/booking-reconciler.js:166-189 | the queued original a successor replaces is settled in the same round for the same reason: rescheduled if the event has moved, booked if not, its own event id kept |
| BookingReconciler.WithoutEvidenceNothingMoves | server/scheduling/booking-reconciler.js:73-110 | a context whose provider, and whose queued successors' providers, gave no answer ends the pass as it was, but for an overdue offer lapsing |
| BookingReconciler.StaleContextsKeepTheirCause | server/scheduling/booking-reconciler.js:82-85 | a context the stale pass queues is read by the reconciler as what it was doing: a booking, a cancellation or a reschedule |
| BookingReconciler.TallyAddsUp | server/scheduling/booking-reconciler.js:69-193 | resolved plus left equals examined plus the originals resolved through their successor |
| BookingReconciler.FirstEvidenceDecides | server/scheduling/booking-reconciler.js:69-193 | every context ends a pass as the first entry of the queue that speaks of it and acts says, and unchanged if there is none |
| BookingReconciler.OneOfAPairEndsBooked | server/scheduling/booking-reconciler.js:100-175 | of a queued original and its one queued successor whose event has a start, never both end booked, and one does if and only if: the successor was not settled first by a successor of its own whose event has moved, and, if it awaits a cancellation, its event is still confirmed; with the statuses of both in each case |
| BookingReconciler.OvertakenExactlyWhen | server/scheduling/booking-reconciler.js:118-189 | the successor is settled before its own turn exactly when an earlier queue entry reschedules it, awaits no cancellation, has an event with a start and acts |
| BookingReconciler.CancelledSuccessorLeavesNoneBooked | server/scheduling/booking-reconciler.js:60-112 | the first failing input, from the empty store: the successor awaits a cancellation and its event is cancelled; a call that reads both ends it cancelled and leaves the original as it was, whichever was left ambiguous first |
| BookingReconciler.OvertakenSuccessorLeavesNoneBooked | server/scheduling/booking-reconciler.js:60-189 | the second, from the empty store: a context that reschedules the successor was left ambiguous before it, so the call reads it first, and its event has moved; the successor ends rescheduled and the original as it was |
| BookingReconciler.QuietExactlyWhenUndecided | server/scheduling/booking-reconciler.js:69-193 | a pass changes nothing exactly when no queued context has an answer |
| BookingReconciler.DecidedLeaveTheQueue | server/scheduling/booking-reconciler.js:69-193 | every answered context leaves verification_required and every one still there is unchanged |
| BookingReconciler.SecondPassChangesNothing | server/scheduling/booking-reconciler.js:52-193 | after a pass over the whole queue a second pass with the same answers changes nothing and counts everything it sees as left |
| BookingReconciler.TruncatedSecondPass | server/scheduling/booking-reconciler.js:52-70 | when the first queue was cut off by its limit, the second pass is quiet exactly when it can decide none of the contexts the first did not reach |
| BookingReconciler.SecondReconcileChangesNothing | server/scheduling/booking-reconciler.js:52-193 | when the first call's own reading of the queue was not cut off, a second call with the same answers changes nothing, whatever its limit and whenever it runs |
| BookingReconciler.TruncatedSecondReconcile | server/scheduling/booking-reconciler.js:52-193 | when it was, the second call changes nothing if and only if it can decide none of the contexts the first did not read |
| BookingReconciler.ReconcileLeavesOneBooked | server/scheduling/booking-reconciler.js:52-193 | the pair result for the queue a call reads itself |
| ReconcilerInterleaved.PassIsARun | server/scheduling/booking-reconciler.js:52-193 | with other requests running at every await, whatever they do, the pass is one run of the store, so every result over runs holds of it |
| ReconcilerInterleaved.OnlyEvidenceResolvesInterleaved | server/scheduling/booking-reconciler.js:52-193 | in every such interleaving the audit trail stays faithful, and each resolution it gains was ordered by another request or is what the evidence table gives for an answer received during the pass |
| BookingReconciler.ReadQueue | server/scheduling/booking-reconciler.js:60-70 | the queue is the listing of verification_required, oldest first, up to the limit |
| BookingReconciler.ReconcileOne | server/scheduling/booking-reconciler.js:75-193 | one context's round changes the store and the counters as the specified round does |
| BookingReconciler.Reconcile | server/scheduling/booking-reconciler.js:52-193 | the loop over the store object gives the pass's store and its three counters |
| HandoffSessions.EveryOperationAgrees | server/handoff/store.js:115-505 | each lazily expiring operation gives the reply, and leaves the effective sessions, of a machine that expires every overdue awaiting session at once |
| HandoffSessions.LazyExpiryIsUnobservable | server/handoff/store.js:85-505 | over any sequence of operations under a non-decreasing clock, results, errors and effective statuses are those of the eager machine: the create cap, redeem's error order, cancel, connect, counts and purge included |
| HandoffSessions.ConnectAgrees | server/handoff/store.js:250-279 | expiring while scanning for candidates gives the candidates, the error and the connection of a store swept beforehand |
| HandoffSessions.PurgeAgrees | server/handoff/store.js:485-505 | a purge removes the same sessions whether or not overdue ones were marked before it |
| HandoffSessions.RedeemAgrees | server/handoff/store.js:137-170 | the order of redeem's errors does not depend on when expiry was noticed |
| ConversationEvents.StepIsConsistent | server/handoff/store.js:137-360 | one operation keeps sessions, the history of replies and the event log in agreement, and publishes at most the event of what it did |
| ConversationEvents.EventLogIsExact | server/handoff/store.js:137-505 | in every run that creates sessions afresh the log holds one connected event per session ever redeemed, by token or correlation, then one completed event per accepted outcome with its status, and nothing else |
| ConversationEvents.EventLogFromTheStart | server/handoff/store.js:137-505 | from the empty store a session's published events are exactly what happened to it, and a session still stored says the same of itself |
| ConversationEvents.WrittenOnce | server/handoff/store.js:206-360 | over any run a stored outcome and a redemption time are never rewritten, and no session returns to awaiting transfer |
| ConversationEvents.NeverRecreated | server/handoff/store.js:485-505 | a purged session id never reappears |
| HandoffStore.MemoryStore.MarkExpiredIfNeeded | server/handoff/store.js:85-93 | only an awaiting, overdue session becomes expired |
| HandoffStore.MemoryStore.ScanEligible | server/handoff/store.js:250-262 | the scan expires every overdue session it passes and collects exactly the matching eligible ones |
| HandoffStore.MemoryStore.Create | server/handoff/store.js:115-131 | the prepared-session cap counts only effective eligible sessions |
| HandoffStore.MemoryStore.Redeem | server/handoff/store.js:137-170 | single use, errors in the documented order, one event |
| HandoffStore.MemoryStore.StatusByConsole | server/handoff/store.js:178-190 | console token checked before the status is shown |
| HandoffStore.MemoryStore.Cancel | server/handoff/store.js:206-225 | as the specified cancel, fall-through included |
| HandoffStore.MemoryStore.ConnectEligible | server/handoff/store.js:250-279 | exactly one candidate connects; none or several refuse |
| HandoffStore.MemoryStore.CountEligible | server/handoff/store.js:302-312 | the number of effective eligible sessions |
| HandoffStore.MemoryStore.ApplyOutcome | server/handoff/store.js:325-360 | an outcome is accepted once; a repeat is a duplicate, another a conflict |
| HandoffStore.MemoryStore.ClaimSummaryDelivery | server/handoff/store.js:372-392 | the row claim is granted when unattempted, failed or stale |
| HandoffStore.MemoryStore.RecordSummaryDelivery | server/handoff/store.js:394-399 | the status is written unconditionally |
| HandoffStore.MemoryStore.CountByStatus | server/handoff/store.js:426-443 | effective statuses counted per firm |
| HandoffStore.MemoryStore.ListByStatuses | server/handoff/store.js:445-457 | the firm's sessions in the given effective statuses |
| HandoffStore.MemoryStore.PurgeRetired | server/handoff/store.js:485-505 | removes exactly the two classes past their retention, with their tokens, and counts each |
| SessionRepository.EveryOperationAlike | server/operational/session-repository.js:201-601 | each SQL operation, with its rolled-back or firm-scoped expiry writes, gives the in-memory reply and the same effective sessions and events |
| SessionRepository.SimulationStep | server/operational/session-repository.js:201-601 | from stores related by effective status one step of each keeps them related and answers alike |
| SessionRepository.RepositorySimulatesMemory | server/operational/session-repository.js:201-601 | over every clocked run the repository and the in-memory store give the same replies and end with the same effective sessions and event log |
| SessionRepository.TwoStepRedeemLinearizes | server/operational/session-repository.js:228-268 | a redeem whose conditional UPDATE missed answers, after any interleaving, what one atomic redeem would answer at its classifying read, provided the token was known when it started |
| SessionRepository.LinearizesExactlyWhenKnown | server/operational/session-repository.js:228-268 | so a redeem whose UPDATE missed linearizes in every interleaving if and only if its token was known when it missed |
| SessionRepository.LateTokenIsMisclassified | server/operational/session-repository.js:228-268 | on any table, a token created between the two steps is reported already redeemed although its session awaits transfer |
| SessionRepository.RunDescends | server/operational/session-repository.js:228-601 | no operation of any run brings a token's session back to awaiting transfer |
| SessionRepository.PostgresStore.Redeem | server/operational/session-repository.js:228-268 | both steps together are one atomic redeem |
| SessionRepository.PostgresStore.RedeemFirst | server/operational/session-repository.js:228-246 | the conditional UPDATE hits exactly an awaiting, unexpired, unredeemed row |
| SessionRepository.PostgresStore.RedeemSecond | server/operational/session-repository.js:247-268 | the classifying read names the reason a miss had |
| SessionRepository.PostgresStore.Create | server/operational/session-repository.js:201-226 | count, cap and insert in one transaction |
| SessionRepository.PostgresStore.Cancel | server/operational/session-repository.js:285-331 | a refused cancel rolls its expiry write back |
| SessionRepository.PostgresStore.ConnectEligible | server/operational/session-repository.js:333-386 | expiry is written for the firm's rows only and rolled back when no one connects |
| SessionRepository.PostgresStore.ApplyOutcome | server/operational/session-repository.js:415-461 | conflicts and duplicates are told apart under the row lock |
| SessionRepository.PostgresStore.ClaimSummaryDelivery | server/operational/session-repository.js:463-482 | one conditional UPDATE claims or reports the current status |
| SessionRepository.PostgresStore.StatusByConsole | server/operational/session-repository.js:270-283 | the console token is checked before the effective status is shown |
| SessionRepository.PostgresStore.CountEligible | server/operational/session-repository.js:400-413 | counts the firm's effective eligible rows |
| SessionRepository.PostgresStore.RecordSummaryDelivery | server/operational/session-repository.js:484-497 | writes the status of an existing row unconditionally |
| SessionRepository.PostgresStore.CountByStatus | server/operational/session-repository.js:515-531 | counts the firm's effective statuses |
| SessionRepository.PostgresStore.ListRecent | server/operational/session-repository.js:533-556 | the firm's sessions in the given effective statuses |
| SessionRepository.PostgresStore.Get | server/operational/session-repository.js:558-567 | the row with its effective status |
| SessionRepository.PostgresStore.PurgeRetired | server/operational/session-repository.js:581-601 | the two DELETEs remove what the in-memory purge removes |
| DeliveryClaims.LeaseExcludesSecondClaimant | server/reliability/claims.js:48-68 | if every claimant records strictly within the stale window of its claim, no key ever has two live claimants |
| DeliveryClaims.FinalExactlyWhenUnheld | server/reliability/claims.js:48-68 | a recorded status other than failed stays as it is in every run, leased or not, if and only if no live claimant holds its key |
| DeliveryClaims.FinalStatusIsFinal | server/reliability/claims.js:48-68 | so what was recorded under a lease kept up to then is never overwritten and never claimable again, whatever follows, and whatever `finalStatus` says |
| DeliveryClaims.ClaimableExactlyWhen | server/reliability/claims.js:48-60 | under the lease a key is claimable exactly when it is unknown, failed, or its pending claim's window has passed, and then nobody alive holds it |
| DeliveryClaims.LateRecordReopensAKey | server/reliability/claims.js:62-68 | a run to a key settled while held: a claimant outliving its window overwrites sent with failed and the key is open again |
| DeliveryClaims.ClaimCore.Claim | server/reliability/claims.js:48-60 | claims exactly when claimable and reports the standing status otherwise |
| DeliveryClaims.ClaimCore.Record | server/reliability/claims.js:62-68 | writes unconditionally, keeping when the key was claimed |
| SummaryDelivery.RunIsSound | server/handoff/demo-bridge.js:244-264 | every interleaving of inline reports, duplicates, recoveries, crashes and purges keeps at most one holder of the notification key, counts each send, and lets the session say sent only for a sent key |
| SummaryDelivery.AtMostOneSendPlusLosses | server/notifications/summary-notification.js:119-203 | with a lease on the inner notification claim only, the sends reported for a session are at most one plus the claimants that died between sending and recording, and its row says sent only if the notification was recorded sent |
| SummaryDelivery.UndisturbedIsAPath | server/notifications/summary-notification.js:119-154 | the sequential delivery is one path of the interleaved machine, and it sends exactly when row and key are claimable and the provider resolves and succeeds |
| SummaryDelivery.EnteredOrNothing | server/notifications/summary-notification.js:178-203 | from the entry on: a report enters only on an ended conversation, a recovery only where no attempt was recorded or one is pending, and then the delivery is the undisturbed one; otherwise nothing changes |
| SummaryDelivery.PurgedStaysGone | server/notifications/summary-notification.js:178-203 | in every interleaving a purged session stays gone: no late report brings its row back |
| SummaryDelivery.Send | server/notifications/service.js:63-157 | an unclaimable key is suppressed untouched; a claimed one is always recorded, failed when no provider resolves |
| SummaryDelivery.Deliver | server/notifications/summary-notification.js:119-154 | a summary that cannot be built never claims; a suppression is reported as the standing status |
| SummaryDelivery.RecordOutcomeAndDeliver | server/handoff/demo-bridge.js:244-264 | a refused outcome delivers nothing; an accepted or duplicate one performs the undisturbed delivery under the row claim and mirrors its status |
| SummaryDelivery.RecoverSummary | server/notifications/summary-notification.js:178-203 | acts only when delivery was never attempted or is pending, and asks for a retry exactly while another attempt holds the row |
| Outbox.SumDrops | server/outbox/outbox.js:104-154 | whenever attempts only shrink and some pair lost one, the sum of remaining attempts over events and consumers is strictly smaller |
| Outbox.SumBound | server/outbox/outbox.js:193-221 | that sum starts at no more than events times consumers times attempts, which bounds the drains that can find work |
| Outbox.QuietMeansSettled | server/outbox/outbox.js:104-115 | with every backoff due, nothing is claimable if and only if every pair of event and consumer is completed or abandoned |
| Outbox.RunsAreBounded | server/outbox/outbox.js:193-221 | in every valid state the handler of a pair has run at most maxAttempts times, once for each attempt when the consumer wants the event and never when it does not |
| Retries.LaterFailuresWaitTheLast | server/outbox/outbox.js:207 | the k-th failed attempt waits the k-th backoff, every later one the last, and none is configured means no wait |
| Outbox.VisitIsProgress | server/outbox/outbox.js:193-221 | a settled visit costs its pair one attempt and no other pair anything |
| OutboxLease.RunsAreBoundedUnderLease | server/outbox/outbox.js:117-221 | when every processor reports within the stale window of its claim or dies, in every interleaving no delivery has two live processors, its handler runs at most maxAttempts times plus once for each processor that died inside it, and with nobody left and every wait over what is not claimable is exactly what is completed or abandoned |
| OutboxLease.RunsAreBoundedByDeaths | server/outbox/outbox.js:117-221 | under the lease, in every interleaving, a handler runs at most maxAttempts times and once more for each death in the run |
| OutboxLease.TheDeadHoldNothing | server/outbox/outbox.js:117-154 | a processor that died or reported holds nothing until it claims again |
| OutboxLease.FinalExactlyWhenUnheld | server/outbox/outbox.js:137-154 | a completed or abandoned delivery stays so in every run, leased or not, if and only if no processor still holds it |
| OutboxLease.LateFailureReopensADelivery | server/outbox/outbox.js:143-154 | the run that reaches such a held delivery: a late failure makes a delivered event deliverable again |
| Outbox.Processor.Register | server/outbox/outbox.js:229-238 | refuses a blank or a taken consumer name and otherwise adds the registration at the end |
| Outbox.Processor.Append | server/outbox/outbox.js:88-101 | a published event goes to the end of the log |
| Outbox.Processor.Handle | server/outbox/outbox.js:203-206 | every call leaves its verdict in the record of runs, after those before it; what it publishes goes to the end of the log |
| Outbox.Processor.ClaimableEvents | server/outbox/outbox.js:104-115 | the consumer's first claimable events in publication order, and none only when there is none |
| Outbox.Processor.Claim | server/outbox/outbox.js:118-135 | claims exactly when claimable now, one attempt more |
| Outbox.Processor.Complete | server/outbox/outbox.js:137-141 | marks an existing delivery completed whatever it was |
| Outbox.Processor.Fail | server/outbox/outbox.js:143-154 | marks an existing delivery failed with its next attempt, or abandoned |
| Outbox.Processor.DeliverTo | server/outbox/outbox.js:193-221 | a claimed delivery costs one attempt and one run of the handler, and ends completed if the handler succeeded, else abandoned at the limit, else failed until its backoff has passed |
| Outbox.Processor.SettleUnsubscribed | server/outbox/outbox.js:256-260 | an unsubscribed event is completed without running the handler |
| Outbox.Processor.Attend | server/outbox/outbox.js:255-262 | a claimed event whose type the registration lists, or any when it lists none, has exactly one handler run, and ends completed if and only if that run succeeded; any other is completed with no run |
| Outbox.Processor.DrainConsumer | server/outbox/outbox.js:253-263 | the list holds the due events in publication order, all of them below the limit; each is delivered as its type says: one handler run and completed only if it succeeded, or completed with no run; no other pair is touched |
| Outbox.Processor.Drain | server/outbox/outbox.js:249-270 | for every consumer and every event on its list, one handler run for a subscribed type, completed only if it succeeded, and none for another; a drain that finds work lowers the sum of remaining attempts; one that finds none proves nothing was claimable when it began, and with every backoff due that every pair is completed or abandoned; settled deliveries are kept; each handler runs at most maxAttempts times per event |
| Scheduler.NeverEarly | server/scheduler/scheduler.js:118-218 | in every run of every interleaving of producers, sweeps and executors, crashes and stale reclaims included, no action starts before its runAtMs, a retry not before its nextAttemptAtMs, a running one not before the stale window has passed, and a terminal one never |
| Scheduler.ScheduledOnce | server/scheduler/scheduler.js:138-153 | once scheduled, an action's time, expiry and type never change and it is never lost, whatever is scheduled under its key again |
| Scheduler.TerminalIsFinal | server/scheduler/scheduler.js:156-178 | a completed, cancelled or expired action stays as it is unless an executor that held it still reports |
| Scheduler.WithdrawnNeverStarts | server/scheduler/scheduler.js:156-201 | an action cancelled, or overdue at a sweep, never starts again unless an executor that held it reports |
| Scheduler.RunIsSound | server/scheduler/scheduler.js:118-218 | an attempted action's time has come by its last update, in every legal run |
| SchedulerLease.AttemptsAreBoundedUnderLease | server/scheduler/scheduler.js:181-218 | when every executor reports within the stale window of its claim or dies, in every interleaving of executors, producers, sweeps and deaths no action has two live executors, and it is attempted at most maxAttempts times plus once for each executor that died holding it |
| SchedulerLease.NoDeathNoExcess | server/scheduler/scheduler.js:318-356 | so without a death inside a handler attempts never exceed maxAttempts, however many executors there are |
| SchedulerLease.EveryDeathCostsAnAttempt | server/scheduler/scheduler.js:181-218 | for every number of attempts allowed and every number of deaths a leased run reaches that bound: a stale reclaim ignores maxAttempts |
| SchedulerLease.FinalExactlyWhenUnheld | server/scheduler/scheduler.js:156-218 | a completed, cancelled or expired action keeps its state in every run, leased or not, if and only if no executor still holds it |
| Scheduler.Executor.ScheduleAction | server/scheduler/scheduler.js:138-153 | an existing key changes nothing and says so |
| Scheduler.Executor.CancelAction | server/scheduler/scheduler.js:156-164 | only a non-terminal action is cancelled |
| Scheduler.Executor.ExpireDue | server/scheduler/scheduler.js:167-178 | the loop expires exactly the non-terminal overdue actions and reports them |
| Scheduler.Executor.ListClaimable | server/scheduler/scheduler.js:181-188 | claimable actions only, each once, earliest first, and nothing earlier left out below the limit |
| Scheduler.Executor.ClaimAction | server/scheduler/scheduler.js:191-201 | claims exactly when claimable now |
| Scheduler.Executor.CompleteAction | server/scheduler/scheduler.js:203-209 | unconditional on an existing action |
| Scheduler.Executor.FailAction | server/scheduler/scheduler.js:211-218 | unconditional on an existing action |
| Scheduler.Executor.Report | server/scheduler/scheduler.js:333-343 | completed, or failed with its next attempt after the backoff, none when attempts are used up |
| Scheduler.Executor.Handle | server/scheduler/scheduler.js:333-333 | every call leaves its verdict in the record of runs, after those before it; the handler may cancel or schedule other actions |
| Scheduler.Executor.Process | server/scheduler/scheduler.js:327-350 | a candidate still due is started, within its attempts: with a handler registered it has exactly one run and ends completed if and only if that run returned normally, with none it ends failed and nothing runs; other actions are at most cancelled by the handler |
| Scheduler.Executor.ExecuteAll | server/scheduler/scheduler.js:326-350 | each start of a handled type has exactly one handler run, and is completed if and only if it succeeded; what was not started has none; every candidate is started or found settled, each at most once, none early, none overdue at the sweep |
| Scheduler.Executor.Drain | server/scheduler/scheduler.js:318-356 | each start of a handled type has exactly one handler run and every action it completed a successful one; no handler starts early or on an action overdue at the sweep, each at most once; every listed action is started or settled; the due actions left out are later ones beyond the limit; attempts and handler runs never exceed maxAttempts; terminal actions and schedules are kept |
| ConfigTransactions.RunTransaction | server/config/store.js:292-313 | for every body, nested to any depth, the database ends as the meaning says, BEGIN and savepoints are as before on both exits, the depth returns to its start, and no statement it issues is in error |
| ConfigTransactions.Connection.Enter | server/config/store.js:293-297 | a transaction is opened one level deeper, remembering the database it may have to go back to, and its statement is not in error |
| ConfigTransactions.Connection.Leave | server/config/store.js:298-313 | the innermost transaction is closed: the database stays, or on a throw is the one it began with; the outer ones are untouched and no statement is in error |
| ConfigTransactions.Execute | server/config/store.js:292-313 | for every tree of writes, throws, catches and nested transactions the database and outcome are the tree's meaning, where a failed transaction contributes nothing |
| ConfigTransactions.SurvivorsExplainTheDatabase | server/config/store.js:284-313 | the final database is the first with exactly the writes no failed transaction took back replayed over it, in order |
| ConfigTransactions.InnerTransactionsAreInvisible | server/config/store.js:284-291 | composing operations that transact internally inside one transaction is one atomic unit: removing the inner transactions changes nothing |
| ConfigTransactions.NamesResolveToTheirOwnFrame | server/config/store.js:292-296 | each open savepoint's name resolves to its own frame |
| ConfigTransactions.NamesDiffer | server/config/store.js:294-294 | savepoint names of different depths differ |
| ConfigValidation.ValidatorsAreFixedPoints | server/config/validation.js:126-293 | every validator's output, rendered as an export renders it and validated again, comes back the same; a provider's if and only if its lower-cased address is within the limit |
| ConfigValidation.EmailIsClean | server/config/validation.js:74-85 | a normalized address is trimmed, shaped and lower-cased, so that only its length can make the validator refuse or change it |
| ConfigValidation.EmailRoundTrip | server/config/validation.js:74-85 | such an address is accepted again, unchanged, if and only if it is within the limit |
| ConfigValidation.LengthenedEmailIsRefused | server/config/validation.js:74-85 | the input: an accepted address of 204 characters is stored with 404, which the validator refuses |
| ConfigValidation.LongProviderIsAccepted | server/config/validation.js:205-221 | a provider given with that address is accepted with the longer one |
| ConfigValidation.OrganizationRoundTrip | server/config/validation.js:126-140 | a clean organization survives rendering and validation |
| ConfigValidation.LocationRoundTrip | server/config/validation.js:179-202 | a clean location, with its hours, survives rendering and validation |
| ConfigValidation.HoursRoundTrip | server/config/validation.js:145-176 | clean office hours survive, in order |
| ConfigValidation.ProviderRoundTrip | server/config/validation.js:205-221 | a clean provider survives, or is refused for its address if that has outgrown the limit |
| ConfigValidation.CatalogItemRoundTrip | server/config/validation.js:224-239 | a clean catalog item survives |
| ConfigValidation.GroupRoundTrip | server/config/validation.js:242-262 | a clean routing group, with its ordered providers, survives |
| ConfigValidation.SettingRoundTrip | server/config/validation.js:266-293 | a clean setting survives, the limit on its serialized length included |
| ValidationLaws.TrimCutsSpaceOnly | server/config/validation.js:19-38 | trimming cuts white space off both ends and nothing else |
| ValidationLaws.TimesAreTheClock | server/config/validation.js:88-96 | the accepted times are exactly the 24-hour clock, two digits each |
| ValidationLaws.TextOrderIsClockOrder | server/config/validation.js:169-171 | comparing two accepted times as texts compares the times of day |
| ValidationLaws.OrderIsLexicographic | server/config/validation.js:169-171 | the string order of the validators and of the export is lexicographic |
| ValidationLaws.AddressesAreSplit | server/config/validation.js:74-85 | the accepted addresses are exactly a nonblank local part, the last at sign and a domain with an inner dot, without white space; only the domain is lower-cased |
| ValidationLaws.ProblemsAreTheFlagged | server/config/validation.js:15-112 | a refusal names exactly the fields whose check failed |
| ValidationLaws.OrganizationIsAcceptedExactlyWhen | server/config/validation.js:126-140 | accepted if and only if no field breaks its rule, and refused for exactly those that do |
| ValidationLaws.OrganizationIsKept | server/config/validation.js:126-140 | kept trimmed; UTC and active unless it says otherwise |
| ValidationLaws.LocationIsAcceptedExactlyWhen | server/config/validation.js:179-200 | its own fields first, then its office hours whenever the field is there, null included |
| ValidationLaws.LocationIsKept | server/config/validation.js:179-200 | every text field kept trimmed under its own name |
| ValidationLaws.HourIsAcceptedExactlyWhen | server/config/validation.js:151-173 | a weekday 0 to 6, two times of day, and the closing one later |
| ValidationLaws.HoursAreAcceptedExactlyWhen | server/config/validation.js:145-176 | a list is accepted if and only if each entry is, kept in order, and refused for all their flaws together |
| ValidationLaws.ProviderIsAcceptedExactlyWhen | server/config/validation.js:205-219 | accepted if and only if no field breaks its rule, and refused for exactly those that do |
| ValidationLaws.ProviderIsKept | server/config/validation.js:205-219 | kept trimmed, and of the address only the domain changed |
| ValidationLaws.CatalogItemIsAcceptedExactlyWhen | server/config/validation.js:224-237 | an order of 0 to 100000, 0 when omitted; refused for exactly the fields that break their rule |
| ValidationLaws.KeysLaw | server/config/validation.js:254-258 | a list of provider keys is good if and only if each is a key, kept in order |
| ValidationLaws.GroupIsAcceptedExactlyWhen | server/config/validation.js:242-261 | accepted if and only if no field breaks its rule, the provider list included |
| ValidationLaws.GroupIsKept | server/config/validation.js:242-261 | kept trimmed, with its providers in order, and none when the field is missing |
| ValidationLaws.SettingIsAcceptedExactlyWhen | server/config/validation.js:266-290 | key shapes, the namespace limit and the serialized length; the value is kept whole |
| OrganizationImport.DocumentRoundTrip | server/config/service.js:320-361 | a document made of validators' outputs parses back to itself if its addresses are within the limit, and is refused for an address otherwise |
| OrganizationExport.ExportIsClean | server/config/service.js:464-491 | what a well-formed store exports is made of validators' outputs |
| OrganizationExport.ExportIsSorted | server/config/store.js:122-262 | every list of an export is sorted as its query orders it, written out: by key, by display order and key, by namespace and key, by day and opening time |
| OrganizationExport.MembersAreSorted | server/config/store.js:228-242 | a group's providers are listed by position, and by key where positions are shared |
| ImportFolds.ReplaceHoursPlaces | server/config/store.js:197-205 | replace-all leaves exactly the given hours at the location and every other location as it was |
| ImportFolds.ReplaceMembersPlaces | server/config/store.js:222-230 | replace-all leaves exactly the given members at positions 0, 1, 2 and so on, and every other group as it was |
| ImportFolds.ReplaceOwnHours | server/config/store.js:197-205 | replacing a location's hours by its own hours changes nothing |
| ImportFolds.UpsertOwn | server/config/service.js:379-398 | upserting what a table already holds for an organization changes update times only |
| ImportFolds.UpsertNew | server/config/service.js:379-398 | upserting new entities adds them with the given columns under fresh ids and leaves every other row as it was |
| ImportFolds.SettingsOfAllPlaces | server/config/service.js:448-453 | the named settings have the given values and the others are untouched |
| ImportLaws.DocumentIsReadExactlyWhen | server/config/service.js:320-362 | a document is read if and only if its organization and every element of every collection that is there is accepted; it then holds them all in order |
| ImportLaws.UpsertMerges | server/config/service.js:379-398 | whatever the table held and however often a key is repeated, a column holds what the document gives last; what it leaves out stays, or is empty in a new row |
| ImportLaws.UpsertRest | server/config/service.js:379-398 | ids and creation times of found rows are kept, new rows get fresh ids, named rows are written now and every other row is untouched |
| ImportLaws.HoursOfAllFollow | server/config/service.js:411-417 | replace-all where hours are listed, untouched where they are not, refused exactly for a repeated day and opening time |
| ImportLaws.MembersOfAllExactly | server/config/service.js:442-447 | every list can be stored, or the first group that cannot decides the error: an unknown provider, else a repeated one |
| ImportLaws.MembersOfAllFollow | server/config/service.js:442-447 | replace-all where providers are listed, in their order; untouched where they are not |
| ImportLaws.SettingsOfAllFollow | server/config/service.js:449-453 | a named setting has its last value, the rest are untouched |
| ImportLaws.ImportPlacesTheDocument | server/config/service.js:364-456 | the whole import on any store: every column, office hour, membership and setting the document gives is stored, and everything it leaves out is as it was |
| ImportLaws.ImportSucceedsExactlyWhen | server/config/service.js:364-456 | it succeeds if and only if no location repeats an hour, every group's service area and providers are known and no group repeats one; otherwise which error, in the order the checks are made |
| ImportInvariants.ImportKeepsStoresWellFormed | server/config/service.js:320-457 | an import of any document keeps ids unique, every foreign key inside its organization and every stored column a validator's output |
| OrganizationRoundTrip.OwnExportOnlyTouches | server/config/service.js:320-491 | importing an organization's own export changes only update times and the numbering of group members if every stored address is within the limit, and is refused otherwise |
| OrganizationRoundTrip.LengthenedAddressIsNotReimported | server/config/service.js:320-491 | the input: a firm is imported into the empty store, and its own export is refused |
| OrganizationRoundTrip.OwnExportIsANoOpExactlyWhenTidy | server/config/service.js:459-491 | that import succeeds exactly when the addresses are within the limit, and is then the documented no-op, but for update times, exactly when each group's n members hold the positions 0 to n-1 |
| OrganizationRoundTrip.SharedPositionsAreRenumbered | server/config/store.js:222-240 | a group with two members at one position, as legacy rows have, is changed by its own export |
| OrganizationRoundTrip.LegacyFirmIsRenumbered | server/config/migrations/0002-administration.sql:31-34 | a concrete well-formed firm with legacy positions for which the import is no no-op |
| OrganizationRoundTrip.OwnExportIsExportedAgain | server/config/service.js:459-491 | whatever its positions were, once it has succeeded the organization exports the same document again |
| OrganizationRoundTrip.ExportCarriesOver | server/config/service.js:320-491 | an export imported into any well-formed store that does not know the organization, the empty one included, is accepted exactly when its addresses are within the limit, and is then exported from there unchanged: columns, references, ordered membership, office hours, settings |
| OrganizationRoundTrip.EmptyStoreIsWellFormed | server/config/service.js:320-324 | the empty store is one of those |
| ConfigService.Store.ImportOrganization | server/config/service.js:320-457 | all or nothing: every table as the specified import, or every table as it was together with the error |
| ConfigService.UpsertCollection | server/config/service.js:379-398 | the loop over a collection, item by item, with sparse patches |
| ConfigService.Store.ReplaceForLocation | server/config/store.js:197-205 | succeeds exactly when no day and opening time repeats |
| ConfigService.Store.ReplaceForGroup | server/config/store.js:222-230 | succeeds exactly when no provider repeats |
| ConfigService.Store.ReplaceAllMembers | server/config/service.js:441-446 | stops at the first unknown provider or repeated member |
| Administration.VersionsAreExact | server/administration/service.js:93-148 | in every run, writes that bypass administration included, an entity's audit versions are exactly 1 to n |
| AdministrationLaws.RequestIsGrantedExactlyWhen | server/administration/service.js:128-345 | a request is granted if and only if its organization is there, the version named is the number of audited writes to its entity, the audit row can be written and its own needs are met, area by area; it then has exactly its effect, field by field, and one audit row with its entity, action, actor and time; otherwise nothing changes |
| AdministrationLaws.RunsAreStepByStep | server/administration/service.js:128-160 | a run is its steps one after the other, each request doing what administering does |
| AdministrationLaws.ErrorsNameTheirFault | server/administration/service.js:128-345 | an error names a fault that is there: a stale version, a missing organization, entity or reference, a repetition, an invalid payload or an unwritable audit |
| AdministrationLaws.HoursTableExactly | server/config/store.js:195-212 | a list of hours is stored exactly if no day and opening time repeats, and then the table holds exactly the list |
| Administration.ExpectedVersionGuards | server/administration/service.js:120-140 | a write naming the version it read succeeds only if no audited write to its entity came between, and conflicts for no other reason |
| Administration.HistoryIsUnbroken | server/administration/service.js:120-348 | while every write to an existing setting, routing group or location is administered, over every run each before equals the previous after and the last after is the stored value; for a location but for its hours |
| Administration.RowTellsTheChange | server/administration/service.js:120-193 | a new row's before is what was stored and its after is what is stored now |
| Administration.LocationHistoryChainsExactlyWhenHoursAgree | server/administration/service.js:304-348 | over every run, of two consecutive audit rows of a location the later before is the earlier after if and only if the hours held at the two moments are the same |
| Administration.LocationHistoryChainsExactlyWhenHoursReturn | server/administration/service.js:304-348 | the same read off the audit rows alone: they chain if and only if the last row between them that audits the location's hours, if there is one, leaves the hours the earlier shows |
| Administration.SettingNamesDiffer | server/administration/service.js:184-184 | two settings share an audit entity only if they are the same setting |
| Administration.AdministrationService.ReplaceForGroup | server/config/store.js:222-230 | DELETE and one INSERT at a time: succeeds exactly when no provider repeats, and otherwise stops with the members before the repeat written |
| Administration.AdministrationService.ReplaceForLocation | server/config/store.js:197-205 | the same for hours: a repeated day and opening time stops it with the earlier ones written |
| Administration.AdministrationService.SetProviders | server/config/service.js:254-268 | the replacement inside its own nested transaction: the specified change, or the specified error with the transactions around it as they were |
| Administration.AdministrationService.SetOfficeHours | server/config/service.js:161-171 | the same for a location's hours |
| Administration.AdministrationService.CreateRoutingGroup | server/config/service.js:226-238 | the group's row is written before its members are known to be valid; an unknown or repeated provider is the specified error |
| Administration.AdministrationService.Perform | server/administration/service.js:131-131 | the change of each modelled area, against the tables, comes to the specified configuration or error |
| Administration.AdministrationService.InsertAudit | server/administration/service.js:132-137 | the row is refused when the entity has that version already or the table cannot be written |
| Administration.AdministrationService.Attempt | server/administration/service.js:126-138 | version check, change and audit row, one after the other, reply as specified; a failure may leave writes behind |
| Administration.AdministrationService.Transact | server/administration/service.js:120-148 | whatever fails, a stale version, the change half way through its rows or the audit insert, the database is the one before, organizations and audit; otherwise all of it is there |
| Administration.AdministrationService.ApplyRequest | server/administration/service.js:167-348 | a request of any modelled area replies and changes the store as specified, and one that fails leaves organizations and audit as they were |
| Administration.AdministrationService.ReadVersion | server/administration/service.js:93-113 | the scan finds the greatest version of the entity, 0 when there is none |
| Correlation.FirstDecidingSignalConnects | server/connect/correlation.js:145-163 | whatever other requests do in between, the engine's whole effect is one question, the first in order that decides, asked of what the others alone left; earlier ones leave no trace |
| Correlation.CorrelationRule | server/connect/correlation.js:145-163 | the unique eligible candidate of the first deciding signal, or the baseline, is connected; several are ambiguous and none is not found, and then nothing moves; an authoritative signal is never passed over |
| Correlation.ConnectRule | server/handoff/store.js:250-279 | what one question does, by the sessions waiting: exactly one that fits the session id, or else the number, or else any, is connected and every other left alone; several are ambiguous and none is not found, and then all are left alone |
| Correlation.CallerPhoneDecides | server/connect/correlation.js:93-163 | without a session id, a caller number that one waiting session has connects that session and no other; one that several have is ambiguous; one that none has connects nothing and the baseline decides |
| Correlation.BaselineDecides | server/connect/correlation.js:145-163 | with neither signal the only waiting session of the firm is connected as the sole eligible one, several are ambiguous and none is not found |
| Correlation.OneQuestionMovesAtMostOne | server/handoff/store.js:250-279 | success moves exactly one session, of that organization, with one event; every error moves none |
| Correlation.MeanwhileKeepsKeys | server/handoff/store.js:115-505 | whatever other requests do, every session stays stored under its own id |
| Correlation.SessionIdIsAuthoritative | server/connect/correlation.js:74-88 | with a session id present the result is that session if it is waiting in the organization, connected and everything else left alone, and not found otherwise, never ambiguous and never by another signal |
| Correlation.Engine.CorrelateIntent | server/connect/correlation.js:145-163 | the loop over the signals, undisturbed, equals the specified walk |
| LoginLimiter.LimiterCounts | server/handoff/app.js:84-110 | every verdict of the pruned map is that of an unpruned counter of client and bucket, except where the backstop refuses |
| LoginLimiter.PruningIsTruthful | server/handoff/app.js:92-100 | pruning never resets a live counter |
| LoginLimiter.BackstopMeansFlood | server/handoff/app.js:101-103 | the backstop refuses if and only if more than 50,000 distinct clients were counted in the current bucket |
| LoginLimiter.VerdictIsHistory | server/handoff/app.js:84-110 | so every verdict is read off the history: the client's own count in the bucket, and how many clients were counted there |
| LoginLimiter.BucketAdmitsAtMost | server/handoff/app.js:104-109 | of a client's attempts in one bucket exactly the first maxAttempts are allowed |
| LoginLimiter.AnyWindowAdmitsAtMostTwice | server/handoff/app.js:84-110 | in any run one bucket admits at most maxAttempts per client, and any half-open interval of one window's length at most twice that |
| LoginLimiter.Limiter.AttemptBy | server/handoff/app.js:88-110 | one attempt on the map in place is the specified step |
| LoginLimiter.Limiter.Prune | server/handoff/app.js:95-99 | the loop drops exactly the entries of past buckets, and only once the map is large |
| CalendarRouting.NormalizedIsSound | server/scheduling/availability.js:240-291 | whatever the document, the normalized value is usable: positive safe ids under trimmed keys, a duration of 1 to 480 |
| CalendarRouting.NormalizedIsFixed | server/scheduling/availability.js:240-291 | the canonical document normalizes to itself without issues |
| CalendarRouting.EventTypeMap | server/scheduling/availability.js:262-280 | the loop over one map collects exactly the sound entries and one issue for each other |
| CalendarRouting.Validate | server/configuration/domains.js:135-159 | the loops report no issue exactly when the configuration passes the gate, and otherwise exactly its issues |
| CalendarRouting.GateMakesRoutingTotal | server/configuration/domains.js:135-159 | a sound configuration passes the gate exactly when every mapped attorney is active and resolving by the practice area of any mapped routing group returns that group and its event type |
| CalendarRouting.GroupPassesExactlyWhenItRoutes | server/configuration/domains.js:148-157 | one mapped group has no issue exactly when it is active and its practice area resolves to it |
| CalendarRouting.RouteFollowsTheServingGroups | server/scheduling/availability.js:337-393 | the route by the number of active groups that serve the area: none and several each have their refusal, one admits only its own providers, an attorney alone needs a mapping, and the default is used only where neither an attorney nor an area is named; every field of the route is given |
| CalendarRouting.EveryFaultIsNamed | server/scheduling/availability.js:240-291 | each issue is reported if and only if the document has its fault: ids beyond the safe integers, durations outside 1 to 480, unknown fields, maps that are no maps, blank keys, bad ids |
| CalendarRouting.FaultyFieldsFallBack | server/scheduling/availability.js:240-291 | a field at fault or absent falls back, no id and thirty minutes; any other is kept |
| CalendarRouting.LastSoundEntryCounts | server/scheduling/availability.js:262-280 | a mapped key has the id of the last sound entry whose trimmed key it is |
| CalendarRouting.GateNamesTheFault | server/configuration/domains.js:135-159 | which issue a mapped key gets: unknown, inactive, or ambiguous with the number of active groups sharing its area |
| CalendarRouting.ResolvedRoutesAreConsistent | server/scheduling/availability.js:337-393 | a resolved route passes the booking-context check if and only if the name looked up is mapped or not inherited by every object; in the inherited case the check refuses the offer |
| CalendarRouting.UnmappedConstructorIsRouted | server/scheduling/availability.js:350-354 | the case that fails: an unmapped attorney keyed `constructor` is routed to no event type |

## Left out

- HTTP routing, cookies, mail, templates, telemetry, provider clients, authorization and identity: input and output, or single-branch facts.
- SQL text, pools and locks: a statement replaces all matching rows at once, a failed transaction puts its rows back; COMMIT and RELEASE are taken not to fail. The PostgreSQL stores other than the session repository are not modelled.
- Hashing, constant-time comparison, phone normalization and time-zone data are opaque. Lower-casing beyond ASCII and U+0130 is any idempotent map of a character to characters, so that a final sigma, whose lower case depends on its neighbours, is not told apart; the length of a value's JSON text is any function of the value; string lengths count characters rather than UTF-16 units.
- Data that no decision reads, such as booking results, provider uids, session ids of a context and event payloads.
- Stores return values: the in-memory stores' sharing of returned session objects is not modelled.
- An audit sink that fails while a booking context is being written.
- SessionRepository.PostgresStore.ClaimSummaryDelivery: does not let other requests run between its UPDATE and the read that follows a miss.
- SessionRepository.PostgresStore.StatusByConsole: does not let other requests run between its read and the write of an expiry.
- SessionRepository.PostgresStore.PurgeRetired: does not let other requests run between its two DELETEs.
- SessionRepository.PostgresStore.ListRecent: does not order or limit its answer.
- SessionRepository.PostgresStore.CountByStatus: does not return the whole tally, but one status at a time.
- The stores' `latestCompleted`.
- Import counts, and the create, update and delete operations of the configuration service other than those administration uses.
- Administration's organization, practice-area, attorney, consultation-type and user areas; a domain's own validator is represented by its verdict, and of a location's fields only name, activity and hours are modelled.
- The workflow engine and the booking, offered-slots and policy code.
- BookingReconciler.Reconcile: does not interleave other requests with the pass; ReconcilerInterleaved does for the evidence result, while the pair and repetition results are about a pass left alone.
- BookingContexts.BookingContextStore.ReconcileStale: does not interleave other requests between its rows; each row's turn is also an operation of the store's runs.
- Outbox.Processor.Drain: does not model a crash inside a handler, nor a second processor; OutboxLease does for the bound on handler runs, for settlement and for finality.
- Scheduler.Executor.Drain: does not model a crash inside a handler, nor a second executor; the scheduler's runs allow both for the timing and finality results, and SchedulerLease for the bound on attempts.
- HandoffStore.MemoryStore.ListByStatuses: does not order or limit its answer.
- HandoffStore.MemoryStore.CountByStatus: does not return the whole tally, but one status at a time.
- Scheduler.Executor.ListClaimable: does not order actions with equal times, because the source leaves that to locale collation.
- Correlation.Engine.CorrelateIntent: does not interleave other requests between its calls; the rule it refines does.
- OrganizationRoundTrip.OwnExportOnlyTouches: does not compare the row ids of replaced office hours, which nothing reads.
