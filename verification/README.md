# Billing validation: a verified model

This project models the control plane of the billing validation runner and proves what it keeps safe. Its centre is the
attempt store: a fenced lease protocol with an append-only quota ledger. Attempts are admitted under a key, hold a lease
and two resource locks (one database project, one Stripe account) under a fence, record Stripe intents and receipts,
charge fixture rows against a reservation, may be taken over through the same or another key, are handed over for a
recheck or a recovery, and are finally cleaned up. Around it stand the smaller components on which a run relies: the
lease-renewal supervisor, the DER and object-identifier reader of the attestation check, the ZIP directory parser and
checksum of the evidence archive, the scanner of migrations, the billing cleanup run and the operator transport.

## How it is organised

* `Records` and `Control` define the tables of the store and each of its transactions as a function from the tables
  before, the request and the answers from outside (clock, verifiers, fresh identifiers) to the tables after and the
  reply. `AttemptStore.Store` is the store itself: the tables are fields, each operation is a method that changes them
  step by step, and each method is proved against its function. `Store.Execute` ties any call to one step of a run.
* `Runs` defines arbitrary sequences of operations. `Ownership` sorts what operations do to leases and locks into five
  kinds of change and proves the invariant for each; `Changes` proves that every operation makes one of them. `Fences`,
  `History`, `Lifecycle`, `StripeLedger`, `RetentionLedger` and `FixtureLedger` carry one part of the invariant each,
  and `Safety` states what follows for every reachable state and every run. `Stalls` proves which states the protocol
  can never leave, and `Witnesses` holds runs from the empty store that get there. `Grants` says of the tables alone
  exactly when each request is granted in a reachable state, for which `Mirrors` relates lock rows to lease rows, and
  `Effects` what a grant is worth afterwards. `FenceText` relates fences to the texts that are stored.
* `LeaseSupervisor`, `Der`, `Oid`, `Zip`, `Crc32`, `SqlScan`, `BillingCleanup` and `OperatorTransport` are
  self-contained; `Supervision` joins the supervisor to the store. `ZipWriter` and `SqlText` write what `Zip` and
  `SqlScan` read, and `CleanupOutcomes` says what a cleanup run does by the kind and status of each resource. `Digits`,
  `Numbers` and `Sorting` hold what several of them share, `Options` an optional value.

## Findings

* A quoted identifier in a migration may run to the end of the input without being closed:
  `SqlScan.UnterminatedNamesAccepted` gives the exact condition and `SqlScan.AnUnterminatedNameIsAccepted` inputs.
* Comments and literals in a migration never show, but a literal may decide: one that is a routine's body is refused for
  a backslash (`SqlScan.BackslashInABodyDecides` at all such inputs). With pinned trigger definitions that hide nothing,
  as the source's do (`SqlScan.PlainTextShows`, `SqlScan.TriggersHideNothing`), hidden text decides in no other way
  (`SqlScan.HiddenTextDecidesInBodies`). For any table of pins `SqlScan.HiddenTextDecidesExactlyWhen` gives the exact
  condition; `SqlScan.CommentInATriggerDecides` assumes a pin with a comment in it, which the source does not have.
* The protocol is safe but not live. `Stalls.ExpiredOwnerMovesExactlyWhen` says when one operation can still move an
  attempt that holds its rows under an expired lease, and `Stalls.ExpiredOwnerEverMovesExactlyWhen` when any run can: an
  attempt with an intent in flight that is collecting, collected or already settled never moves again.
  `Witnesses.CollectingAttemptGetsWedged` and `Witnesses.SettledAttemptGetsWedged` are runs that end there. A takeover
  through another key can leave a lease row that no lock row names, and that key is then never granted again
  (`Stalls.KeyIsOrphanedExactlyWhen`, `Stalls.OrphanedKeyIsNeverGranted`, `Witnesses.KeyGetsOrphaned`). A takeover of
  the same key with another account or project can leave a lock row that no lease row backs, and that resource is then
  never locked again (`Stalls.ResourceIsStrandedExactlyWhen`, `Stalls.StrandedResourceIsNeverGranted`,
  `Witnesses.AccountGetsStranded`).
* The database may refuse what the store lets through, because it reads the clock again: a cleanup receipt or a case
  claim is refused exactly when the lease has expired by the time of the insert (`Safety.CleanupExpiryIsExact`,
  `Safety.CaseClaimExpiryIsExact`, with runs in `Witnesses.LateCleanupIsRefused` and `Witnesses.LateClaimIsRefused`).
* Some guards can never fire: the comparisons of lock rows in the fence check, which an unexpired lease row always
  passes (`Grants.FenceCheckReadsTheLease`), the refusal of a receipt under the intent's own fence while rechecking
  (`Safety.RecheckingOwnerMaySettle`), the database's other rules on settlements, cleanup receipts and usage events
  (`Safety.DatabaseRulesNeverRefuse`), and the last comparison of snapshots in a cleanup run
  (`BillingCleanup.LastComparisonNeverRefuses`), the latter exactly because the collation puts all different rows in
  order (`BillingCleanup.ComparisonIsOfMultisets`); the texts of rows are plain ASCII, among which it has no ties.
* A cleanup run changes every resource before the store looks at what it submits, and the store accepts that exactly
  for runs that own at most 100 resources (`BillingCleanup.ReleaseNeedsRoom`); `BillingCleanup.RunOverTheLimit` is a run
  over the limit. A transition bounds the identifiers in the attempt's row by the same number
  (src/attempts/store.mjs:798), but the run reads its owner's identifiers from its own context, and the check of that
  context (src/billing/contracts.mjs:145-163) does not compare them with the row.
* The operations guide says that cleanup may report a restored baseline (docs/OPERATIONS.md:69); the code always
  reports that it was not (src/billing/cleanup.mjs:308-309), and the model follows the code.

## Model

| member | source | states |
|---|---|---|
| AttemptStore.Store.constructor | src/attempts/store.mjs:350-353 | A new store has empty tables, which satisfy the invariant. |
| AttemptStore.Store.NextFence | src/attempts/postgres-store.mjs:281-287 | Draws the next sequence value, or none once twelve hexadecimal digits are used up. |
| AttemptStore.Store.PutLease | src/attempts/postgres-store.mjs:679-697 | The lease row is written and its event logged exactly when the key is free or holds the expected fence; otherwise nothing changes. |
| AttemptStore.Store.PutLock | src/attempts/postgres-store.mjs:318-346 | A lock row is inserted only where none was read and overwritten only if it is still the row that was read. |
| AttemptStore.Store.PutOwnership | src/attempts/store.mjs:640-648 | Writing lease and locks with the values just read never loses a race inside the transaction: all three rows are rewritten and one event is logged. |
| AttemptStore.Store.DeleteLease | src/attempts/postgres-store.mjs:698-713 | The lease row goes, with a release event, exactly when it is this owner's and unexpired. |
| AttemptStore.Store.DeleteResourceLocks | src/attempts/postgres-store.mjs:347-355 | Both lock rows go exactly when both are this owner's under this fence and unexpired. |
| AttemptStore.Store.Release | src/attempts/store.mjs:881-882 | For an owner, deletion of lease and locks succeeds together or leaves all three rows and the history as they were. |
| AttemptStore.Store.RetentionUsage | src/attempts/postgres-store.mjs:398-441 | The loop over the ledger computes the sums of settled usage and of unsettled projections of one scope. |
| AttemptStore.Store.SumOf | src/attempts/postgres-store.mjs:398-441 | Adding entries in any order gives the one total of the map. |
| AttemptStore.Store.FillCapacity | src/attempts/store.mjs:149-158 | The loop stops at the first quota key that does not fit, and otherwise has filled in what is projected and what remains. |
| AttemptStore.Store.Capacity | src/attempts/store.mjs:135-162 | Grants the capacity record, or refuses for a broken ledger, a different policy or an exceeded quota. |
| AttemptStore.Store.ReplayAdmission | src/attempts/store.mjs:389-404 | A repeated admission is answered from the rows of the first one, whichever of its checks fails first. |
| AttemptStore.Store.LockOwners | src/attempts/store.mjs:410-431 | Collects the owners of the lock rows found on the wanted resources, refusing at the first that is held or does not match its lease. |
| AttemptStore.Store.RetireOwners | src/attempts/store.mjs:441-452 | All prior owners are marked cleaned up when each may be replaced; otherwise the admission is refused. |
| AttemptStore.Store.WriteAdmission | src/attempts/store.mjs:441-471 | The new tables after an admission, or the refusal of one of its writes. |
| AttemptStore.Store.WriteNewOwner | src/attempts/store.mjs:454-471 | Under the fence drawn, the new attempt, its reservation, lease, locks and history event are written together. |
| AttemptStore.Store.Prepare | src/attempts/store.mjs:354-473 | The whole admission as one transaction: its new tables and reply, with every table rolled back on refusal. |
| AttemptStore.Store.ReconcileReservation | src/attempts/store.mjs:474-521 | Settlement of a reservation: idempotent for the same receipt, within the projection, once. |
| AttemptStore.Store.AssertFence | src/attempts/store.mjs:523-534 | The fenced read changes nothing and answers with the row, expiry and server time. |
| AttemptStore.Store.BeginStripeIntent | src/attempts/store.mjs:535-565 | Stores one intent per operation for the current owner outside recovery. |
| AttemptStore.Store.ListPendingStripeIntents | src/attempts/store.mjs:573-591 | The owner sees exactly its intents without a receipt. |
| AttemptStore.Store.HandOver | src/attempts/store.mjs:638-650 | Rewrites ownership under the fence just drawn and moves the attempt to rechecking. |
| AttemptStore.Store.HandoffStripeIntentRecovery | src/attempts/store.mjs:592-653 | The recovery handoff as one transaction; it accepts an expired lease. |
| AttemptStore.Store.ReconcileStripeIntent | src/attempts/store.mjs:654-690 | Stores the one receipt of an intent when the observation repeats it and is verified. |
| AttemptStore.Store.MayMutateFixtures | src/attempts/store.mjs:691-702 | An unmetered fixture writer runs only for the current owner outside recovery. |
| AttemptStore.Store.LatestRowsUsed | src/attempts/postgres-store.mjs:455-480 | The backwards search finds the last value in a reservation's chain of usage events. |
| AttemptStore.Store.ClaimFixtureCase | src/attempts/postgres-store.mjs:506-540 | A claim passes the database's rule at its insert, a case stays with the claim that first named it and a fixture with its slot; a refusal leaves the fixtures as they were. |
| AttemptStore.Store.FixtureMutationWithReservation | src/attempts/store.mjs:703-769 | Charges and claims together, whether or not the writer then throws; a refusal leaves every table as it was. |
| AttemptStore.Store.Renew | src/attempts/store.mjs:770-788 | Moves the expiry of lease and both locks together, under the same fence. |
| AttemptStore.Store.Transition | src/attempts/store.mjs:789-805 | Moves an attempt along the table of allowed transitions. |
| AttemptStore.Store.ResumeRecheck | src/attempts/store.mjs:806-848 | The recheck handoff as one transaction; it accepts an expired lease and does not test the cleanup status. |
| AttemptStore.Store.PutCleanupReceipt | src/attempts/migrations/202610010001-standalone-lease-fencing.sql:111-149 | The database stores a cleanup receipt exactly when its own rule allows it, with a clock reading of its own. |
| AttemptStore.Store.FinishCleanup | src/attempts/store.mjs:879-882 | The attempt is marked and its lease and locks are deleted, or all these tables stay as they were. |
| AttemptStore.Store.Cleanup | src/attempts/store.mjs:849-885 | The cleanup as one transaction with three clock readings: by the store, by the rule on the receipt and at the deletions; a refusal by any of them leaves every table as it was. |
| AttemptStore.Store.Execute | src/attempts/store.mjs:350-885 | Whatever a client calls changes the tables as one step of a run does, keeps the invariant, and succeeds exactly when that step is accepted. |
| Safety.ReachableIsSound | src/attempts/store.mjs:350-885 | Every state that any sequence of operations reaches from empty tables satisfies the whole invariant. |
| Safety.OperationKeepsSound | src/attempts/store.mjs:350-885 | Each operation, accepted or refused, keeps the invariant. |
| Safety.UnexpiredLeaseHoldsItsLocks | src/attempts/store.mjs:245-260 | Every unexpired lease owns both lock rows of its attempt's environment, with the same attempt, fence and expiry. |
| Safety.UnexpiredLeasesShareNothing | src/attempts/store.mjs:408-470 | No two unexpired leases share a database project or a Stripe account. |
| Safety.PendingIntentKeepsOwnership | src/attempts/store.mjs:411-442 | An attempt with an intent that has no receipt still holds its lease row and both lock rows. |
| Safety.LostFenceIsRefusedForEver | src/attempts/store.mjs:333-339 | Over any continuation of any run, no operation presenting a fence that lost its lease or a lock is accepted again. |
| Safety.UnexpiredLeaseIsNobodyElses | src/attempts/store.mjs:408-470 | Until its expiry a holder keeps lease and locks and passes every fence check, over any run of operations but its own renewals, handoffs and cleanup. |
| Safety.RenewedLeaseIsNobodyElses | src/attempts/store.mjs:770-788 | Until its expiry a holder also keeps its lease, under the same fence and with an expiry no earlier, over any run that contains renewals of its own which do not shorten it. |
| Safety.QuotasAreNeverExceeded | src/attempts/store.mjs:135-162 | In every scope the settled usage plus the open projections stay within the one quota record, and the attempts count the reservations ever made. |
| Safety.ReplayRepeatsTheAdmission | src/attempts/store.mjs:389-404 | Repeating an admission while its lease lasts grants exactly what the admission granted and touches no row. |
| Safety.IntentsAndReceiptsAgree | src/attempts/schema.sql:153-189 | At most one intent per attempt and operation, and every receipt repeats its intent under no earlier a fence. |
| Safety.RecoveryClosesIntents | src/attempts/store.mjs:592-653 | After a recovery handoff the attempt's set of intents never grows again. |
| Safety.RecheckingOwnerMaySettle | src/attempts/store.mjs:672-672 | In rechecking, no stored intent of the attempt carries the current fence, so this guard never refuses. |
| Safety.FixtureChargesAreExact | src/attempts/store.mjs:732-768 | The last usage value equals the rows of all accepted metered writes, events form an unbroken chain, and the total stays within the projection. |
| Safety.EveryFixtureIsClaimedOnce | src/attempts/schema.sql:380-389 | Two accepted metered writes of one run name different slots and different fixtures. |
| Safety.HistoryRebuildsLeases | src/attempts/postgres-store.mjs:667-713 | Replaying the append-only history of a key rebuilds its lease row, and every history is well formed. |
| Safety.RowsOnlyMoveForward | src/attempts/store.mjs:789-848 | Over any run collecting is never re-entered and a cleaned-up row never changes again but for the time of its last update. |
| Safety.PhasesAreEnteredInOrder | src/attempts/store.mjs:13-17 | Collecting is entered only by admission and complete only out of rechecking. |
| Safety.CollectingHoldsAdmissionFence | src/attempts/store.mjs:454-470 | While an attempt collects and holds its lease, its fence is that of its admission. |
| Safety.DatabaseRulesNeverRefuse | src/attempts/migrations/202610010001-standalone-lease-fencing.sql:111-168 | Apart from the expiry of the lease, the database's rules on settlements, cleanup receipts and usage events never refuse what the store lets through, in any reachable state. |
| Safety.CleanupExpiryIsExact | src/attempts/migrations/202610010001-standalone-lease-fencing.sql:137-141 | In any reachable state the database refuses a cleanup that the store lets through by its fence rule exactly when the lease has expired by the time the receipt is inserted. |
| Safety.CaseClaimExpiryIsExact | src/attempts/migrations/202610010001-standalone-lease-fencing.sql:95-106 | In any reachable state the database refuses the case claim of a metered write that the store lets through exactly when the lease has expired by the time the claim is inserted. |
| Witnesses.LateCleanupIsRefused | src/attempts/store.mjs:858-878 | A run from empty tables after which one and the same cleanup is granted at once and refused by the database when its verification takes too long. |
| Witnesses.LateClaimIsRefused | src/attempts/postgres-store.mjs:506-519 | A run from empty tables after which one and the same metered write is granted at once and refused by the database when its claim comes late. |
| Ownership.CurrentOwnerOwns | src/attempts/store.mjs:333-339 | The fence check passes exactly for the holder of lease and locks whose lease is unexpired. |
| Ownership.RewritingKeepsOwnership | src/attempts/store.mjs:770-788 | Renewal and handoffs move no other owner and keep lease, lock and intent rows consistent. |
| Ownership.AdmittingKeepsOwnership | src/attempts/store.mjs:408-470 | Admission and takeover through any key keep lease, lock and intent rows consistent. |
| Ownership.AdmissionMovesOwners | src/attempts/store.mjs:409-453 | After an admission exactly the newcomer and the owners it did not replace own. |
| Ownership.PriorOwnersAreIdle | src/attempts/store.mjs:440-450 | No prior owner that an admission may replace has an intent without a receipt. |
| Ownership.ReleasingKeepsOwnership | src/attempts/store.mjs:881-882 | Cleanup releases one owner and leaves the others in place. |
| Ownership.MovingKeepsOwnership | src/attempts/store.mjs:789-805 | A transition leaves all ownership as it was. |
| Changes.EveryOperationMakesItsChange | src/attempts/store.mjs:350-885 | Every operation, whatever it is told from outside, makes one of five kinds of change to ownership. |
| Changes.PrepareEnters | src/attempts/store.mjs:440-471 | A granted admission makes exactly the change of a new owner. |
| Changes.DeniedLeavesEverything | src/attempts/store.mjs:350-885 | A refused operation leaves every table as it was. |
| Changes.EveryOperationKeepsOwnership | src/attempts/store.mjs:350-885 | Every operation keeps the ownership invariant. |
| Fences.RunKeepsLoss | src/attempts/store.mjs:233-236 | A fence that has lost a row stays lost over any run, because fences only rise. |
| Fences.PresentingNeedsHolding | src/attempts/store.mjs:333-339 | An accepted operation that presents a fence needs all three rows to carry it. |
| Fences.FenceIsLostBy | src/attempts/store.mjs:638-646 | Replacing the lease fence, deleting the lease or passing a lock row to another attempt each lose the fence. |
| Fences.UnexpiredLeaseIsKept | src/attempts/store.mjs:408-470 | No run of other operations moves the lease row or the locks of an unexpired lease. |
| History.ChangeKeepsHistory | src/attempts/store.mjs:466-470 | Every change extends the history by at most one event that may follow the one before, with a strictly higher fence at takeovers and handoffs and the same one at renewals. |
| Lifecycle.ChangeKeepsLifecycle | src/attempts/store.mjs:789-848 | The fence of a collecting attempt is its admission fence, and intents of a rechecking attempt are older than its fence. |
| Lifecycle.ChangeMovesRow | src/attempts/store.mjs:13-17 | How any change may move the row of any attempt. |
| StripeLedger.OperationKeepsStripeRows | src/attempts/store.mjs:549-562 | Every operation keeps intents unique by operation and by idempotency key and receipts in agreement. |
| StripeLedger.RecheckingIntentIsOlder | src/attempts/store.mjs:672-672 | Every intent of a rechecking owner was begun under an earlier fence. |
| StripeLedger.RecoveryNeverBeginsAnotherIntent | src/attempts/store.mjs:641-650 | From a state of recovery no run adds an intent. |
| RetentionLedger.TotalWithout | src/attempts/postgres-store.mjs:398-441 | The total of a map does not depend on the order of its entries. |
| RetentionLedger.CapacityIsExact | src/attempts/store.mjs:135-162 | A request is granted exactly when it fits beside all that is charged, under the scope's own quotas. |
| RetentionLedger.AdmissionStaysWithinQuotas | src/attempts/store.mjs:461-465 | Reserving what was granted keeps the scope within its quotas. |
| RetentionLedger.SettlementCharges | src/attempts/store.mjs:504-518 | Settling replaces the projection by what was retained and never raises what is charged. |
| RetentionLedger.ChargedCountsReservations | src/attempts/store.mjs:504-518 | The attempts charged in a scope are the reservations made there. |
| RetentionLedger.OperationKeepsRetention | src/attempts/schema.sql:277-305 | Every operation keeps the ledger: one reservation per attempt, one policy per scope, receipts within reservations, charges within quotas. |
| FixtureLedger.ChainClimbs | src/attempts/postgres-store.mjs:481-505 | Of two usage events of a reservation the earlier ends no later than the later begins. |
| FixtureLedger.LastEventIsTheMaximum | src/attempts/postgres-store.mjs:442-454 | The last value of a chain is its greatest. |
| FixtureLedger.ChargingIsExact | src/attempts/store.mjs:732-768 | Over any run a reservation's use grows by exactly the rows of its accepted metered writes. |
| FixtureLedger.OperationKeepsFixtures | src/attempts/schema.sql:364-390 | Every operation keeps the chains and claims consistent. |
| FixtureLedger.ClaimsAreForever | src/attempts/schema.sql:380-389 | A claimed slot keeps its fixture over any run. |
| FixtureLedger.NothingIsClaimedTwice | src/attempts/postgres-store.mjs:506-540 | A later accepted write names neither the slot nor the fixture of an earlier one. |
| Mirrors.ReachableLocksMirror | src/attempts/store.mjs:638-648 | In every reachable state a lock row that its owner's lease row still backs has that row's expiry and run. |
| Mirrors.OwnsExactlyWhenNamed | src/attempts/store.mjs:245-260 | So an attempt owns its rows exactly when its lease row and both lock rows name it under one fence; the other comparisons never decide. |
| Grants.FenceCheckReadsTheLease | src/attempts/store.mjs:333-339 | In every reachable state the fence check passes exactly when the lease row at the attempt's key names it under the fence and has not expired. |
| Grants.CheckIsGrantedExactlyWhen | src/attempts/store.mjs:523-534 | When fenced reads are granted, and when an unmetered writer may run: never under a recovery lease or while rechecking. |
| Grants.RenewalIsGrantedExactlyWhen | src/attempts/store.mjs:770-788 | A renewal is granted exactly to the current owner, for 1 to 3600 seconds. |
| Grants.MoveIsGrantedExactlyWhen | src/attempts/store.mjs:789-805 | A transition is granted exactly to the current owner from the phase the row is in, along the eight allowed moves, and into collected only with an artifact. |
| Grants.IntentIsBegunExactlyWhen | src/attempts/store.mjs:535-565 | An intent is begun exactly by the current owner outside recovery, in the row's identity, for a new operation and a new idempotency key. |
| Grants.ReceiptIsGrantedExactlyWhen | src/attempts/store.mjs:654-690 | A receipt is granted exactly to the current owner for its own intent without one, for a verified observation that repeats the intent while the test clock still exists. |
| Grants.SettlementIsGrantedExactlyWhen | src/attempts/store.mjs:474-521 | A first settlement needs the lease row, the projection and the verifier; a repeated one that it is the same under the same fence. |
| Grants.ChargeIsGrantedExactlyWhen | src/attempts/store.mjs:703-769 | A metered write is granted exactly to the collecting owner whose lease outlasts the insert, for its own unsettled reservation, within the rows left, for a free slot and fixture. |
| Grants.CleanupIsGrantedExactlyWhen | src/attempts/store.mjs:849-885 | A cleanup is granted exactly to an owner whose attempt has ended, with nothing in flight and the verifier's word, whose lease outlasts the last clock reading. |
| Grants.RecoveryIsGrantedExactlyWhen | src/attempts/store.mjs:592-653 | A recovery handoff is granted exactly for an unsettled attempt past collection that holds its rows and has an intent in flight or was recovered before, to another run that the verifier names. |
| Grants.RecheckIsGrantedExactlyWhen | src/attempts/store.mjs:806-848 | A recheck is granted exactly for a collected attempt that holds its rows with nothing in flight, to a new run that repeats all that was recorded, when both checks of its past agree. |
| Grants.AdmissionIsGrantedExactlyWhen | src/attempts/store.mjs:354-473 | A new attempt is admitted exactly when the request is valid and fits, key and resources are free, and every attempt that their rows name is recovered, idle and settled. |
| Grants.TakeoverNeedsRecovery | src/attempts/store.mjs:441-450 | No takeover without the recovery verifier: whoever the wanted lock rows or the key's lease row name was confirmed, has expired, and has nothing in flight and nothing unsettled. |
| Witnesses.TakeoverWithoutRecoveryIsRefused | src/attempts/store.mjs:443-446 | A run from empty tables after which the same takeover is granted when the verifier confirmed the prior owner and refused when it confirmed nobody. |
| Grants.ReplayIsGrantedExactlyWhen | src/attempts/store.mjs:389-404 | A repeated admission is granted exactly while the attempt collects under its unexpired lease, in the same identity, quotas and projection, and unsettled. |
| Effects.LeaseLastsAsAsked | src/attempts/store.mjs:770-788 | Whatever gives a lease, its owner passes the fence check with the fence given, and no other, exactly until the time asked for has passed. |
| Effects.StandingIsTold | src/attempts/store.mjs:523-534 | Whoever checks, renews or takes over a lease is told the row, the expiry and the server time as the store then has them. |
| Effects.AdmissionIsTold | src/attempts/store.mjs:341-348 | Whoever is admitted is told the row, fence, reservation and capacity as stored; a first capacity adds up to what is charged, asked for and left of the quotas. |
| Effects.WritesAreTold | src/attempts/store.mjs:474-885 | Whoever has a row written is told that row, and an owner is listed exactly its intents without a receipt. |
| Effects.LeaseChangesAreLogged | src/attempts/postgres-store.mjs:667-713 | Whatever gives or takes a lease logs one event that tells what was done, the fence, the expiry and the run; nothing else is logged. |
| Effects.ChangedRowsAreStamped | src/attempts/store.mjs:441-452 | Every attempt row that changes is stamped with the time of its transaction. |
| Effects.NewRowsAreStamped | src/attempts/store.mjs:454-471 | Every row added is stamped with the first clock reading of its transaction. |
| Effects.SettlingTwiceIsSettlingOnce | src/attempts/store.mjs:474-521 | Once settled, the same settlement is granted again whatever the verifier says, any other is refused, and neither changes anything. |
| Effects.RunKeepsIntents | src/attempts/schema.sql:153-189 | Over any run intents and receipts are never changed or lost. |
| Effects.BegunIntentTakesItsOwnObservation | src/attempts/store.mjs:654-690 | At any time after an intent is begun it is settled exactly by a verified observation of what its request said. |
| Effects.ReceiptSettlesItsIntentOnly | src/attempts/store.mjs:654-690 | A receipt keeps what was observed for ever and takes exactly its own intent off the pending ones. |
| Effects.OnlyTheCollectedArtifactIsRechecked | src/attempts/store.mjs:789-848 | Whatever happens in between, a recheck is granted for no other artifact than the one that was collected. |
| Effects.MovedAsAsked | src/attempts/store.mjs:789-805 | A transition records the phase, artifact and resources it is given and keeps those it is not. |
| Effects.CleanupFreesTheRows | src/attempts/store.mjs:849-885 | After a cleanup a new attempt on the same key and environment is admitted without any recovery, as long as there is room. |
| Effects.ChargeTellsWhatWasLeft | src/attempts/store.mjs:703-769 | A granted write is told the projection less the rows of all accepted writes before it. |
| Stalls.ExpiredOwnerMovesExactlyWhen | src/attempts/store.mjs:440-450 | An attempt that holds its rows under an expired lease is moved by some operation exactly when a fence is left and it is collected with nothing in flight, or past collection, unsettled and either with an intent in flight or recovered before, or settled with nothing in flight. |
| Stalls.ExpiredOwnerEverMovesExactlyWhen | src/attempts/store.mjs:618-621 | Such an attempt is moved by some run exactly when fences are left and it is not wedged: it is wedged when an intent is in flight and it is collecting, collected or settled. |
| Stalls.StuckForEver | src/attempts/store.mjs:442-442 | No run changes the row, the lease or the locks of a wedged attempt, nor of an expired one once the fences are used up. |
| Stalls.OwnerMaySettle | src/attempts/store.mjs:474-521 | An owner can always be settled, even under an expired lease, and nothing but its settlement changes. |
| Witnesses.CollectingAttemptGetsWedged | src/attempts/store.mjs:442-442 | A run from empty tables that wedges a collecting attempt by letting its lease expire with an intent in flight. |
| Witnesses.SettledAttemptGetsWedged | src/attempts/store.mjs:618-621 | A run from empty tables that wedges a cancelled attempt by settling it with an intent in flight and letting its lease expire. |
| Stalls.OrphanedForEver | src/attempts/store.mjs:432-435 | A lease row that no lock row names stays as it is for ever. |
| Stalls.OrphanedKeyIsNeverGranted | src/attempts/store.mjs:432-435 | No later admission on such a key is ever accepted. |
| Stalls.AdmissionOrphansKey | src/attempts/store.mjs:409-431 | An admission leaves a lease row that no lock row names exactly at the other keys of whose leases it takes every lock row that names them. |
| Stalls.KeyIsOrphanedExactlyWhen | src/attempts/store.mjs:409-431 | An operation orphans a key exactly when it is an accepted admission of a new attempt on another key that takes every lock row naming the lease. |
| Witnesses.KeyGetsOrphaned | src/attempts/store.mjs:432-435 | A run from empty tables that orphans a key by a takeover through another key of the same environment, after which no admission on it is ever accepted. |
| Stalls.StrandedForEver | src/attempts/store.mjs:420-431 | A lock row whose owner's lease row is gone stays as it is for ever. |
| Stalls.StrandedResourceIsNeverGranted | src/attempts/store.mjs:427-431 | No later admission that wants such an account or project is ever accepted. |
| Stalls.ResourceIsStrandedExactlyWhen | src/attempts/store.mjs:427-431 | An operation strands a resource exactly when it is an accepted admission that takes the key of the lock's owner and not the lock. |
| Witnesses.AccountGetsStranded | src/attempts/store.mjs:427-431 | A run from empty tables that strands an account by a takeover of the same key with another account. |
| FenceText.Padded | src/attempts/postgres-store.mjs:286-286 | The padded digits stand for the value, and are twelve exactly up to the bound. |
| FenceText.WriteIsInjective | src/attempts/postgres-store.mjs:281-287 | Different fences have different texts. |
| FenceText.WriteKeepsOrder | src/attempts/postgres-store.mjs:281-287 | A later fence has the greater text, character by character, and conversely. |
| FenceText.FenceIsAUuid | src/attempts/postgres-store.mjs:281-287 | Every fence text has the length and the fixed characters of a version 4 UUID. |
| FenceText.BoundIsExact | src/attempts/postgres-store.mjs:284-286 | The text is 36 characters long exactly for the values the bound allows. |
| Digits.FromTo | src/attempts/postgres-store.mjs:286-286 | Reading the digits of a number gives the number back, and they have no leading zero. |
| Digits.ToFrom | runner/attestation-environment.mjs:39-49 | A digit string without leading zeros is the one such string of its value. |
| Digits.LengthIsExact | src/attempts/postgres-store.mjs:284-286 | n digits hold exactly the values below the n-th power of the base. |
| Digits.SmallerIsBelow | src/attempts/postgres-store.mjs:281-287 | Among digit strings of one length, a smaller value comes first. |
| LeaseSupervisor.Supervise | src/attempts/lock.mjs:38-104 | Supervision starts exactly from a valid configuration and a current confirmation. |
| LeaseSupervisor.Supervisor.ReportLoss | src/attempts/lock.mjs:58-62 | Only the first reported reason aborts, and none after the work settled. |
| LeaseSupervisor.Supervisor.ArmDeadline | src/attempts/lock.mjs:63-75 | The deadline timer is armed exactly for a plausible confirmation whose remaining time, counted from the request, has not run out. |
| LeaseSupervisor.Supervisor.OnRenewalDue | src/attempts/lock.mjs:77-94 | Sends a renewal with a wait bounded by the deadline, or fails when the deadline has passed. |
| LeaseSupervisor.Supervisor.OnReply | src/attempts/lock.mjs:95-99 | A confirmed renewal moves the deadline and schedules the next; any other ends supervision. |
| LeaseSupervisor.Supervisor.OnRejection | src/attempts/lock.mjs:100-100 | A failed renewal ends supervision with the store's reason. |
| LeaseSupervisor.Supervisor.OnWaitElapsed | src/attempts/lock.mjs:85-93 | A renewal that waited too long ends supervision as expired or timed out. |
| LeaseSupervisor.Supervisor.OnDeadline | src/attempts/lock.mjs:73-73 | The deadline ends supervision as expired. |
| LeaseSupervisor.Supervisor.OnWorkSettled | src/attempts/lock.mjs:106-111 | When the work settles all timers are cleared. |
| LeaseSupervisor.WorkGoesOnExactlyWhileRenewed | src/attempts/lock.mjs:56-112 | Over any schedule of callbacks, supervision is on exactly as long as renewals sent before the confirmed expiry alternate with plausible replies received before the expiry they confirm, and nothing else has happened. |
| LeaseSupervisor.StartsExactlyWhen | src/attempts/lock.mjs:38-104 | Supervision starts exactly for an interval below the time to live, from a confirmation of plausible length that has not run out. |
| LeaseSupervisor.RenewalsComeAtTheInterval | src/attempts/lock.mjs:76-102 | Over any schedule, the next renewal is sent exactly one interval after the last answer, or the start, unless the lease confirmed last has run out by then. |
| LeaseSupervisor.PendingRenewalIsGivenUp | src/attempts/lock.mjs:79-93 | A pending renewal is given up one interval after it was sent or when the lease runs out, and which of the two is said depends on one millisecond. |
| LeaseSupervisor.EndTellsWhy | src/attempts/lock.mjs:58-103 | Whatever ends supervision, the work is told the error of the store, a timeout, or the expiry of the lease, according to the event that ended it. |
| LeaseSupervisor.SettledWorkLeavesNothingArmed | src/attempts/lock.mjs:106-111 | Once the work has settled no timer is armed again, whatever answers still arrive. |
| LeaseSupervisor.ArmedDeadlineIsSafe | src/attempts/lock.mjs:56-112 | For any schedule of callbacks and honest replies, every armed deadline is no later than the real expiry of the last confirmed lease. |
| LeaseSupervisor.UnabortedWorkHoldsTheLease | src/attempts/lock.mjs:56-112 | While no due timer is left unfired, work that was not aborted runs under an unexpired lease. |
| LeaseSupervisor.SupervisionNeverStalls | src/attempts/lock.mjs:76-102 | While supervision is on, a renewal is scheduled or a pending one will be given up by the deadline. |
| LeaseSupervisor.AtMostOneAbort | src/attempts/lock.mjs:58-62 | Over any schedule there is at most one abort. |
| LeaseSupervisor.OverForEver | src/attempts/lock.mjs:76-102 | After a failure or the end of the work no renewal is sent or scheduled and the reason stays. |
| Supervision.RenewalIsPlausible | src/attempts/lock.mjs:63-69 | Whatever the store answers to a renewal is plausible to the supervisor that asked. |
| Supervision.UnabortedWorkKeepsItsLease | src/attempts/lock.mjs:38-112 | While no due timer is left unfired, work that was not aborted still holds its lease in the store under the same fence and no shorter, whatever all others have done there and however many of its own renewals were committed whose replies it has not seen. |
| Der.ReadDerNode | runner/attestation-environment.mjs:8-26 | A node is read exactly when the octets are the one encoding of its tag and length and its content fits the limit. |
| Der.BigEndian | runner/attestation-environment.mjs:18-22 | The loop computes the number the length octets stand for. |
| Der.NodeIsUnique | runner/attestation-environment.mjs:8-26 | At most one node starts at any offset. |
| Der.LookalikeIsNode | runner/attestation-environment.mjs:8-26 | Octets that pass the reader's tests are the minimal encoding. |
| Der.DerChildren | runner/attestation-environment.mjs:28-37 | The children tile the content with no gap, overlap or overrun, and the content is the concatenation of the encodings of what they hold; refusal means there is no tiling by at most 4096 nodes. |
| Der.TilingIsUnique | runner/attestation-environment.mjs:28-37 | No content can be read as children in two ways. |
| Der.TilesEncodeTheirItems | runner/attestation-environment.mjs:28-37 | Tiled content is the concatenation of the encodings of its items. |
| Der.EncodingIsTiled | runner/attestation-environment.mjs:28-37 | The encoding of any items is tiled by one node for each, with the same tags and contents. |
| Oid.Base128Integer | runner/attestation-environment.mjs:39-49 | An integer is read exactly when the octets are its minimal base-128 encoding and it is a safe integer. |
| Oid.IntegerIsUnique | runner/attestation-environment.mjs:39-49 | At most one integer is encoded at any offset. |
| Oid.DerOid | runner/attestation-environment.mjs:51-63 | An identifier is decoded exactly when the content is the encoding of valid arcs, within 64 subidentifiers, and those arcs are returned. |
| Oid.SplitInvertsJoin | runner/attestation-environment.mjs:60-62 | Splitting the first subidentifier gives back the first two arcs. |
| Oid.JoinInvertsSplit | runner/attestation-environment.mjs:60-62 | And joining them gives back the subidentifier, with a second arc below 40 under the first two roots. |
| Oid.EncodingIsInjective | runner/attestation-environment.mjs:51-63 | One content decodes to one identifier. |
| Oid.DottedIsInjective | runner/attestation-environment.mjs:62-62 | Different identifiers have different dotted texts. |
| Oid.ComparingTextsComparesOctets | runner/attestation-environment.mjs:117-117 | Comparing the dotted texts of two decoded identifiers is comparing their octets. |
| Oid.DeploymentEnvironmentOctets | runner/attestation-environment.mjs:2-2 | The extension's identifier is recognised by exactly one octet string. |
| Zip.FindEndRecord | src/contracts/evidence.mjs:244-252 | Finds the last end record whose comment reaches the end of the archive, or there is none. |
| Zip.RejectZip64 | src/contracts/evidence.mjs:229-242 | Accepts extra fields exactly when they fill their range and none is a 64-bit extension. |
| Zip.ReadCentralRecord | src/contracts/evidence.mjs:275-308 | A central record is read exactly when every field is as required and it ends within the directory. |
| Zip.ReadCentralDirectory | src/contracts/evidence.mjs:271-311 | Accepted exactly when so many central records tile the directory and the declared sizes are within the limits. |
| Zip.ReadLocalRecord | src/contracts/evidence.mjs:314-346 | A local record is accepted exactly when header, data and descriptor repeat the central record and end before the central directory. |
| Zip.NoOverlap | src/contracts/evidence.mjs:348-351 | Comparing neighbours after sorting by start decides whether all pairs of records are apart. |
| Zip.NeighboursDecide | src/contracts/evidence.mjs:348-351 | Among sorted non-empty spans, neighbours are apart exactly when all pairs are. |
| Zip.SortKeepsApartness | src/contracts/evidence.mjs:348-348 | Sorting does not change whether spans are pairwise apart. |
| Zip.ReadLocals | src/contracts/evidence.mjs:313-351 | All local records are accepted exactly when each is and no two overlap. |
| Zip.ParseDirectory | src/contracts/evidence.mjs:254-353 | An archive is accepted exactly when it has a directory as described; its members are returned with the offsets of their data. |
| Zip.MembersShareNothing | src/contracts/evidence.mjs:348-351 | The data of different members is disjoint and lies before the central directory. |
| Zip.DecodeEntry | src/contracts/evidence.mjs:355-367 | Contents are returned exactly when length and checksum are as declared. |
| Zip.ChangedDataIsDetected | src/contracts/evidence.mjs:355-367 | A stored member no longer decodes after any change within four consecutive bytes of its data. |
| ZipWriter.WrittenArchiveIsAcceptedExactlyWhen | src/contracts/evidence.mjs:254-353 | Of all archives that can be written, in literal signatures and fields low byte first, exactly those are accepted that say what is allowed, and with just the members written. |
| ZipWriter.WrittenDataIsReadBack | src/contracts/evidence.mjs:354-367 | The data of every member of an accepted archive is found where it was written, and a stored member is given back exactly when its sums are right. |
| ZipWriter.CentralIsRead | src/contracts/evidence.mjs:275-308 | A central record that was written is read exactly when its member is allowed, and as what was written. |
| ZipWriter.LocalIsRead | src/contracts/evidence.mjs:314-346 | A local record that was written, with its descriptor if it has one, is accepted exactly when its extra fields are plain. |
| ZipWriter.ExtrasArePlain | src/contracts/evidence.mjs:229-242 | Written extra fields are accepted exactly when none has the identifier of the 64-bit extension. |
| ZipWriter.ModeIsRegular | src/contracts/evidence.mjs:296-301 | Of a Unix host's modes exactly regular or untyped files are accepted whose three octal digits are even. |
| Crc32.Compute | src/contracts/evidence.mjs:197-204 | The bitwise loops compute the fold of the step over the bytes. |
| Crc32.FoldIsInjective | src/contracts/evidence.mjs:197-204 | From different states the same bytes lead to different states. |
| Crc32.FoldContinues | src/contracts/evidence.mjs:197-204 | The state after a concatenation continues from the state after its first part. |
| Crc32.StepsAreLinear | src/contracts/evidence.mjs:201-201 | The step is linear over exclusive or. |
| Crc32.FourBytesAreOneWord | src/contracts/evidence.mjs:197-204 | Reading four bytes is mixing in one word and taking 32 steps. |
| Crc32.BurstIsDetected | src/contracts/evidence.mjs:197-204 | Contents that differ only within four consecutive bytes, a single byte in particular, have different checksums. |
| Crc32.CheckValue | src/contracts/evidence.mjs:197-204 | The checksum of the digits 123456789 is the check value cbf43926, and that of empty contents is zero. |
| Sorting.SortSorts | src/contracts/evidence.mjs:348-348 | The sort of the library orders its input. |
| Sorting.SortKeepsElements | src/contracts/evidence.mjs:348-348 | And keeps its elements. |
| Sorting.OrderIsUnique | src/billing/cleanup.mjs:95-102 | Where only equal elements tie, there is one sorted arrangement. |
| Sorting.SortingCompares | src/billing/cleanup.mjs:288-290 | And comparing sorted lists is comparing them as multisets. |
| SqlScan.ReadSingleQuoted | src/attempts/migrations.mjs:46-67 | Where a literal ends, the text it stands for, and whether it holds a backslash. |
| SqlScan.QuotingRoundTrips | src/attempts/migrations.mjs:46-67 | Reading a literal undoes doubling its quotes. |
| SqlScan.SkipLine | src/attempts/migrations.mjs:115-121 | The loop passes over a line comment. |
| SqlScan.SkipBlock | src/attempts/migrations.mjs:122-133 | The loop passes over a nested block comment, or finds it unclosed. |
| SqlScan.SkipName | src/attempts/migrations.mjs:183-195 | The loop passes over a quoted identifier, or refuses it. |
| SqlScan.NextPiece | src/attempts/migrations.mjs:101-217 | Which kind of text stands at an index, where it ends, and what it stands for if it is quoted. |
| SqlScan.FinishStatement | src/attempts/migrations.mjs:89-105 | The end of a statement: a routine definition needs its body, and a trigger is defined by its pinned text. |
| SqlScan.ScanSql | src/attempts/migrations.mjs:80-221 | The loop over the whole input, with its word, routine and statement variables, refuses what the scan by pieces refuses and returns the same visible text and routines. |
| SqlScan.ScanIsMasked | src/attempts/migrations.mjs:80-221 | The visible text of an accepted input is the input in order with each hidden piece replaced by one space, whatever its statements are. |
| SqlScan.MaskedSplits | src/attempts/migrations.mjs:80-221 | What is visible of an input is what is visible of its pieces, in order. |
| SqlScan.NextIsLocal | src/attempts/migrations.mjs:107-217 | A piece is determined by its own text and by how the next piece begins. |
| SqlScan.HiddenTextDoesNotShow | src/attempts/migrations.mjs:80-221 | If two inputs are accepted that differ in one hidden piece of a kind, beginning alike, what is visible of both is the same. |
| SqlScan.HiddenTextDecidesExactlyWhen | src/attempts/migrations.mjs:80-221 | Replacing such a piece keeps an accepted input accepted exactly when a literal that is the body of a routine holds no backslash and a trigger is still defined by its pinned text. |
| SqlScan.HiddenTextDecidesNothingElsewhere | src/attempts/migrations.mjs:80-221 | Outside the bodies of routines and the definitions of triggers, replacing such a piece changes nothing about acceptance. |
| SqlScan.TriggersHideNothing | src/attempts/migrations.mjs:99-104 | Where no pinned text hides anything, as none of the source does, no accepted input hides anything inside the definition of a trigger. |
| SqlScan.PlainTextShows | src/attempts/migrations.mjs:24-30 | A text without quotes, dollar signs and comment openings, such as the pinned definitions are, hides nothing. |
| SqlScan.HiddenTextDecidesInBodies | src/attempts/migrations.mjs:168-169 | With such pins, replacing a hidden piece of an accepted input keeps it accepted exactly when a literal that is the body of a routine holds no backslash. |
| SqlScan.BackslashInABodyDecides | src/attempts/migrations.mjs:168-169 | A function definition whose body is written as a literal, whatever text it stands for, is accepted exactly when that text holds no backslash. |
| SqlScan.StatementOfWords | src/attempts/migrations.mjs:69-105 | A statement of words alone is accepted exactly when it defines no routine, CREATE with FUNCTION or PROCEDURE in one of the next four places, and no trigger but one pinned by its text. |
| SqlScan.DefinitionWithBody | src/attempts/migrations.mjs:143-150 | After AS a dollar-quoted text is the body of such a definition and of no other; it is accepted exactly when the name can be read, and holds that body and the whole text. |
| SqlScan.ReplacedRoutineIsFound | src/attempts/migrations.mjs:69-71 | CREATE OR REPLACE, with FUNCTION or PROCEDURE, is found with its body, and refused without one. |
| SqlText.WhatIsWrittenIsRead | src/attempts/migrations.mjs:107-217 | Reading undoes writing: blanks, comments, literals with every prefix, dollar-quoted texts, quoted identifiers, words and marks are taken for what they were written as, through their very end. |
| SqlText.WrittenTextIsScanned | src/attempts/migrations.mjs:80-221 | A text made of such pieces is scanned piece by piece as it was written, and shows just its blanks, words and marks. |
| SqlText.DefinitionIsFoundInAnyText | src/attempts/migrations.mjs:69-105 | However a statement is written, with blanks, comments and quoted texts anywhere, it defines a routine exactly when its words say so and then needs one body, a quoted text right after AS; what is found is the name read before it, what it stands for and the whole text from the first word on. |
| SqlText.SecondBodyIsRefused | src/attempts/migrations.mjs:146-146 | A definition with a second body is refused. |
| SqlText.StatementsAreScannedInTurn | src/attempts/migrations.mjs:209-221 | What comes after a semicolon is scanned as if nothing stood before it. |
| SqlText.CaseIsIgnored | src/attempts/migrations.mjs:199-204 | Words are compared without regard to the case of their letters. |
| SqlText.BlankCharacters | src/attempts/migrations.mjs:110-121 | Which characters are blank, by the list in the standard of the language, and which end a line comment. |
| SqlScan.CommentInATriggerDecides | src/attempts/migrations.mjs:99-104 | For a table that pins a trigger with a comment in its definition, which the table of the source does not: two inputs that differ in that comment, of which one is accepted and the other refused. |
| SqlScan.LineCommentIsOneLine | src/attempts/migrations.mjs:115-121 | A line comment is everything up to the first line end. |
| SqlScan.CommentsNest | src/attempts/migrations.mjs:122-133 | A whole comment inside a comment is passed over. |
| SqlScan.IndexIsFirst | src/attempts/migrations.mjs:135-140 | A dollar-quoted body ends at the first occurrence of its delimiter. |
| SqlScan.UnterminatedNamesAccepted | src/attempts/migrations.mjs:183-195 | A quoted identifier that nothing closes is accepted exactly when the last character of the input is a quote. |
| SqlScan.AnUnterminatedNameIsAccepted | src/attempts/migrations.mjs:183-195 | Two inputs that end inside a quoted identifier and that the scan accepts, and one that it refuses, whatever the tables of digests. |
| BillingCleanup.RowsDifference | src/billing/cleanup.mjs:146-160 | The counting loops compute exact multiset difference, and whether the baseline is missing anything. |
| BillingCleanup.SameIds | src/billing/cleanup.mjs:169-175 | Equal length and inclusion one way make the same identifiers, when the expected ones are distinct. |
| BillingCleanup.VerifyTable | src/billing/cleanup.mjs:164-176 | A table passes exactly when it is its baseline plus exactly the owned rows. |
| BillingCleanup.VerifyDatabaseOwnershipProjection | src/billing/cleanup.mjs:162-177 | All seven tables are checked. |
| BillingCleanup.NothingOwnedIsBaseline | src/billing/cleanup.mjs:162-177 | When nothing is owned, passing means that all tables hold exactly the baseline's rows. |
| BillingCleanup.OpenRun | src/billing/cleanup.mjs:193-235 | The run may start changing things exactly when nothing is pending, nothing is owned in the database, the tables are at the baseline and every resource is supported. |
| BillingCleanup.ActOnAll | src/billing/cleanup.mjs:236-261 | Resources are mutated in order, each reconciled before the next, and the loop stops at the first failure. |
| BillingCleanup.ReobserveRun | src/billing/cleanup.mjs:270-294 | The second observation passes exactly when the inventory is the predicted one, the tables are still at the baseline, the owned rows are the same and the two snapshots, sorted again, are equal. |
| BillingCleanup.PredictionCompares | src/billing/cleanup.mjs:288-290 | Comparing sorted inventories is comparing them as multisets. |
| BillingCleanup.CleanupOwnedResources | src/billing/cleanup.mjs:185-313 | Completes exactly when every check and call succeeds and the store accepts what is submitted; nothing is changed before all was in order, and the lease is released only after the prediction came true. |
| BillingCleanup.EachIsActedOnOnceLatestFirst | src/billing/cleanup.mjs:232-232 | Exactly the resources with an action are acted on, each once, in descending order of sequence and identifier. |
| BillingCleanup.LastComparisonNeverRefuses | src/billing/cleanup.mjs:294-294 | Where the collation tells all different rows apart, the last comparison of snapshots refuses no run that came so far. |
| BillingCleanup.ComparisonIsOfMultisets | src/billing/observations.mjs:168-197 | Comparing sorted snapshots is comparing tables as multisets exactly when the collation has no ties between different rows. |
| BillingCleanup.InventoriesCompare | src/billing/cleanup.mjs:179-183 | Comparing sorted inventories of owned rows is comparing them as multisets. |
| BillingCleanup.RetentionTellsFinalStatus | src/billing/cleanup.mjs:104-111 | What is reported of a resource tells the status it is expected to end with. |
| BillingCleanup.SummaryIsComplete | src/billing/cleanup.mjs:104-111 | Every supported resource is reported, once. |
| BillingCleanup.ProjectionFitsUpToItsLimit | src/attempts/store.mjs:202-227 | The store accepts the projection of a run exactly when the attempt owns at most 100 resources. |
| BillingCleanup.ReleaseNeedsRoom | src/attempts/store.mjs:850-851 | The release of an opened run succeeds exactly when the store would clean up and the run owns at most 100 resources, which a bound on the owner's identifiers implies. |
| BillingCleanup.RunOverTheLimit | src/attempts/store.mjs:202-227 | A run that owns 101 open checkout sessions and whose every other call succeeds does all its work, and its release is refused. |
| BillingCleanup.NothingIsLeftToActOn | src/billing/cleanup.mjs:73-102 | At the end of a completed run no resource has an action left. |
| CleanupOutcomes.WorkSuitsTheResources | src/billing/cleanup.mjs:73-102 | Exactly the open checkout sessions are expired and exactly the subscriptions in one of six live statuses are cancelled. |
| CleanupOutcomes.EveryMutationSuitsItsResource | src/billing/cleanup.mjs:236-243 | Every change in the log is to a test-mode resource of the attempt's own, in a state that calls for just that change. |
| CleanupOutcomes.MutationIsReconciledNext | src/billing/cleanup.mjs:236-261 | Every change that succeeds is followed by the reconciliation of the same resource before anything else. |
| CleanupOutcomes.LatestIsUndoneFirst | src/billing/cleanup.mjs:57-57 | Of two resources changed in a run, the one with the greater sequence, or the greater identifier where these are equal, is changed first. |
| CleanupOutcomes.ReleaseComesLast | src/billing/cleanup.mjs:263-305 | The release comes last, after the fixtures were cleaned and what is left was seen to be as predicted. |
| CleanupOutcomes.EveryResourceEndsAsItShould | src/billing/cleanup.mjs:104-111 | A completed run leaves the same resources, open sessions expired, live subscriptions cancelled, all others as they were, no owned row and every table as at its baseline. |
| CleanupOutcomes.SubmissionReportsEveryResource | src/billing/cleanup.mjs:113-120 | What is submitted reports every resource once, according to its kind and first status. |
| CleanupOutcomes.SubmissionNamesTheMutated | src/billing/cleanup.mjs:236-261 | And names as mutated exactly those that were acted on. |
| CleanupOutcomes.NothingIsTouchedUnlessInOrder | src/billing/cleanup.mjs:185-231 | Nothing is touched while an intent is pending, a row is owned, a table differs from its baseline, a resource is unknown or not the attempt's own, or there is something to act on whose intent could not be observed. |
| CleanupOutcomes.OwnedRowsAreInTheirTables | src/billing/cleanup.mjs:16-24 | The ownership test passes only if every owned row is found in the table of its kind and every row beyond the baseline is owned there. |
| OperatorTransport.Transport.SettlePending | src/operator/transport.mjs:51-59 | Settles the pending request, if any, and clears it. |
| OperatorTransport.Transport.Obtain | src/operator/transport.mjs:61-95 | Publishes a request exactly when open, bound to this attempt, idle and given a fresh nonce. |
| OperatorTransport.Transport.OnTimer | src/operator/transport.mjs:83-85 | A timer that goes off gives up the pending request, whichever it is. |
| OperatorTransport.Transport.OnPublicationFailure | src/operator/transport.mjs:88-92 | A failed publication gives up the pending request if it has the nonce that was published. |
| OperatorTransport.FailuresEndTheirOwnRequest | src/operator/transport.mjs:51-93 | In any run a timer settles only the request it was armed for, and a failed publication only its own and only while it is pending. |
| OperatorTransport.Transport.OnSignal | src/operator/transport.mjs:113-131 | Accepts exactly a signal that answers the pending request; a completion creates one capability for it. |
| OperatorTransport.Transport.IsOpaqueCapability | src/operator/transport.mjs:99-103 | Says whether a capability would verify, without using it up. |
| OperatorTransport.Transport.VerifyOnce | src/operator/transport.mjs:104-109 | Verifies exactly an unused, unexpired capability of the kind and binding while open, and uses it up either way. |
| OperatorTransport.Transport.Shut | src/operator/transport.mjs:133-138 | Closing settles the pending request and forgets the nonces. |
| OperatorTransport.RunKeepsSound | src/operator/transport.mjs:46-146 | In every run at most one request is pending, only its timer is armed, nonces differ, and each capability stands for one resolved request. |
| OperatorTransport.RunEndures | src/operator/transport.mjs:51-59 | A settled request is never settled again and a used capability never becomes fresh. |
| OperatorTransport.CapabilityVerifiesOnce | src/operator/transport.mjs:104-109 | A capability verifies at most once in any run. |
| OperatorTransport.VerifiedCapabilityBelongsToARequest | src/operator/transport.mjs:97-111 | What verifies was given for one request of that kind and binding, and is unused and unexpired. |
| OperatorTransport.VerificationsAreEarned | src/operator/transport.mjs:61-131 | Verifications never outnumber accepted completions, nor those the issued requests. |
| OperatorTransport.SignalIsAcceptedOnce | src/operator/transport.mjs:113-131 | A signal that was accepted is never accepted again. |
| OperatorTransport.RequestIsIssuedExactlyWhen | src/operator/transport.mjs:61-95 | In any run a request is published exactly when open, bound to the attempt, with nothing unsettled and a nonce no request had before. |
| OperatorTransport.SignalIsAcceptedExactlyWhen | src/operator/transport.mjs:113-131 | In any run a signal is accepted exactly when it names the unsettled request in every field and is of the type that completes its kind, or aborts it. |
| OperatorTransport.SignalSettlesItsRequest | src/operator/transport.mjs:113-131 | An accepted signal settles the request it names and no other: rejected by an abort, else resolved with a capability of its own. |
| OperatorTransport.CapabilityLastsItsTime | src/operator/transport.mjs:97-131 | Until it is used or the transport closes, a capability verifies for the kind and binding of its request, and nothing else, exactly for its time to live. |
| OperatorTransport.ClosingRejectsWhatIsUnsettled | src/operator/transport.mjs:133-138 | Closing rejects what is unsettled and leaves every other request as it is. |
| OperatorTransport.ClosedForEver | src/operator/transport.mjs:133-138 | After closing nothing is pending, accepted or verified. |

## Left out

- AttemptStore.Store.Prepare: records are compared as values; the source compares their JSON texts, which would also tell apart two orders of the same keys after a round trip through the database.
- AttemptStore.Store.Cleanup: the projection is an opaque value and its digest and the random receipt identifier are not modelled.
- AttemptStore.Store.ReconcileStripeIntent: the digest of the observation and the random receipt identifier are not modelled.
- AttemptStore.Store.ResumeRecheck: the checks of the recheck snapshot are one answer from outside.
- AttemptStore.Store.Transition: all clock readings of a transaction are one reading, except that the database reads the clock again for a cleanup receipt and for a case claim, and once more for the deletions of a cleanup; times are whole seconds.
- AttemptStore.Store.RetentionUsage: a ledger holding more than one policy is found by comparing the policies, not while looping over database rows.
- FenceText.WriteIsInjective: in the store a fence is the sequence value itself; these lemmas are why that loses nothing.
- LeaseSupervisor.Supervise: every callback reads the local clock once, and timers are not rounded to whole milliseconds or capped at the host's longest delay.
- Zip.ParseDirectory: how names are decoded and screened is a parameter, and which of its refusals an archive meets is not stated.
- ZipWriter.WrittenArchiveIsAcceptedExactlyWhen: the archives written have no archive comment, their central records follow the order of their local ones, and a descriptor without a signature has a checksum that cannot be taken for one.
- Zip.DecodeEntry: inflation is a parameter; only stored members are tied to the bytes of the archive.
- SqlScan.ScanSql: the digests of pinned triggers and the pattern that reads a routine's name from the visible text are parameters, and which code a refusal carries is not stated; what is checked of the visible text and of the routines afterwards (src/attempts/migrations.mjs:224-300) is not modelled.
- BillingCleanup.CleanupOwnedResources: identifiers are ranks in the collation order, the collation of row texts is a parameter that orders them, each provider call either succeeds or fails, and the evidence attached to a refusal is not modelled.
- OperatorTransport.Transport.Obtain: whether a binding is well formed is an input; so is the parsed signal in OnSignal.
- Field checks by regular expression, JavaScript object hygiene, SHA-256, JSON and UTF-8: inputs are taken as typed and valid.
- Advisory locks inside a transaction, deadlocks between them and liveness: each transaction is one atomic step, and a transaction that aborts after drawing a fence is the separate step SkipFence.
- The baseline of fixture rows that older reservations carry over from the table fixture_reservation_claims.
- Cleanup does not require a settlement in the source, so nothing about settlements follows from it here.
- Walking a certificate to the deployment environment extension, manifests, policies, identity pins, scenario registries, privilege and bootstrap rendering: long conjunctions that would add only easy members.
- Network, browser, Docker, process and file system code.
