// The rows of the control store, as values.
module Records {
  import opened Numbers
  import opened Options

  // An identifier, digest or label, as its number in some enumeration of them all. The store only compares these for
  // equality.
  datatype Text = Text(number: nat)

  datatype Key = Key(projectRef: Text, suite: Text, fixtureKey: Text)

  datatype Environment = Environment(projectRef: Text, deploymentId: Text, deploymentOrigin: Text, accountId: Text)

  datatype Run = Run(repository: Text, gitRef: Text, runId: Text, runAttempt: int)

  datatype Workflow = Workflow(run: Run, runnerLabel: Text)

  datatype Phase = Collecting | Collected | Rechecking | Complete | Cancelled | TimedOut

  datatype CleanupStatus = Pending | Done

  datatype Artifact = Artifact(id: Text, digest: Text)

  datatype Attempt = Attempt(
    key: Key, candidateSha: Text, workflow: Workflow, environment: Environment,
    phase: Phase, cleanup: CleanupStatus, artifact: Option<Artifact>, resourceIds: seq<Text>,
    createdAt: int, updatedAt: int)

  // A fence is the value drawn from the fence sequence; `FenceText` relates it to its UUID text.
  datatype Lease = Lease(
    attemptId: Text, fence: nat, expiresAt: int, candidateSha: Text, run: Run, recoveryOnly: bool)

  // The two rows of the lock table that an environment stands for.
  datatype Resource = StripeAccount(id: Text) | SupabaseProject(id: Text)

  datatype Lock = Lock(
    attemptId: Text, fence: nat, candidateSha: Text, workflow: Workflow, environment: Environment, expiresAt: int)

  datatype LeaseEventKind = Acquired | Renewed | Takeover | RecheckHandoff | RecoveryHandoff | Released

  datatype LeaseEvent = LeaseEvent(
    kind: LeaseEventKind, key: Key, attemptId: Text, fence: nat, expiresAt: int, runId: Text, runAttempt: int)

  datatype Action = ReplayCheckout | ExpireCheckoutSession | CancelSubscription

  datatype Intent = Intent(
    attemptId: Text, fence: nat, accountId: Text, candidateSha: Text, workflow: Workflow, environment: Environment,
    action: Action, operation: Text, requestDigest: Text, idempotencyKey: Text, createdAt: int)

  datatype StripeReceipt = StripeReceipt(
    attemptId: Text, fence: nat, accountId: Text, operation: Text, requestDigest: Text, idempotencyKey: Text,
    resourceIds: seq<Text>, observedAt: int)

  datatype Scope = Scope(projectRef: Text, accountId: Text)

  datatype QuotaKey = Attempts | DatabaseRows | AuthUsers | StripeObjects

  // One count for each quota key.
  datatype Usage = Usage(attempts: int, databaseRows: int, authUsers: int, stripeObjects: int) {
    function At(k: QuotaKey): int {
      match k
      case Attempts => attempts
      case DatabaseRows => databaseRows
      case AuthUsers => authUsers
      case StripeObjects => stripeObjects
    }

    function With(k: QuotaKey, count: int): Usage {
      match k
      case Attempts => this.(attempts := count)
      case DatabaseRows => this.(databaseRows := count)
      case AuthUsers => this.(authUsers := count)
      case StripeObjects => this.(stripeObjects := count)
    }

    function Plus(other: Usage): Usage {
      Usage(attempts + other.attempts, databaseRows + other.databaseRows,
            authUsers + other.authUsers, stripeObjects + other.stripeObjects)
    }

    predicate Within(limit: Usage) {
      attempts <= limit.attempts && databaseRows <= limit.databaseRows &&
      authUsers <= limit.authUsers && stripeObjects <= limit.stripeObjects
    }

    // Every count is a safe integer no smaller than `least`.
    predicate Safe(least: int) {
      least <= attempts <= MAX_SAFE_INTEGER && least <= databaseRows <= MAX_SAFE_INTEGER &&
      least <= authUsers <= MAX_SAFE_INTEGER && least <= stripeObjects <= MAX_SAFE_INTEGER
    }
  }

  const NO_USAGE: Usage := Usage(0, 0, 0, 0)

  datatype Capacity = Capacity(
    quotas: Usage, committed: Usage, reserved: Usage, requested: Usage, projected: Usage, remaining: Usage)

  datatype Reservation = Reservation(
    attemptId: Text, scope: Scope, quotas: Usage, projection: Usage, capacity: Capacity, createdAt: int)

  datatype RunOutcome = CompletedRun | FailedRun | CancelledRun | TimedOutRun

  datatype Settlement = Settlement(
    attemptId: Text, ownerFence: nat, scope: Scope, outcome: RunOutcome, retained: Usage, createdAt: int)

  datatype CleanupReceipt = CleanupReceipt(
    reservationId: Text, environment: Environment, fence: nat, projection: Text, createdAt: int)

  datatype UsageEvent = UsageEvent(reservationId: Text, attemptId: Text, previousRows: int, currentRows: int)

  datatype CaseKey = CaseKey(attemptId: Text, caseId: Text)

  datatype CaseClaim = CaseClaim(
    reservationId: Text, fence: nat, candidateSha: Text, environment: Environment, namespaceId: Text)

  datatype FixtureKind = Catalog | BillingIdentity

  datatype FixtureSlot = FixtureSlot(attemptId: Text, caseId: Text, kind: FixtureKind)

  datatype Refusal =
    | AttemptConflict
    | AttemptInputInvalid
    | AttemptMissing
    | AttemptReplayExpired
    | AttemptReplayMismatch
    | AttemptReplayNotOwner
    | CleanupNotTerminal
    | CleanupReceiptFenceMismatch // the database finds no unexpired lease for the receipt
    | CleanupReceiptConflict
    | CleanupReceiptInvalid
    | CleanupUnverified
    | FixtureCaseClaimInvalid // the database finds the claim at odds with its attempt, reservation or lease
    | FixtureCaseDuplicate
    | FixtureMutationInvalid
    | FixtureReservationInsufficient
    | FixtureReservationInvalid
    | FixtureUsageInvalid // the database finds the usage event at odds with its chain
    | ArtifactIdentityMismatch
    | InvalidTransition
    | LeaseExpired
    | LeaseFenceLost
    | LeaseFenceStoreUnavailable
    | LeaseHeld
    | RecheckIdentityMismatch
    | RecoveryReadOnly
    | RecoveryUnverified
    | ResourceLockHeld
    | RetentionAlreadySettled
    | RetentionAttemptSettled
    | RetentionCapacityExceeded
    | RetentionLedgerInvalid
    | RetentionOwnerFenceLost
    | RetentionPolicyInvalid
    | RetentionPolicyMismatch
    | RetentionReceiptExceedsReservation
    | RetentionReceiptInvalid
    | RetentionReconciliationUnverified
    | RetentionReservationMissing
    | StripeIntentAlreadyReconciled
    | StripeIntentIdentityMismatch
    | StripeIntentMissing
    | StripeIntentUnresolved
    | StripeObservationMismatch
    | StripeReconciliationUnverified
    | StripeReconciliationWindowExpired
    | ConstraintViolation // the database rejects the row: a key, uniqueness or trigger rule

  datatype Reply<+R> = Denied(refusal: Refusal) | Granted(value: R)
}
