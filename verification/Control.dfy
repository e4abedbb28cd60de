// What one transaction of the control store does: each operation as a function from the tables before it and the
// answers it receives from outside (clock, verifiers, fresh identifiers) to the tables after it and its reply.
// A denied operation leaves every table as it was.
module Control {
  import opened Numbers
  import opened Options
  import opened Records

  datatype Db = Db(
    clock: int, // the latest clock reading any committed transaction has made
    sequence: nat, // the last value drawn from the fence sequence
    attempts: map<Text, Attempt>,
    leases: map<Key, Lease>,
    locks: map<Resource, Lock>,
    history: seq<LeaseEvent>,
    intents: map<Text, Intent>,
    receipts: map<Text, StripeReceipt>, // by intent
    reservations: map<Text, Reservation>,
    settlements: map<Text, Settlement>, // by reservation
    usage: seq<UsageEvent>,
    caseClaims: map<CaseKey, CaseClaim>,
    fixtures: map<FixtureSlot, Text>,
    cleanups: map<Text, CleanupReceipt>) // by attempt

  const EMPTY: Db := Db(0, 0, map[], map[], map[], [], map[], map[], map[], map[], [], map[], map[], map[])

  datatype Outcome<+R> = Outcome(db: Db, reply: Reply<R>)

  const MAX_FENCE_SEQUENCE: nat := 281474976710655

  // The clock only moves forward: a reading that lags behind an earlier one counts as the earlier one.
  function Now(clock: int, reading: int): int {
    if clock < reading then reading else clock
  }

  predicate ValidTtl(ttl: int) {
    1 <= ttl <= 3600
  }

  function ScopeOf(environment: Environment): Scope {
    Scope(environment.projectRef, environment.accountId)
  }

  // In the order in which the lock rows are read and written.
  function Resources(environment: Environment): seq<Resource> {
    [StripeAccount(environment.accountId), SupabaseProject(environment.projectRef)]
  }

  predicate Terminal(phase: Phase) {
    phase in {Complete, Cancelled, TimedOut}
  }

  predicate MayMove(from: Phase, to: Phase) {
    match from
    case Collecting => to in {Collected, Cancelled, TimedOut}
    case Collected => to in {Cancelled, TimedOut}
    case Rechecking => to in {Complete, Cancelled, TimedOut}
    case _ => false
  }

  // ---------- Ownership ----------

  predicate LockMatches(locks: map<Resource, Lock>, r: Resource, row: Attempt, lease: Lease, attemptId: Text,
                        fence: nat) {
    r in locks &&
    var lock := locks[r];
    lock.attemptId == attemptId && lock.fence == fence && lock.candidateSha == row.candidateSha &&
    lock.workflow.run == lease.run && lock.workflow.runnerLabel == row.workflow.runnerLabel &&
    lock.environment == row.environment && lock.expiresAt == lease.expiresAt
  }

  predicate HoldsLocks(locks: map<Resource, Lock>, row: Attempt, lease: Lease, attemptId: Text, fence: nat) {
    LockMatches(locks, StripeAccount(row.environment.accountId), row, lease, attemptId, fence) &&
    LockMatches(locks, SupabaseProject(row.environment.projectRef), row, lease, attemptId, fence)
  }

  // Why `attemptId`, presenting `fence` at time `now`, does not act as the current owner; None when it does.
  function OwnerRefusal(leases: map<Key, Lease>, locks: map<Resource, Lock>, row: Attempt, attemptId: Text, fence: nat,
                        now: int)
    : Option<Refusal>
  {
    if row.key !in leases || leases[row.key].attemptId != attemptId || leases[row.key].fence != fence then
      Some(LeaseFenceLost)
    else if leases[row.key].expiresAt <= now then
      Some(LeaseExpired)
    else if !HoldsLocks(locks, row, leases[row.key], attemptId, fence) then
      Some(LeaseFenceLost)
    else
      None
  }

  predicate HasInFlight(intents: map<Text, Intent>, receipts: map<Text, StripeReceipt>, attemptId: Text) {
    exists i :: i in intents && intents[i].attemptId == attemptId && i !in receipts
  }

  function PendingIntents(db: Db, attemptId: Text): set<Text> {
    set i | i in db.intents && db.intents[i].attemptId == attemptId && i !in db.receipts
  }

  // ---------- Writes shared by several operations ----------

  function EventOf(kind: LeaseEventKind, key: Key, lease: Lease): LeaseEvent {
    LeaseEvent(kind, key, lease.attemptId, lease.fence, lease.expiresAt, lease.run.runId, lease.run.runAttempt)
  }

  function WithLease(db: Db, kind: LeaseEventKind, key: Key, lease: Lease): Db {
    db.(leases := db.leases[key := lease], history := db.history + [EventOf(kind, key, lease)])
  }

  function WithLocks(db: Db, environment: Environment, lock: Lock): Db {
    db.(locks :=
          db.locks[StripeAccount(environment.accountId) := lock][SupabaseProject(environment.projectRef) := lock])
  }

  function WithAttempt(db: Db, attemptId: Text, row: Attempt): Db {
    db.(attempts := db.attempts[attemptId := row])
  }

  // The lease and both lock rows of an attempt, rewritten together.
  function WithOwnership(db: Db, kind: LeaseEventKind, attemptId: Text, row: Attempt, lease: Lease): Db {
    WithLocks(WithLease(db, kind, row.key, lease), row.environment,
              Lock(attemptId, lease.fence, row.candidateSha, Workflow(lease.run, row.workflow.runnerLabel),
                   row.environment,
                   lease.expiresAt))
  }

  // ---------- The retention ledger ----------

  ghost function Total(entries: map<Text, Usage>): Usage {
    if entries == map[] then NO_USAGE
    else
      var k :| k in entries;
      entries[k].Plus(Total(entries - {k}))
  }

  function Retained(settlements: map<Text, Settlement>, scope: Scope): map<Text, Usage> {
    map r | r in settlements && settlements[r].scope == scope :: settlements[r].retained
  }

  function Outstanding(reservations: map<Text, Reservation>, settlements: map<Text, Settlement>,
                       scope: Scope): map<Text, Usage> {
    map r | r in reservations && reservations[r].scope == scope && r !in settlements :: reservations[r].projection
  }

  function Policies(reservations: map<Text, Reservation>, scope: Scope): set<Usage> {
    set r | r in reservations && reservations[r].scope == scope :: reservations[r].quotas
  }

  function QuotaKeys(): seq<QuotaKey> {
    [Attempts, DatabaseRows, AuthUsers, StripeObjects]
  }

  function KeyRefusal(committed: int, reserved: int, requested: int, quota: int): Option<Refusal> {
    if !(-MAX_SAFE_INTEGER <= committed + reserved + requested <= MAX_SAFE_INTEGER) then Some(RetentionLedgerInvalid)
    else if committed + reserved + requested > quota then Some(RetentionCapacityExceeded)
    else None
  }

  function FirstKeyRefusal(keys: seq<QuotaKey>, committed: Usage, reserved: Usage, requested: Usage,
                           quotas: Usage): Option<Refusal> {
    if keys == [] then None
    else
      var refusal := KeyRefusal(committed.At(keys[0]), reserved.At(keys[0]), requested.At(keys[0]), quotas.At(keys[0]));
      if refusal.Some? then refusal else FirstKeyRefusal(keys[1..], committed, reserved, requested, quotas)
  }

  function CapacityOf(committed: Usage, reserved: Usage, requested: Usage, quotas: Usage): Capacity {
    var projected := committed.Plus(reserved).Plus(requested);
    Capacity(quotas, committed, reserved, requested, projected,
             Usage(quotas.attempts - projected.attempts, quotas.databaseRows - projected.databaseRows,
                   quotas.authUsers - projected.authUsers, quotas.stripeObjects - projected.stripeObjects))
  }

  // `policies` are the distinct quota records already reserved under in the scope.
  function RetentionCapacity(committed: Usage, reserved: Usage, policies: set<Usage>, quotas: Usage,
                             requested: Usage): Reply<Capacity> {
    if (exists p, q :: p in policies && q in policies && p != q) || !committed.Safe(0) || !reserved.Safe(0) then
      Denied(RetentionLedgerInvalid)
    else if exists p :: p in policies && !p.Safe(1) then
      Denied(RetentionLedgerInvalid)
    else if exists p :: p in policies && p != quotas then
      Denied(RetentionPolicyMismatch)
    else
      var refusal := FirstKeyRefusal(QuotaKeys(), committed, reserved, requested, quotas);
      if refusal.Some? then Denied(refusal.value) else Granted(CapacityOf(committed, reserved, requested, quotas))
  }

  predicate ValidRetention(quotas: Usage, projection: Usage) {
    quotas.Safe(1) && projection.Safe(0) && projection.attempts == 1
  }

  // ---------- Admission ----------

  datatype AdmissionRequest = AdmissionRequest(
    attemptId: Text, key: Key, candidateSha: Text, workflow: Workflow, environment: Environment, ttl: int,
    quotas: Usage, projection: Usage)

  datatype Admitted = Admitted(row: Attempt, fence: nat, reservationId: Text, capacity: Capacity)

  predicate SameIdentity(row: Attempt, q: AdmissionRequest) {
    row.key == q.key && row.candidateSha == q.candidateSha && row.workflow == q.workflow &&
    row.environment == q.environment
  }

  function ReservationsOf(reservations: map<Text, Reservation>, attemptId: Text): set<Text> {
    set r | r in reservations && reservations[r].attemptId == attemptId
  }

  // The one reservation of an attempt that has any.
  ghost function ReservationOf(reservations: map<Text, Reservation>, attemptId: Text): (r: Text)
    requires ReservationsOf(reservations, attemptId) != {}
    ensures r in ReservationsOf(reservations, attemptId)
  {
    var r :| r in ReservationsOf(reservations, attemptId);
    r
  }

  predicate Settled(reservations: map<Text, Reservation>, settlements: map<Text, Settlement>, attemptId: Text) {
    exists r :: r in ReservationsOf(reservations, attemptId) && r in settlements
  }

  // A repeated admission of a known attempt only ever hands back what the first one granted.
  ghost function ReplayReply(db: Db, now: int, q: AdmissionRequest): Reply<Admitted>
    requires q.attemptId in db.attempts
  {
    var row := db.attempts[q.attemptId];
    if !SameIdentity(row, q) then Denied(AttemptReplayMismatch)
    else if q.key !in db.leases || db.leases[q.key].attemptId != q.attemptId || db.leases[q.key].expiresAt <= now then
      Denied(AttemptReplayExpired)
    else
      var lease := db.leases[q.key];
      if row.phase != Collecting || lease.candidateSha != q.candidateSha || lease.run != q.workflow.run then
        Denied(AttemptReplayNotOwner)
      else if !HoldsLocks(db.locks, row, lease, q.attemptId, lease.fence) then Denied(LeaseFenceLost)
      else if ReservationsOf(db.reservations, q.attemptId) == {} then Denied(RetentionReservationMissing)
      else
        var r := ReservationOf(db.reservations, q.attemptId);
        var reservation := db.reservations[r];
        if reservation.quotas != q.quotas || reservation.projection != q.projection then Denied(AttemptReplayMismatch)
        else if r in db.settlements then Denied(RetentionAttemptSettled)
        else Granted(Admitted(row, lease.fence, r, reservation.capacity))
  }

  // Why a lock row found on a wanted resource may not be taken from its owner.
  function PriorLockRefusal(db: Db, key: Key, now: int, r: Resource): Option<Refusal> {
    if r !in db.locks then None
    else
      var lock := db.locks[r];
      if lock.expiresAt > now then Some(ResourceLockHeld)
      else if lock.attemptId !in db.attempts then Some(RecoveryUnverified)
      else
        var prior := db.attempts[lock.attemptId];
        if prior.environment != lock.environment || prior.candidateSha != lock.candidateSha ||
           lock.workflow.run.repository != prior.workflow.run.repository ||
           lock.workflow.run.gitRef != prior.workflow.run.gitRef ||
           lock.workflow.runnerLabel != prior.workflow.runnerLabel then Some(RecoveryUnverified)
        else
          var leaseKey := if key in db.leases && db.leases[key].attemptId == lock.attemptId then key else prior.key;
          if leaseKey !in db.leases then Some(RecoveryUnverified)
          else
            var lease := db.leases[leaseKey];
            if lease.attemptId != lock.attemptId || lease.fence != lock.fence || lease.expiresAt != lock.expiresAt ||
               lease.run != lock.workflow.run then Some(RecoveryUnverified)
            else None
  }

  predicate NamesLease(locks: map<Resource, Lock>, r: Resource, lease: Lease) {
    r in locks && locks[r].attemptId == lease.attemptId && locks[r].fence == lease.fence
  }

  // Why the lease row found at the wanted key may not be taken from its owner.
  function PriorLeaseRefusal(db: Db, key: Key, environment: Environment): Option<Refusal> {
    if key !in db.leases then None
    else
      var lease := db.leases[key];
      if !NamesLease(db.locks, StripeAccount(environment.accountId), lease) &&
         !NamesLease(db.locks, SupabaseProject(environment.projectRef), lease) then Some(RecoveryUnverified)
      else if lease.attemptId !in db.attempts || db.attempts[lease.attemptId].key != key then Some(RecoveryUnverified)
      else None
  }

  function LockOwner(locks: map<Resource, Lock>, r: Resource): set<Text> {
    if r in locks then {locks[r].attemptId} else {}
  }

  function PriorOwners(db: Db, key: Key, environment: Environment): set<Text> {
    LockOwner(db.locks, StripeAccount(environment.accountId)) +
      LockOwner(db.locks, SupabaseProject(environment.projectRef)) +
    (if key in db.leases then {db.leases[key].attemptId} else {})
  }

  // `recovered` are the attempts for which the recovery verifier confirms a terminal run, a removed runner and a
  // complete cleanup.
  predicate MayReplace(db: Db, attemptId: Text, recovered: set<Text>) {
    !HasInFlight(db.intents, db.receipts, attemptId) && attemptId in recovered &&
    Settled(db.reservations, db.settlements, attemptId)
  }

  function Retired(attempts: map<Text, Attempt>, owners: set<Text>, now: int): map<Text, Attempt> {
    map a | a in attempts :: if a in owners then attempts[a].(cleanup := Done, updatedAt := now) else attempts[a]
  }

  ghost function AdmissionRefusal(db: Db, now: int, q: AdmissionRequest, recovered: set<Text>,
                                  reservationId: Text): Option<Refusal> {
    var scope := ScopeOf(q.environment);
    var capacity := RetentionCapacity(Total(Retained(db.settlements, scope)),
                                      Total(Outstanding(db.reservations, db.settlements, scope)),
                                      Policies(db.reservations, scope), q.quotas, q.projection);
    if capacity.Denied? then Some(capacity.refusal)
    else if q.key in db.leases && db.leases[q.key].expiresAt > now then Some(LeaseHeld)
    else
      var account := PriorLockRefusal(db, q.key, now, StripeAccount(q.environment.accountId));
      var project := PriorLockRefusal(db, q.key, now, SupabaseProject(q.environment.projectRef));
      var holder := PriorLeaseRefusal(db, q.key, q.environment);
      if account.Some? then account
      else if project.Some? then project
      else if holder.Some? then holder
      else if exists b :: b in PriorOwners(db, q.key, q.environment) && !MayReplace(db, b, recovered) then
        Some(RecoveryUnverified)
      else if db.sequence >= MAX_FENCE_SEQUENCE then Some(LeaseFenceStoreUnavailable)
      else if reservationId in db.reservations || ReservationsOf(db.reservations, q.attemptId) != {} then
        Some(ConstraintViolation)
      else None
  }

  ghost function AdmissionCapacity(db: Db, q: AdmissionRequest): Capacity {
    var scope := ScopeOf(q.environment);
    CapacityOf(Total(Retained(db.settlements, scope)), Total(Outstanding(db.reservations, db.settlements, scope)),
               q.projection, q.quotas)
  }

  function FreshRow(q: AdmissionRequest, now: int): Attempt {
    Attempt(q.key, q.candidateSha, q.workflow, q.environment, Collecting, Pending, None, [], now, now)
  }

  function FreshLease(q: AdmissionRequest, fence: nat, now: int): Lease {
    Lease(q.attemptId, fence, now + q.ttl, q.candidateSha, q.workflow.run, false)
  }

  ghost function AfterAdmission(db: Db, now: int, q: AdmissionRequest, reservationId: Text): Db {
    var row := FreshRow(q, now);
    var reservation :=
      Reservation(q.attemptId, ScopeOf(q.environment), q.quotas, q.projection, AdmissionCapacity(db, q), now);
    var retired := db.(clock := now, sequence := db.sequence + 1,
                       attempts := Retired(db.attempts, PriorOwners(db, q.key, q.environment), now)[q.attemptId := row],
                       reservations := db.reservations[reservationId := reservation]);
    WithOwnership(retired, if q.key in db.leases then Takeover else Acquired, q.attemptId, row,
                  FreshLease(q, db.sequence + 1, now))
  }

  // `expected` is the environment this store instance is pinned to, if any.
  ghost function Prepare(db: Db, reading: int, expected: Option<Environment>, q: AdmissionRequest,
                         recovered: set<Text>, reservationId: Text)
    : Outcome<Admitted>
  {
    var now := Now(db.clock, reading);
    if !ValidRetention(q.quotas, q.projection) then Outcome(db, Denied(RetentionPolicyInvalid))
    else if !ValidTtl(q.ttl) || q.key.projectRef != q.environment.projectRef ||
            (expected.Some? && expected.value != q.environment) then Outcome(db, Denied(AttemptInputInvalid))
    else if q.attemptId in db.attempts then
      var reply := ReplayReply(db, now, q);
      Outcome(if reply.Granted? then db.(clock := now) else db, reply)
    else
      var refusal := AdmissionRefusal(db, now, q, recovered, reservationId);
      if refusal.Some? then Outcome(db, Denied(refusal.value))
      else Outcome(AfterAdmission(db, now, q, reservationId),
                   Granted(Admitted(FreshRow(q, now), db.sequence + 1, reservationId, AdmissionCapacity(db, q))))
  }

  // ---------- Retention settlement ----------

  predicate InHistory(history: seq<LeaseEvent>, attemptId: Text, projectRef: Text, fence: nat) {
    exists e :: e in history && e.attemptId == attemptId && e.key.projectRef == projectRef && e.fence == fence
  }

  // What the database itself asks of a settlement.
  predicate SettlementAllowed(reservations: map<Text, Reservation>, history: seq<LeaseEvent>, reservationId: Text,
                              s: Settlement) {
    reservationId in reservations && reservations[reservationId].attemptId == s.attemptId &&
    reservations[reservationId].scope == s.scope && s.retained.Within(reservations[reservationId].projection) &&
    InHistory(history, s.attemptId, s.scope.projectRef, s.ownerFence)
  }

  // A settlement that is repeated as it was is granted again.
  function SettlementReply(db: Db, now: int, reservationId: Text, outcome: RunOutcome, retained: Usage, verified: bool)
    : Reply<Settlement>
  {
    if !retained.Safe(0) || retained.attempts != 1 then Denied(RetentionReceiptInvalid)
    else if reservationId !in db.reservations then Denied(RetentionReservationMissing)
    else
      var reservation := db.reservations[reservationId];
      var a := reservation.attemptId;
      if a !in db.attempts || reservation.scope != ScopeOf(db.attempts[a].environment) then
        Denied(RetentionLedgerInvalid)
      else if db.attempts[a].key !in db.leases || db.leases[db.attempts[a].key].attemptId != a then
        Denied(RetentionOwnerFenceLost)
      else
        var fence := db.leases[db.attempts[a].key].fence;
        if reservationId in db.settlements then
          var existing := db.settlements[reservationId];
          if existing.outcome != outcome || existing.retained != retained || existing.ownerFence != fence then
            Denied(RetentionAlreadySettled)
          else Granted(existing)
        else if !retained.Within(reservation.projection) then Denied(RetentionReceiptExceedsReservation)
        else if !verified then Denied(RetentionReconciliationUnverified)
        else
          var settlement := Settlement(a, fence, reservation.scope, outcome, retained, now);
          if !SettlementAllowed(db.reservations, db.history, reservationId, settlement) then Denied(ConstraintViolation)
          else Granted(settlement)
  }

  function ReconcileReservation(db: Db, reading: int, reservationId: Text, outcome: RunOutcome, retained: Usage,
                                verified: bool)
    : Outcome<Settlement>
  {
    var now := Now(db.clock, reading);
    var reply := SettlementReply(db, now, reservationId, outcome, retained, verified);
    if reply.Denied? || reservationId in db.settlements then Outcome(db, reply)
    else Outcome(db.(clock := now, settlements := db.settlements[reservationId := reply.value]), reply)
  }

  // ---------- Fenced reads ----------

  datatype Standing = Standing(row: Attempt, expiresAt: int, serverNow: int)

  function AssertFence(db: Db, reading: int, attemptId: Text, fence: nat): Reply<Standing> {
    var now := Now(db.clock, reading);
    if attemptId !in db.attempts then Denied(AttemptMissing)
    else
      var row := db.attempts[attemptId];
      var refusal := OwnerRefusal(db.leases, db.locks, row, attemptId, fence, now);
      if refusal.Some? then Denied(refusal.value) else Granted(Standing(row, db.leases[row.key].expiresAt, now))
  }

  function ListPendingStripeIntents(db: Db, reading: int, attemptId: Text, fence: nat): Reply<set<Text>> {
    var standing := AssertFence(db, reading, attemptId, fence);
    if standing.Denied? then Denied(standing.refusal) else Granted(PendingIntents(db, attemptId))
  }

  // Whether an unmetered fixture writer may run.
  function MayMutateFixtures(db: Db, reading: int, attemptId: Text, fence: nat): Reply<()> {
    var standing := AssertFence(db, reading, attemptId, fence);
    if standing.Denied? then Denied(standing.refusal)
    else if standing.value.row.phase == Rechecking || db.leases[standing.value.row.key].recoveryOnly then
      Denied(RecoveryReadOnly)
    else Granted(())
  }

  // ---------- Stripe intents ----------

  datatype IntentRequest = IntentRequest(
    attemptId: Text, fence: nat, candidateSha: Text, workflow: Workflow, environment: Environment,
    action: Action, operation: Text, requestDigest: Text, idempotencyKey: Text)

  predicate OperationTaken(intents: map<Text, Intent>, attemptId: Text, operation: Text) {
    exists i :: i in intents && intents[i].attemptId == attemptId && intents[i].operation == operation
  }

  predicate IdempotencyTaken(intents: map<Text, Intent>, accountId: Text, idempotencyKey: Text) {
    exists i :: i in intents && intents[i].accountId == accountId && intents[i].idempotencyKey == idempotencyKey
  }

  function BeginStripeIntent(db: Db, reading: int, q: IntentRequest, intentId: Text): Outcome<Intent> {
    var now := Now(db.clock, reading);
    if q.attemptId !in db.attempts then Outcome(db, Denied(AttemptMissing))
    else
      var row := db.attempts[q.attemptId];
      var refusal := OwnerRefusal(db.leases, db.locks, row, q.attemptId, q.fence, now);
      if refusal.Some? then Outcome(db, Denied(refusal.value))
      else if row.phase == Rechecking || db.leases[row.key].recoveryOnly then Outcome(db, Denied(RecoveryReadOnly))
      else if q.candidateSha != row.candidateSha || q.workflow != row.workflow || q.environment != row.environment then
        Outcome(db, Denied(StripeIntentIdentityMismatch))
      else if OperationTaken(db.intents, q.attemptId, q.operation) then Outcome(db, Denied(StripeIntentUnresolved))
      else if intentId in db.intents || IdempotencyTaken(db.intents, row.environment.accountId, q.idempotencyKey) then
        Outcome(db, Denied(ConstraintViolation))
      else
        var intent :=
          Intent(q.attemptId, q.fence, row.environment.accountId, row.candidateSha, row.workflow, row.environment,
                             q.action, q.operation, q.requestDigest, q.idempotencyKey, now);
        Outcome(db.(clock := now, intents := db.intents[intentId := intent]), Granted(intent))
  }

  // An observation of a test-mode object; live-mode observations are rejected before the store reads anything.
  datatype Observation = Observation(
    accountId: Text, operation: Text, requestDigest: Text, idempotencyKey: Text, resourceIds: seq<Text>,
    clockDeletesAfter: Option<int>)

  predicate Observes(o: Observation, intent: Intent) {
    o.accountId == intent.accountId && o.operation == intent.operation && o.requestDigest == intent.requestDigest &&
    o.idempotencyKey == intent.idempotencyKey
  }

  function ReconcileStripeIntent(db: Db, reading: int, attemptId: Text, fence: nat, intentId: Text, o: Observation,
                                 verified: bool)
    : Outcome<StripeReceipt>
  {
    var now := Now(db.clock, reading);
    if attemptId !in db.attempts then Outcome(db, Denied(AttemptMissing))
    else
      var row := db.attempts[attemptId];
      var refusal := OwnerRefusal(db.leases, db.locks, row, attemptId, fence, now);
      if refusal.Some? then Outcome(db, Denied(refusal.value))
      else if intentId !in db.intents || db.intents[intentId].attemptId != attemptId then
        Outcome(db, Denied(StripeIntentMissing))
      else
        var intent := db.intents[intentId];
        if row.phase == Rechecking && intent.fence == fence then Outcome(db, Denied(RecoveryReadOnly))
        else if intentId in db.receipts then Outcome(db, Denied(StripeIntentAlreadyReconciled))
        else if !Observes(o, intent) then Outcome(db, Denied(StripeObservationMismatch))
        else if o.clockDeletesAfter.Some? && o.clockDeletesAfter.value <= now then
          Outcome(db, Denied(StripeReconciliationWindowExpired))
        else if !verified then Outcome(db, Denied(StripeReconciliationUnverified))
        else
          var receipt := StripeReceipt(attemptId, fence, intent.accountId, intent.operation, intent.requestDigest,
                                       intent.idempotencyKey, o.resourceIds, now);
          Outcome(db.(clock := now, receipts := db.receipts[intentId := receipt]), Granted(receipt))
  }

  // ---------- Handing ownership over ----------

  datatype RecoveryVerdict = RecoveryVerdict(runTerminal: bool, runnerRemoved: bool, currentRun: Option<Workflow>)

  function RecoveryRefusal(db: Db, attemptId: Text, fence: nat, ttl: int, verdict: RecoveryVerdict): Option<Refusal> {
    if !ValidTtl(ttl) then Some(AttemptInputInvalid)
    else if attemptId !in db.attempts then Some(RecoveryUnverified)
    else
      var row := db.attempts[attemptId];
      if !(Terminal(row.phase) || row.phase == Rechecking) || row.cleanup == Done then Some(RecoveryUnverified)
      else if row.key !in db.leases || db.leases[row.key].attemptId != attemptId ||
              db.leases[row.key].fence != fence then
        Some(LeaseFenceLost)
      else
        var lease := db.leases[row.key];
        if !HoldsLocks(db.locks, row, lease, attemptId, fence) then Some(LeaseFenceLost)
        else if PendingIntents(db, attemptId) == {} && (!lease.recoveryOnly || attemptId in db.cleanups) then
          Some(RecoveryUnverified)
        else if ReservationsOf(db.reservations, attemptId) == {} ||
                Settled(db.reservations, db.settlements, attemptId) then
          Some(RecoveryUnverified)
        else if lease.run.repository != row.workflow.run.repository || lease.run.gitRef != row.workflow.run.gitRef then
          Some(RecoveryUnverified)
        else if !verdict.runTerminal || !verdict.runnerRemoved || verdict.currentRun.None? then Some(RecoveryUnverified)
        else
          var current := verdict.currentRun.value;
          if current.run.repository != lease.run.repository || current.run.gitRef != lease.run.gitRef ||
             current.runnerLabel != row.workflow.runnerLabel ||
             (current.run.runId == lease.run.runId && current.run.runAttempt == lease.run.runAttempt) then
            Some(RecoveryUnverified)
          else if db.sequence >= MAX_FENCE_SEQUENCE then Some(LeaseFenceStoreUnavailable)
          else None
  }

  function AfterHandoff(db: Db, now: int, kind: LeaseEventKind, attemptId: Text, row: Attempt, lease: Lease): Db {
    WithAttempt(
      WithOwnership(db.(clock := now, sequence := db.sequence + 1), kind, attemptId, row, lease),
      attemptId, row.(phase := Rechecking, updatedAt := now))
  }

  function HandoffStripeIntentRecovery(db: Db, reading: int, attemptId: Text, fence: nat, ttl: int,
                                       verdict: RecoveryVerdict)
    : Outcome<Standing>
  {
    var now := Now(db.clock, reading);
    var refusal := RecoveryRefusal(db, attemptId, fence, ttl, verdict);
    if refusal.Some? then Outcome(db, Denied(refusal.value))
    else
      var row := db.attempts[attemptId];
      var lease := db.leases[row.key].(fence := db.sequence + 1, recoveryOnly := true, expiresAt := now + ttl,
                                       run := verdict.currentRun.value.run);
      Outcome(AfterHandoff(db, now, RecoveryHandoff, attemptId, row, lease),
              Granted(Standing(row.(phase := Rechecking, updatedAt := now), now + ttl, now)))
  }

  datatype RecheckRequest = RecheckRequest(
    artifact: Option<Artifact>, workflow: Workflow, environment: Environment, candidateSha: Text, currentHeadSha: Text,
    recheckRun: Run, ttl: int)

  // `resumable` is the recovery verifier's answer and `snapshotSealed` that of the recheck snapshot check.
  function RecheckRefusal(db: Db, attemptId: Text, q: RecheckRequest, resumable: bool,
                          snapshotSealed: bool): Option<Refusal> {
    if attemptId !in db.attempts || db.attempts[attemptId].phase != Collected then Some(InvalidTransition)
    else
      var row := db.attempts[attemptId];
      if row.key !in db.leases || db.leases[row.key].attemptId != attemptId then Some(LeaseFenceLost)
      else
        var lease := db.leases[row.key];
        if !HoldsLocks(db.locks, row, lease, attemptId, lease.fence) then Some(LeaseFenceLost)
        else if HasInFlight(db.intents, db.receipts, attemptId) || !resumable then Some(RecoveryUnverified)
        else if !snapshotSealed then Some(ArtifactIdentityMismatch)
        else if q.recheckRun.repository != row.workflow.run.repository ||
                q.recheckRun.gitRef != row.workflow.run.gitRef || q.recheckRun.runAttempt < 1 ||
                q.recheckRun.runId == row.workflow.run.runId then Some(RecheckIdentityMismatch)
        else if q.workflow != row.workflow || q.environment != row.environment || q.candidateSha != row.candidateSha ||
                q.currentHeadSha != q.candidateSha || q.artifact != row.artifact then Some(RecheckIdentityMismatch)
        else if !ValidTtl(q.ttl) then Some(AttemptInputInvalid)
        else if db.sequence >= MAX_FENCE_SEQUENCE then Some(LeaseFenceStoreUnavailable)
        else None
  }

  function ResumeRecheck(db: Db, reading: int, attemptId: Text, q: RecheckRequest, resumable: bool,
                         snapshotSealed: bool)
    : Outcome<Standing>
  {
    var now := Now(db.clock, reading);
    var refusal := RecheckRefusal(db, attemptId, q, resumable, snapshotSealed);
    if refusal.Some? then Outcome(db, Denied(refusal.value))
    else
      var row := db.attempts[attemptId];
      var lease :=
        db.leases[row.key].(fence := db.sequence + 1, expiresAt := now + q.ttl, candidateSha := q.candidateSha,
                                       run := q.recheckRun);
      Outcome(AfterHandoff(db, now, RecheckHandoff, attemptId, row, lease),
              Granted(Standing(row.(phase := Rechecking, updatedAt := now), now + q.ttl, now)))
  }

  // ---------- Keeping and moving an attempt ----------

  function Renew(db: Db, reading: int, attemptId: Text, fence: nat, ttl: int): Outcome<Standing> {
    var now := Now(db.clock, reading);
    if !ValidTtl(ttl) then Outcome(db, Denied(AttemptInputInvalid))
    else if attemptId !in db.attempts then Outcome(db, Denied(AttemptMissing))
    else
      var row := db.attempts[attemptId];
      var refusal := OwnerRefusal(db.leases, db.locks, row, attemptId, fence, now);
      if refusal.Some? then Outcome(db, Denied(refusal.value))
      else
        Outcome(WithOwnership(db.(clock := now), Renewed, attemptId, row, db.leases[row.key].(expiresAt := now + ttl)),
                Granted(Standing(row, now + ttl, now)))
  }

  function Transition(db: Db, reading: int, attemptId: Text, fence: nat, from: Phase, to: Phase,
                      artifact: Option<Artifact>,
                      resourceIds: Option<seq<Text>>): Outcome<Attempt>
  {
    var now := Now(db.clock, reading);
    if attemptId !in db.attempts then Outcome(db, Denied(AttemptMissing))
    else
      var row := db.attempts[attemptId];
      var refusal := OwnerRefusal(db.leases, db.locks, row, attemptId, fence, now);
      if refusal.Some? then Outcome(db, Denied(refusal.value))
      else if row.phase != from || !MayMove(from, to) then Outcome(db, Denied(InvalidTransition))
      else if to == Collected && artifact.None? then Outcome(db, Denied(AttemptInputInvalid))
      else
        var changed := row.(phase := to, updatedAt := now,
                            artifact := if artifact.Some? then artifact else row.artifact,
                            resourceIds := KeepOr(resourceIds, row.resourceIds));
        Outcome(WithAttempt(db.(clock := now), attemptId, changed), Granted(changed))
  }

  // ---------- Cleanup ----------

  predicate HasScopedReservation(reservations: map<Text, Reservation>, attemptId: Text, scope: Scope) {
    exists r :: r in ReservationsOf(reservations, attemptId) && reservations[r].scope == scope
  }

  // Why the store itself refuses a cleanup.
  function CleanupGuard(db: Db, now: int, attemptId: Text, fence: nat, verified: bool): Option<Refusal> {
    if attemptId !in db.attempts then Some(AttemptMissing)
    else
      var row := db.attempts[attemptId];
      var refusal := OwnerRefusal(db.leases, db.locks, row, attemptId, fence, now);
      if refusal.Some? then refusal
      else if !Terminal(row.phase) then Some(CleanupNotTerminal)
      else if HasInFlight(db.intents, db.receipts, attemptId) then Some(StripeIntentUnresolved)
      else if !HasScopedReservation(db.reservations, attemptId, ScopeOf(row.environment)) then
        Some(CleanupReceiptInvalid)
      else if attemptId in db.cleanups then Some(CleanupReceiptConflict)
      else if !verified then Some(CleanupUnverified)
      else None
  }

  predicate LeaseLasts(leases: map<Key, Lease>, attemptId: Text, projectRef: Text, fence: nat, at: int) {
    exists key :: key in leases && key.projectRef == projectRef && leases[key].attemptId == attemptId &&
                  leases[key].fence == fence && leases[key].expiresAt > at
  }

  // What the database itself asks of a cleanup receipt when it is inserted at `insertedAt`.
  function CleanupRule(db: Db, insertedAt: int, attemptId: Text, receipt: CleanupReceipt): Option<Refusal> {
    if receipt.reservationId !in db.reservations || attemptId !in db.attempts then Some(ConstraintViolation)
    else
      var reservation, row := db.reservations[receipt.reservationId], db.attempts[attemptId];
      if reservation.attemptId != attemptId || reservation.scope != ScopeOf(receipt.environment) ||
         row.environment != receipt.environment || !Terminal(row.phase) || row.cleanup != Pending then
        Some(ConstraintViolation)
      else if !LeaseLasts(db.leases, attemptId, receipt.environment.projectRef, receipt.fence, insertedAt) then
        Some(CleanupReceiptFenceMismatch)
      else if |LocksHeld(db.locks, attemptId, receipt.fence)| != 2 then Some(ConstraintViolation)
      else None
  }

  function LocksHeld(locks: map<Resource, Lock>, attemptId: Text, fence: nat): set<Resource> {
    set r | r in locks && locks[r].attemptId == attemptId && locks[r].fence == fence
  }

  // The attempt is marked as cleaned up and gives up its lease and lock rows.
  function AfterRelease(db: Db, now: int, releasedAt: int, attemptId: Text): Db
    requires attemptId in db.attempts && db.attempts[attemptId].key in db.leases
  {
    var row := db.attempts[attemptId];
    db.(clock := releasedAt,
        attempts := db.attempts[attemptId := row.(cleanup := Done, updatedAt := now)],
        leases := db.leases - {row.key},
        locks := db.locks - {StripeAccount(row.environment.accountId), SupabaseProject(row.environment.projectRef)},
        history := db.history + [EventOf(Released, row.key, db.leases[row.key])])
  }

  ghost function CleanupReceiptOf(db: Db, now: int, attemptId: Text, fence: nat, projection: Text): CleanupReceipt
    requires attemptId in db.attempts && ReservationsOf(db.reservations, attemptId) != {}
  {
    CleanupReceipt(ReservationOf(db.reservations, attemptId), db.attempts[attemptId].environment, fence, projection,
                   now)
  }

  // After the store's own checks the clock is read twice more in the same transaction: `insertReading` when the
  // database checks the receipt, after the cleanup was verified, and `releaseReading` when lease and lock rows are
  // deleted.
  ghost function Cleanup(db: Db, reading: int, insertReading: int, releaseReading: int, attemptId: Text, fence: nat,
                         projection: Text, verified: bool): Outcome<CleanupReceipt>
  {
    var now := Now(db.clock, reading);
    var insertedAt := Now(now, insertReading);
    var releasedAt := Now(insertedAt, releaseReading);
    var guard := CleanupGuard(db, now, attemptId, fence, verified);
    if guard.Some? then Outcome(db, Denied(guard.value))
    else
      var receipt := CleanupReceiptOf(db, now, attemptId, fence, projection);
      var rule := CleanupRule(db, insertedAt, attemptId, receipt);
      if rule.Some? then Outcome(db, Denied(rule.value))
      else if db.leases[db.attempts[attemptId].key].expiresAt <= releasedAt then Outcome(db, Denied(LeaseFenceLost))
      else Outcome(AfterRelease(db, now, releasedAt, attemptId).(cleanups := db.cleanups[attemptId := receipt]),
                   Granted(receipt))
  }

  // ---------- Metered fixture writes ----------

  datatype FixtureRequest = FixtureRequest(
    attemptId: Text, fence: nat, reservationId: Text, rows: int, caseId: Text, namespaceId: Text, fixtureId: Text,
    kind: FixtureKind)

  // The last value in a reservation's chain of usage events.
  function RowsUsed(usage: seq<UsageEvent>, reservationId: Text): int {
    if usage == [] then 0
    else
      var last := usage[|usage| - 1];
      if last.reservationId == reservationId then last.currentRows else RowsUsed(usage[..|usage| - 1], reservationId)
  }

  // Why the store refuses a metered write before it claims anything.
  function FixtureGuard(db: Db, now: int, q: FixtureRequest): Option<Refusal> {
    if !(1 <= q.rows <= MAX_SAFE_INTEGER) then Some(FixtureMutationInvalid)
    else if q.attemptId !in db.attempts then Some(AttemptMissing)
    else
      var row := db.attempts[q.attemptId];
      var refusal := OwnerRefusal(db.leases, db.locks, row, q.attemptId, q.fence, now);
      if refusal.Some? then refusal
      else if row.phase != Collecting || db.leases[row.key].recoveryOnly then Some(RecoveryReadOnly)
      else if q.reservationId !in db.reservations then Some(RetentionReservationMissing)
      else
        var reservation := db.reservations[q.reservationId];
        var used := RowsUsed(db.usage, q.reservationId);
        if reservation.attemptId != q.attemptId || reservation.scope != ScopeOf(row.environment) then
          Some(FixtureReservationInvalid)
        else if q.reservationId in db.settlements then Some(RetentionAttemptSettled)
        else if q.rows > reservation.projection.databaseRows then Some(FixtureReservationInsufficient)
        else if !(0 <= used <= reservation.projection.databaseRows) then Some(RetentionLedgerInvalid)
        else if used + q.rows > reservation.projection.databaseRows then Some(FixtureReservationInsufficient)
        else None
  }

  // What the database itself asks of a case claim when it is inserted at `insertedAt`, even where the case is claimed
  // already.
  predicate CaseClaimAllowed(db: Db, insertedAt: int, attemptId: Text, claim: CaseClaim) {
    attemptId in db.attempts && claim.reservationId in db.reservations &&
    var row, reservation := db.attempts[attemptId], db.reservations[claim.reservationId];
    WritingLeaseLasts(db.leases, attemptId, claim.environment.projectRef, claim.fence, insertedAt) &&
    row.phase == Collecting && row.candidateSha == claim.candidateSha && row.environment == claim.environment &&
    reservation.attemptId == attemptId && reservation.scope == ScopeOf(claim.environment)
  }

  predicate WritingLeaseLasts(leases: map<Key, Lease>, attemptId: Text, projectRef: Text, fence: nat, at: int) {
    exists key :: key in leases && key.projectRef == projectRef && leases[key].attemptId == attemptId &&
                  leases[key].fence == fence && leases[key].expiresAt > at && !leases[key].recoveryOnly
  }

  // A case stays with the claim that first named it, and a fixture with the slot that first named it.
  function ClaimRefusal(db: Db, insertedAt: int, q: FixtureRequest): Option<Refusal>
    requires q.attemptId in db.attempts
  {
    var claim := ClaimOf(q, db.attempts[q.attemptId]);
    var caseKey, slot := CaseKey(q.attemptId, q.caseId), FixtureSlot(q.attemptId, q.caseId, q.kind);
    if !CaseClaimAllowed(db, insertedAt, q.attemptId, claim) then Some(FixtureCaseClaimInvalid)
    else if caseKey in db.caseClaims && db.caseClaims[caseKey] != claim then Some(FixtureCaseDuplicate)
    else if slot in db.fixtures then Some(FixtureCaseDuplicate)
    else if exists s :: s in db.fixtures && db.fixtures[s] == q.fixtureId then Some(ConstraintViolation)
    else None
  }

  // What the database itself asks of a usage event.
  predicate UsageEventAllowed(reservations: map<Text, Reservation>, usage: seq<UsageEvent>, e: UsageEvent) {
    e.reservationId in reservations && reservations[e.reservationId].attemptId == e.attemptId &&
    e.currentRows <= reservations[e.reservationId].projection.databaseRows &&
    0 <= e.previousRows < e.currentRows && e.previousRows == RowsUsed(usage, e.reservationId) &&
    forall other :: other in usage && other.reservationId == e.reservationId ==> other.currentRows != e.currentRows
  }

  function ClaimOf(q: FixtureRequest, row: Attempt): CaseClaim {
    CaseClaim(q.reservationId, q.fence, row.candidateSha, row.environment, q.namespaceId)
  }

  function EventOfCharge(usage: seq<UsageEvent>, q: FixtureRequest): UsageEvent {
    var used := RowsUsed(usage, q.reservationId);
    UsageEvent(q.reservationId, q.attemptId, used, used + q.rows)
  }

  function FixtureRefusal(db: Db, now: int, insertedAt: int, q: FixtureRequest): Option<Refusal> {
    var guard := FixtureGuard(db, now, q);
    if guard.Some? then guard
    else
      var claim := ClaimRefusal(db, insertedAt, q);
      if claim.Some? then claim
      else if !UsageEventAllowed(db.reservations, db.usage, EventOfCharge(db.usage, q)) then Some(FixtureUsageInvalid)
      else None
  }

  // The charge is committed before the caller learns whether its writer threw, so the writer's fate changes nothing
  // here. `insertReading` is the clock when the database checks the claim. Grants the number of rows that were still
  // unused.
  function FixtureMutationWithReservation(db: Db, reading: int, insertReading: int, q: FixtureRequest): Outcome<int> {
    var now := Now(db.clock, reading);
    var insertedAt := Now(now, insertReading);
    var refusal := FixtureRefusal(db, now, insertedAt, q);
    if refusal.Some? then Outcome(db, Denied(refusal.value))
    else
      Outcome(db.(clock := insertedAt,
                  caseClaims := db.caseClaims[CaseKey(q.attemptId, q.caseId) := ClaimOf(q, db.attempts[q.attemptId])],
                  fixtures := db.fixtures[FixtureSlot(q.attemptId, q.caseId, q.kind) := q.fixtureId],
                  usage := db.usage + [EventOfCharge(db.usage, q)]),
              Granted(db.reservations[q.reservationId].projection.databaseRows - RowsUsed(db.usage, q.reservationId)))
  }
}
