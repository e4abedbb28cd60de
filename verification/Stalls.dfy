// Dead ends: rows that no operation can ever move again. The protocol keeps them safe, not live.
module Stalls {
  import opened Options
  import opened Records
  import opened Control
  import opened Runs
  import opened Ownership
  import opened Changes
  import opened History
  import opened Lifecycle
  import opened StripeLedger
  import opened RetentionLedger
  import opened FixtureLedger
  import opened Safety
  import opened Mirrors

  // ---------- Attempts that hold their rows under an expired lease ----------

  ghost predicate Expired(db: Db, a: Text) {
    Owns(db, a) && db.leases[db.attempts[a].key].expiresAt <= db.clock
  }

  ghost predicate SameRowsOf(db: Db, after: Db, a: Text) requires Owns(db, a) {
    var row := db.attempts[a];
    var account, project := StripeAccount(row.environment.accountId), SupabaseProject(row.environment.projectRef);
    a in after.attempts && after.attempts[a] == row && row.key in after.leases &&
    after.leases[row.key] == db.leases[row.key] &&
    account in after.locks && after.locks[account] == db.locks[account] &&
    project in after.locks && after.locks[project] == db.locks[project]
  }

  predicate MayRecheck(db: Db, a: Text) requires a in db.attempts {
    db.attempts[a].phase == Collected && !HasInFlight(db.intents, db.receipts, a)
  }

  predicate MayRecover(db: Db, a: Text) requires Leases(db, a) {
    (Terminal(db.attempts[a].phase) || db.attempts[a].phase == Rechecking) &&
    !Settled(db.reservations, db.settlements, a) &&
    (HasInFlight(db.intents, db.receipts, a) || db.leases[db.attempts[a].key].recoveryOnly)
  }

  predicate MayBeReplaced(db: Db, a: Text) {
    !HasInFlight(db.intents, db.receipts, a) && Settled(db.reservations, db.settlements, a)
  }

  // A fence is left to draw, and a recheck, a recovery or a takeover is open to the attempt.
  predicate HasWayOut(db: Db, a: Text) requires Leases(db, a) {
    db.sequence < MAX_FENCE_SEQUENCE && (MayRecheck(db, a) || MayRecover(db, a) || MayBeReplaced(db, a))
  }

  // ---------- Nothing else moves them ----------

  lemma ReleaseSparesOwner(db: Db, after: Db, b: Text, row: Attempt, a: Text)
    requires ReleasesOwnership(db, after, b, row) && Owns(db, a) && a != b
    ensures SameRowsOf(db, after, a)
  {
  }

  lemma RewriteSparesOwner(db: Db, after: Db, b: Text, row: Attempt, lease: Lease, a: Text)
    requires RewritesOwnership(db, after, b, row, lease) && Owns(db, a) && a != b
    ensures SameRowsOf(db, after, a)
  {
  }

  lemma EntrySparesOwner(db: Db, after: Db, now: int, q: AdmissionRequest, a: Text)
    requires AdmitsOwner(db, after, now, q, after.sequence) && Owns(db, a) &&
             a !in PriorOwners(db, q.key, q.environment)
    ensures SameRowsOf(db, after, a)
  {
    AdmissionSparesOthers(db, after, now, q, after.sequence, a);
    var row := db.attempts[a];
    assert row.key != q.key;
    assert StripeAccount(row.environment.accountId) != StripeAccount(q.environment.accountId);
    assert SupabaseProject(row.environment.projectRef) != SupabaseProject(q.environment.projectRef);
  }

  lemma MoveSparesOwner(db: Db, after: Db, b: Text, row: Attempt, a: Text)
    requires MovesAttempt(db, after, b, row) && Owns(db, a) && a != b
    ensures SameRowsOf(db, after, a)
  {
  }

  // Which changes leave the rows of an expired owner alone.
  lemma ChangeSparesOwner(db: Db, after: Db, change: Change, a: Text)
    requires RowsAgree(db) && Makes(db, after, change) && Expired(db, a)
    requires change.Rewrite? ==> change.attemptId != a
    requires change.Enter? ==> a !in PriorOwners(db, change.admission.key, change.admission.environment)
    ensures SameRowsOf(db, after, a)
  {
    hide LockRowAgrees, LeaseRowAgrees, RowsAgree, SameRowsOf, SameLedgers, HoldsLocks, PriorOwners, Vacant;
    match change
    case Leave => LeavingSparesOwner(db, after, a);
    case MoveRow(b, row) => MoveSparesOwner(db, after, b, row, a);
    case Rewrite(b, row, lease, _) => RewriteSparesOwner(db, after, b, row, lease, a);
    case Enter(now, q) => EntrySparesOwner(db, after, now, q, a);
    case Release(b, row) => ReleaseSparesOwner(db, after, b, row, a);
  }

  lemma LeavingSparesOwner(db: Db, after: Db, a: Text)
    requires LeavesOwnership(db, after) && Owns(db, a)
    ensures SameRowsOf(db, after, a)
  {
  }

  lemma AcceptedHandoffFoundAWayOut(db: Db, op: Op)
    requires op.HandOff? && Accepts(db, op)
    ensures op.attemptId in db.attempts && db.sequence < MAX_FENCE_SEQUENCE
    ensures Leases(db, op.attemptId) ==> MayRecover(db, op.attemptId)
  {
    hide HoldsLocks, ReservationsOf, WithOwnership, WithAttempt;
    var a := op.attemptId;
    assert PendingIntents(db, a) != {} ==> HasInFlight(db.intents, db.receipts, a) by {
      if PendingIntents(db, a) != {} { var i :| i in PendingIntents(db, a); }
    }
  }

  lemma AcceptedRecheckFoundAWayOut(db: Db, op: Op)
    requires op.Recheck? && Accepts(db, op)
    ensures op.attemptId in db.attempts && db.sequence < MAX_FENCE_SEQUENCE && MayRecheck(db, op.attemptId)
  {
    hide HoldsLocks, WithOwnership, WithAttempt;
  }

  lemma AcceptedAdmissionFoundWaysOut(db: Db, op: Op, a: Text)
    requires RowsAgree(db) && op.Admit? && Accepts(db, op) && op.admission.attemptId !in db.attempts
    requires a in PriorOwners(db, op.admission.key, op.admission.environment)
    ensures db.sequence < MAX_FENCE_SEQUENCE && MayBeReplaced(db, a)
  {
    hide RowsAgree, PriorOwners, RetentionCapacity, PriorLockRefusal, PriorLeaseRefusal, AfterAdmission, Vacant;
    AcceptedFreshAdmission(db, op);
    PriorOwnersAreIdle(db, Now(db.clock, op.reading), op.admission, op.recovered, op.newReservationId);
  }

  lemma RewriteIsByItsAttempt(db: Db, op: Op, a: Text)
    requires ChangeOf(db, op).Rewrite? && ChangeOf(db, op).attemptId == a
    ensures Accepts(db, op) && (op.HandOff? || op.Recheck? || op.Extend?) && op.attemptId == a
    ensures op.Extend? ==> ChangeOf(db, op).kind == Renewed
  {
    hide Accepts, Transition;
  }

  lemma RenewalIsUnexpired(db: Db, after: Db, change: Change)
    requires Makes(db, after, change) && change.Rewrite? && change.kind == Renewed
    ensures change.attemptId in db.attempts && Unexpired(db, db.attempts[change.attemptId].key)
  {
    hide HoldsLocks, SameLedgers;
  }

  lemma EnteringIsAccepted(db: Db, op: Op)
    requires ChangeOf(db, op).Enter?
    ensures op.Admit? && Accepts(db, op) && op.admission.attemptId !in db.attempts &&
            ChangeOf(db, op).admission == op.admission
  {
    hide Accepts, Transition;
  }

  lemma OnlyAWayOutMovesIt(db: Db, op: Op, a: Text)
    requires OwnershipInv(db) && Expired(db, a) && !SameRowsOf(db, Apply(db, op), a)
    ensures HasWayOut(db, a)
  {
    hide Apply, ChangeOf, Makes, RowsAgree, OwnershipAgrees, SameRowsOf, HoldsLocks, PriorOwners, Accepts, MayRecheck,
         MayRecover, MayBeReplaced;
    var change := ChangeOf(db, op);
    EveryOperationMakesItsChange(db, op);
    if change.Rewrite? && change.attemptId == a {
      RewriteIsByItsAttempt(db, op, a);
      if op.HandOff? { AcceptedHandoffFoundAWayOut(db, op); }
      else if op.Recheck? { AcceptedRecheckFoundAWayOut(db, op); }
      else { RenewalIsUnexpired(db, Apply(db, op), change); }
    } else if change.Enter? && a in PriorOwners(db, change.admission.key, change.admission.environment) {
      EnteringIsAccepted(db, op);
      AcceptedAdmissionFoundWaysOut(db, op, a);
    } else {
      ChangeSparesOwner(db, Apply(db, op), change, a);
    }
  }

  // ---------- Each way out can be taken ----------

  // Some identifier is not among finitely many.
  lemma {:induction false} Fresh(taken: set<Text>) returns (t: Text)
    ensures forall u :: u in taken ==> u.number < t.number
    ensures t !in taken
    decreases |taken|
  {
    if taken == {} {
      t := Text(0);
    } else {
      var u :| u in taken;
      var s := Fresh(taken - {u});
      t := if u.number < s.number then s else Text(u.number + 1);
      forall v | v in taken ensures v.number < t.number {
        if v != u { assert v in taken - {u}; }
      }
    }
  }

  lemma NewFenceChangesRows(db: Db, after: Db, a: Text)
    requires RowsAgree(db) && Owns(db, a) && db.attempts[a].key in after.leases
    requires after.leases[db.attempts[a].key].fence == db.sequence + 1
    ensures !SameRowsOf(db, after, a)
  {
    assert LeaseRowAgrees(db, db.attempts[a].key);
  }

  lemma RecheckIsAWayOut(db: Db, a: Text) returns (op: Op)
    requires Sound(db) && Owns(db, a) && db.sequence < MAX_FENCE_SEQUENCE && MayRecheck(db, a)
    ensures !SameRowsOf(db, Apply(db, op), a)
  {
    hide HistoryInv, StripeInv, RetentionInv, FixtureInv, CleanupInv, LifecycleInv, SameRowsOf, HoldsLocks,
         OwnershipAgrees, HasInFlight, LockRowAgrees, LeaseRowAgrees;
    var row := db.attempts[a];
    var runId := Fresh({row.workflow.run.runId});
    var q := RecheckRequest(row.artifact, row.workflow, row.environment, row.candidateSha, row.candidateSha,
                            Run(row.workflow.run.repository, row.workflow.run.gitRef, runId, 1), 60);
    op := Recheck(db.clock, a, q, true, true);
    assert RecheckRefusal(db, a, q, true, true).None?;
    var after := ResumeRecheck(db, db.clock, a, q, true, true).db;
    assert after.leases[row.key].fence == db.sequence + 1;
    NewFenceChangesRows(db, after, a);
  }

  lemma RecoveryIsAWayOut(db: Db, a: Text) returns (op: Op)
    requires Sound(db) && Owns(db, a) && db.sequence < MAX_FENCE_SEQUENCE && MayRecover(db, a)
    ensures !SameRowsOf(db, Apply(db, op), a)
  {
    hide HistoryInv, StripeInv, RetentionInv, FixtureInv, CleanupInv, LifecycleInv, SameRowsOf, HoldsLocks,
         LockRowAgrees, OwnershipAgrees;
    var row := db.attempts[a];
    var lease := db.leases[row.key];
    assert LeaseRowAgrees(db, row.key);
    OwnerHasNoReceipt(db, a);
    OwnReservationHasOwnScope(db, a);
    PendingAreInFlight(db, a);
    hide LeaseRowAgrees, RowsAgree, HasInFlight, PendingIntents, Settled, ReservationsOf;
    var verdict :=
      RecoveryVerdict(true, true,
                      Some(Workflow(lease.run.(runAttempt := lease.run.runAttempt + 1), row.workflow.runnerLabel)));
    op := HandOff(db.clock, a, lease.fence, 60, verdict);
    assert RecoveryRefusal(db, a, lease.fence, 60, verdict).None?;
    var after := HandoffStripeIntentRecovery(db, db.clock, a, lease.fence, 60, verdict).db;
    assert after.leases[row.key].fence == db.sequence + 1;
    NewFenceChangesRows(db, after, a);
  }

  lemma PendingAreInFlight(db: Db, a: Text)
    ensures PendingIntents(db, a) != {} <==> HasInFlight(db.intents, db.receipts, a)
  {
    if HasInFlight(db.intents, db.receipts, a) {
      var i :| i in db.intents && db.intents[i].attemptId == a && i !in db.receipts;
      assert i in PendingIntents(db, a);
    }
  }

  lemma UnusedScopeIsEmpty(db: Db, scope: Scope)
    requires forall r :: r in db.reservations ==> db.reservations[r].scope != scope
    requires forall r :: r in db.settlements ==> db.settlements[r].scope != scope
    ensures Total(Retained(db.settlements, scope)) == Total(Outstanding(db.reservations, db.settlements, scope)) ==
            NO_USAGE
    ensures Policies(db.reservations, scope) == {}
  {
    assert Retained(db.settlements, scope) == map[] && Outstanding(db.reservations, db.settlements, scope) == map[];
    assert Total(map[]) == NO_USAGE;
  }

  lemma NothingChargedLeavesRoom(quotas: Usage, projection: Usage)
    requires ValidRetention(quotas, projection) && projection.Within(quotas)
    ensures RetentionCapacity(NO_USAGE, NO_USAGE, {}, quotas, projection).Granted?
  {
    CapacityIsExact(NO_USAGE, NO_USAGE, {}, quotas, projection);
    hide RetentionCapacity;
  }

  // A scope in which nothing was ever reserved has room for a projection within its quotas.
  lemma UnusedScopeHasRoom(db: Db, q: AdmissionRequest)
    requires ValidRetention(q.quotas, q.projection) && q.projection.Within(q.quotas)
    requires forall r :: r in db.reservations ==> db.reservations[r].scope != ScopeOf(q.environment)
    requires forall r :: r in db.settlements ==> db.settlements[r].scope != ScopeOf(q.environment)
    ensures var scope := ScopeOf(q.environment);
            RetentionCapacity(Total(Retained(db.settlements, scope)),
                              Total(Outstanding(db.reservations, db.settlements, scope)),
                              Policies(db.reservations, scope), q.quotas, q.projection).Granted?
  {
    hide Total, Retained, Outstanding, Policies, RetentionCapacity, ValidRetention, Usage.Within;
    UnusedScopeIsEmpty(db, ScopeOf(q.environment));
    NothingChargedLeavesRoom(q.quotas, q.projection);
  }

  // When an admission of a new attempt is granted.
  lemma AdmissionIsGranted(db: Db, reading: int, q: AdmissionRequest, recovered: set<Text>, id: Text)
    requires q.attemptId !in db.attempts && ReservationsOf(db.reservations, q.attemptId) == {} && id !in db.reservations
    requires ValidRetention(q.quotas, q.projection) && ValidTtl(q.ttl) && q.key.projectRef == q.environment.projectRef
    requires var scope := ScopeOf(q.environment);
             RetentionCapacity(Total(Retained(db.settlements, scope)),
                               Total(Outstanding(db.reservations, db.settlements, scope)),
                               Policies(db.reservations, scope), q.quotas, q.projection).Granted?
    requires q.key !in db.leases
    requires PriorLockRefusal(db, q.key, Now(db.clock, reading), StripeAccount(q.environment.accountId)).None?
    requires PriorLockRefusal(db, q.key, Now(db.clock, reading), SupabaseProject(q.environment.projectRef)).None?
    requires forall b :: b in PriorOwners(db, q.key, q.environment) ==> MayReplace(db, b, recovered)
    requires db.sequence < MAX_FENCE_SEQUENCE
    ensures Accepts(db, Admit(reading, None, q, recovered, id))
    ensures Apply(db, Admit(reading, None, q, recovered, id)) == AfterAdmission(db, Now(db.clock, reading), q, id)
  {
    hide RetentionCapacity, Total, Retained, Outstanding, Policies, PriorLockRefusal, PriorOwners, MayReplace,
         AfterAdmission, AdmissionCapacity, ReservationsOf, ValidRetention;
  }

  function ProjectsInUse(db: Db): set<Text> {
    (set r | r in db.reservations :: db.reservations[r].scope.projectRef) +
    (set r | r in db.settlements :: db.settlements[r].scope.projectRef) +
    (set k | k in db.leases :: k.projectRef) +
    (set a | a in db.attempts :: db.attempts[a].environment.projectRef)
  }

  lemma UnusedProject(db: Db, projectRef: Text)
    requires RowsAgree(db) && projectRef !in ProjectsInUse(db)
    ensures forall r :: r in db.reservations ==> db.reservations[r].scope.projectRef != projectRef
    ensures forall r :: r in db.settlements ==> db.settlements[r].scope.projectRef != projectRef
    ensures forall k :: k in db.leases ==> k.projectRef != projectRef
    ensures SupabaseProject(projectRef) !in db.locks
  {
    hide HoldsLocks, LeaseRowAgrees;
    forall r | r in db.locks ensures r != SupabaseProject(projectRef) {
      assert LockRowAgrees(db, r);
    }
  }

  lemma ExpiredLockMayBeTaken(db: Db, a: Text, key: Key, now: int)
    requires RowsAgree(db) && Expired(db, a) && key !in db.leases && db.clock <= now
    ensures PriorLockRefusal(db, key, now, StripeAccount(db.attempts[a].environment.accountId)).None?
    ensures LockOwner(db.locks, StripeAccount(db.attempts[a].environment.accountId)) == {a}
  {
    hide LockRowAgrees;
    assert LeaseRowAgrees(db, db.attempts[a].key);
  }

  // Anybody who wants the account under an unused project takes the attempt's place.
  function Takeover(db: Db, a: Text, projectRef: Text, newcomer: Text): AdmissionRequest requires a in db.attempts {
    var row := db.attempts[a];
    AdmissionRequest(newcomer, row.key.(projectRef := projectRef), row.candidateSha, row.workflow,
                     row.environment.(projectRef := projectRef), 60, Usage(1, 1, 1, 1), Usage(1, 0, 0, 0))
  }

  lemma TakeoverIsGranted(db: Db, a: Text, projectRef: Text, newcomer: Text, id: Text)
    requires Sound(db) && Expired(db, a) && db.sequence < MAX_FENCE_SEQUENCE && MayBeReplaced(db, a)
    requires projectRef !in ProjectsInUse(db) && newcomer !in db.attempts && id !in db.reservations
    ensures var q := Takeover(db, a, projectRef, newcomer);
            Apply(db, Admit(db.clock, None, q, {a}, id)) == AfterAdmission(db, db.clock, q, id) &&
            PriorOwners(db, q.key, q.environment) == {a}
  {
    hide HistoryInv, StripeInv, FixtureInv, CleanupInv, LifecycleInv, HoldsLocks, OwnershipAgrees, LeaseRowAgrees,
         LockRowAgrees, PriorLockRefusal, RetentionCapacity, RetentionInv, ProjectsInUse, Apply, Accepts;
    var q := Takeover(db, a, projectRef, newcomer);
    UnusedProject(db, projectRef);
    UnusedScopeHasRoom(db, q);
    ExpiredLockMayBeTaken(db, a, q.key, db.clock);
    NewcomerHasNoReservation(db, newcomer);
    NoLockNoRefusal(db, q.key, db.clock, SupabaseProject(projectRef));
    assert LockOwner(db.locks, SupabaseProject(projectRef)) == {};
    AdmissionIsGranted(db, db.clock, q, {a}, id);
  }

  lemma NoLockNoRefusal(db: Db, key: Key, now: int, r: Resource)
    requires r !in db.locks
    ensures PriorLockRefusal(db, key, now, r).None?
  {
  }

  lemma NewcomerHasNoReservation(db: Db, newcomer: Text)
    requires RetentionInv(db) && newcomer !in db.attempts
    ensures ReservationsOf(db.reservations, newcomer) == {}
  {
    hide OneReservationEach, OnePolicyEach, WithinQuotas, SettlementAgrees;
    forall r | r in db.reservations ensures db.reservations[r].attemptId != newcomer {
      assert ReservationAgrees(db, r);
    }
  }

  lemma TakeoverIsAWayOut(db: Db, a: Text) returns (op: Op)
    requires Sound(db) && Expired(db, a) && db.sequence < MAX_FENCE_SEQUENCE && MayBeReplaced(db, a)
    ensures !SameRowsOf(db, Apply(db, op), a)
  {
    hide HistoryInv, StripeInv, FixtureInv, CleanupInv, LifecycleInv, OwnershipInv, RetentionInv, ProjectsInUse,
         PriorOwners, HoldsLocks, MayBeReplaced, Apply, WithOwnership, AdmissionCapacity;
    var projectRef := Fresh(ProjectsInUse(db));
    var newcomer := Fresh(db.attempts.Keys);
    var id := Fresh(db.reservations.Keys);
    var q := Takeover(db, a, projectRef, newcomer);
    op := Admit(db.clock, None, q, {a}, id);
    TakeoverIsGranted(db, a, projectRef, newcomer, id);
    OwnerHasNoReceipt(db, a);
    RetiredRowChanges(db, db.clock, q, id, a);
  }

  lemma RetiredRowChanges(db: Db, now: int, q: AdmissionRequest, id: Text, a: Text)
    requires Owns(db, a) && db.attempts[a].cleanup == Pending && a != q.attemptId &&
             a in PriorOwners(db, q.key, q.environment)
    ensures !SameRowsOf(db, AfterAdmission(db, now, q, id), a)
  {
    hide PriorOwners, AdmissionCapacity, HoldsLocks;
    assert AfterAdmission(db, now, q, id).attempts[a].cleanup == Done;
  }

  // An attempt that holds its rows under an expired lease can be moved by one operation exactly when a fence is left to
  // draw and one of these holds: it is collected with nothing in flight; it is past collection, not settled, and has an
  // intent in flight or was recovered before; or it is settled with nothing in flight.
  lemma ExpiredOwnerMovesExactlyWhen(db: Db, a: Text)
    requires Sound(db) && Expired(db, a)
    ensures (exists op :: !SameRowsOf(db, Apply(db, op), a)) <==> HasWayOut(db, a)
  {
    hide Sound, Apply, SameRowsOf, MayRecheck, MayRecover, MayBeReplaced, HoldsLocks;
    if op :| !SameRowsOf(db, Apply(db, op), a) {
      SoundHasOwnership(db);
      OnlyAWayOutMovesIt(db, op, a);
    }
    if HasWayOut(db, a) {
      var op;
      if MayRecheck(db, a) { op := RecheckIsAWayOut(db, a); }
      else if MayRecover(db, a) { op := RecoveryIsAWayOut(db, a); }
      else { op := TakeoverIsAWayOut(db, a); }
      assert !SameRowsOf(db, Apply(db, op), a);
    }
  }

  // ---------- Dead ends ----------

  // Neither a recheck, nor a recovery, nor a takeover will ever be open again: an intent is in flight, and the
  // attempt is either still collecting or collected, or already settled.
  ghost predicate Wedged(db: Db, a: Text) {
    Expired(db, a) && HasInFlight(db.intents, db.receipts, a) &&
    (db.attempts[a].phase == Collecting || db.attempts[a].phase == Collected ||
     Settled(db.reservations, db.settlements, a))
  }

  ghost predicate Stuck(db: Db, a: Text) {
    Wedged(db, a) || (Expired(db, a) && db.sequence >= MAX_FENCE_SEQUENCE)
  }

  lemma MoreSettlements(reservations: map<Text, Reservation>, settlements: map<Text, Settlement>,
                        laterReservations: map<Text, Reservation>, laterSettlements: map<Text, Settlement>, a: Text)
    requires Settled(reservations, settlements, a) && settlements.Keys <= laterSettlements.Keys
    requires forall r :: r in reservations ==> r in laterReservations && laterReservations[r] == reservations[r]
    ensures Settled(laterReservations, laterSettlements, a)
  {
    var r :| r in ReservationsOf(reservations, a) && r in settlements;
    assert r in ReservationsOf(laterReservations, a);
  }

  lemma LedgersGrow(db: Db, op: Op)
    requires RowsAgree(db)
    ensures db.settlements.Keys <= Apply(db, op).settlements.Keys
    ensures forall r :: r in db.reservations ==>
              r in Apply(db, op).reservations && Apply(db, op).reservations[r] == db.reservations[r]
  {
    hide RowsAgree, Accepts, Prepare, ReconcileReservation, FixtureMutationWithReservation;
    if op.Charge? {
      ChargeTouchesFixtures(db, op.reading, op.insertReading, op.fixture);
    } else if op.Admit? && Accepts(db, op) && op.admission.attemptId !in db.attempts {
      AcceptedFreshAdmission(db, op);
      AdmissionAddsToLedgers(db, op.reading, op.expected, op.admission, op.recovered, op.newReservationId);
    } else if op.Settle? {
      SettlementsAreForever(db, op);
    } else {
      hide Apply;
      OthersLeaveLedgers(db, op);
    }
  }

  lemma AdmissionAddsToLedgers(db: Db, reading: int, expected: Option<Environment>, q: AdmissionRequest,
                               recovered: set<Text>, id: Text)
    requires RowsAgree(db) && q.attemptId !in db.attempts
    requires Prepare(db, reading, expected, q, recovered, id).reply.Granted?
    ensures var after := Prepare(db, reading, expected, q, recovered, id).db;
            after.settlements == db.settlements && id !in db.reservations && id in after.reservations &&
            after.reservations == db.reservations[id := after.reservations[id]]
  {
    hide RowsAgree, Prepare, RetentionCapacity, AdmissionCapacity, Total, Retained, Outstanding, Policies,
         ReservationsOf;
    FreshAdmissionAddsReservation(db, reading, expected, q, recovered, id);
  }

  lemma SettledStays(db: Db, op: Op, a: Text)
    requires RowsAgree(db) && Settled(db.reservations, db.settlements, a)
    ensures Settled(Apply(db, op).reservations, Apply(db, op).settlements, a)
  {
    hide *;
    LedgersGrow(db, op);
    MoreSettlements(db.reservations, db.settlements, Apply(db, op).reservations, Apply(db, op).settlements, a);
  }

  lemma SettlementsAreForever(db: Db, op: Op)
    requires op.Settle?
    ensures Apply(db, op).reservations == db.reservations
    ensures forall r :: r in db.settlements ==> r in Apply(db, op).settlements
  {
    hide SettlementReply;
  }

  lemma PendingStays(db: Db, after: Db, change: Change, a: Text)
    requires Makes(db, after, change) && Expired(db, a) && HasInFlight(db.intents, db.receipts, a)
    ensures HasInFlight(after.intents, after.receipts, a)
  {
    hide HoldsLocks, SameLedgers, Vacant, PriorOwners;
    var i :| i in db.intents && db.intents[i].attemptId == a && i !in db.receipts;
    assert i in after.intents && after.intents[i].attemptId == a && i !in after.receipts;
  }

  lemma TimePasses(db: Db, after: Db, change: Change)
    requires Makes(db, after, change)
    ensures db.clock <= after.clock && db.sequence <= after.sequence
  {
    hide Owns, HoldsLocks, SameLedgers, Vacant, PriorOwners, Retired;
  }

  lemma SameRowsExpire(db: Db, after: Db, a: Text)
    requires Expired(db, a) && SameRowsOf(db, after, a) && db.clock <= after.clock
    ensures Expired(after, a) && after.attempts[a] == db.attempts[a]
  {
  }

  lemma StuckKeepsItsRows(db: Db, op: Op, a: Text)
    requires OwnershipInv(db) && Stuck(db, a)
    ensures SameRowsOf(db, Apply(db, op), a) && Stuck(Apply(db, op), a) && (Wedged(db, a) ==> Wedged(Apply(db, op), a))
  {
    hide Apply, ChangeOf, Makes, RowsAgree, OwnershipAgrees, SameRowsOf, HoldsLocks, Settled, HasInFlight;
    var after := Apply(db, op);
    if !SameRowsOf(db, after, a) {
      OnlyAWayOutMovesIt(db, op, a);
      assert false;
    }
    EveryOperationMakesItsChange(db, op);
    TimePasses(db, after, ChangeOf(db, op));
    SameRowsExpire(db, after, a);
    if Wedged(db, a) {
      PendingStays(db, after, ChangeOf(db, op), a);
      if Settled(db.reservations, db.settlements, a) { SettledStays(db, op, a); }
    }
  }

  // No run of operations ever changes a stuck attempt's row, its lease or its locks.
  lemma {:induction false} StuckForEver(db: Db, ops: seq<Op>, a: Text)
    requires OwnershipInv(db) && Stuck(db, a)
    ensures SameRowsOf(db, AfterAll(db, ops), a) && Stuck(AfterAll(db, ops), a)
    ensures Wedged(db, a) ==> Wedged(AfterAll(db, ops), a)
    decreases |ops|
  {
    hide Apply, OwnershipInv, Stuck, Wedged;
    assert Expired(db, a) by { StuckIsExpired(db, a); }
    if ops == [] {
    } else {
      StuckKeepsItsRows(db, ops[0], a);
      EveryOperationKeepsOwnership(db, ops[0]);
      StuckForEver(Apply(db, ops[0]), ops[1..], a);
    }
  }

  lemma StuckIsExpired(db: Db, a: Text)
    requires Stuck(db, a)
    ensures Expired(db, a)
  {
  }

  lemma OwnerSettles(db: Db, a: Text, r: Text)
    requires Sound(db) && Owns(db, a) && r in ReservationsOf(db.reservations, a) && r !in db.settlements
    ensures var retained, scope := Usage(1, 0, 0, 0), ScopeOf(db.attempts[a].environment);
            var settlement :=
              Settlement(a, db.leases[db.attempts[a].key].fence, scope, CancelledRun, retained, db.clock);
            ReconcileReservation(db, db.clock, r, CancelledRun, retained, true) ==
            Outcome(db.(settlements := db.settlements[r := settlement]), Granted(settlement))
  {
    hide OwnershipInv, HistoryInv, StripeInv, FixtureInv, CleanupInv, LifecycleInv, RetentionInv, HoldsLocks,
         SettlementAllowed;
    OwnReservationHasOwnScope(db, a);
    ReservationAllowsLeast(db, r);
    SettlementMeetsConstraints(db, db.clock, r, CancelledRun, Usage(1, 0, 0, 0), true);
  }

  // An owner that is not settled yet can be settled, whatever else happened to it.
  lemma OwnerMaySettle(db: Db, a: Text) returns (op: Op)
    requires Sound(db) && Owns(db, a)
    ensures Settled(Apply(db, op).reservations, Apply(db, op).settlements, a)
    ensures Apply(db, op) == db.(settlements := Apply(db, op).settlements)
  {
    hide OwnershipInv, HistoryInv, StripeInv, FixtureInv, CleanupInv, LifecycleInv, RetentionInv, HoldsLocks,
         ReconcileReservation;
    OwnReservationHasOwnScope(db, a);
    var r :| r in ReservationsOf(db.reservations, a);
    if r in db.settlements {
      op := Check(db.clock, a, 0);
    } else {
      op := Settle(db.clock, r, CancelledRun, Usage(1, 0, 0, 0), true);
      OwnerSettles(db, a, r);
    }
    assert r in ReservationsOf(Apply(db, op).reservations, a) && r in Apply(db, op).settlements;
  }

  lemma ReservationAllowsLeast(db: Db, r: Text)
    requires RetentionInv(db) && r in db.reservations
    ensures Usage(1, 0, 0, 0).Within(db.reservations[r].projection)
  {
    hide OneReservationEach, OnePolicyEach, WithinQuotas, SettlementAgrees;
    assert ReservationAgrees(db, r);
  }

  lemma SettlingSparesRows(db: Db, after: Db, a: Text)
    requires Owns(db, a) && after == db.(settlements := after.settlements)
    ensures SameRowsOf(db, after, a)
  {
  }

  lemma SameRowsCompose(db: Db, middle: Db, after: Db, a: Text)
    requires Owns(db, a) && SameRowsOf(db, middle, a) && Owns(middle, a)
    ensures SameRowsOf(db, after, a) <==> SameRowsOf(middle, after, a)
  {
  }

  // A run of at most two operations that moves an attempt which is not stuck.
  lemma WayOutOfExpiry(db: Db, a: Text) returns (ops: seq<Op>)
    requires Sound(db) && Expired(db, a) && !Stuck(db, a)
    ensures !SameRowsOf(db, AfterAll(db, ops), a)
  {
    hide Sound, Apply, SameRowsOf, HoldsLocks, Settled, HasInFlight;
    if HasWayOut(db, a) {
      ExpiredOwnerMovesExactlyWhen(db, a);
      var op :| !SameRowsOf(db, Apply(db, op), a);
      OneStep(db, op);
      ops := [op];
    } else {
      var settle := OwnerMaySettle(db, a);
      var settled := Apply(db, settle);
      OperationKeepsSound(db, settle);
      SettlingSparesRows(db, settled, a);
      SameRowsExpire(db, settled, a);
      ExpiredOwnerMovesExactlyWhen(settled, a);
      var op :| !SameRowsOf(settled, Apply(settled, op), a);
      SameRowsCompose(db, settled, Apply(settled, op), a);
      RunAppend(db, [settle], [op]);
      OneStep(db, settle);
      OneStep(settled, op);
      ops := [settle] + [op];
    }
  }

  // An attempt that holds its rows under an expired lease is moved by some run exactly when it is not stuck.
  lemma ExpiredOwnerEverMovesExactlyWhen(db: Db, a: Text)
    requires Sound(db) && Expired(db, a)
    ensures (exists ops :: !SameRowsOf(db, AfterAll(db, ops), a)) <==> !Stuck(db, a)
  {
    hide Sound, AfterAll, SameRowsOf, Stuck, HoldsLocks;
    if Stuck(db, a) {
      SoundHasOwnership(db);
      forall ops ensures SameRowsOf(db, AfterAll(db, ops), a) {
        StuckForEver(db, ops, a);
      }
    } else {
      var ops := WayOutOfExpiry(db, a);
    }
  }

  // ---------- A key whose lease row no lock row names ----------

  ghost predicate Orphaned(db: Db, key: Key) {
    key in db.leases && forall r :: !NamesLease(db.locks, r, db.leases[key])
  }

  lemma OwnerNamesItsLease(db: Db, a: Text)
    requires Owns(db, a)
    ensures NamesLease(db.locks, StripeAccount(db.attempts[a].environment.accountId), db.leases[db.attempts[a].key])
  {
  }

  lemma OrphanKeepsItsRow(db: Db, after: Db, change: Change, key: Key)
    requires RowsAgree(db) && Makes(db, after, change) && Orphaned(db, key)
    ensures Orphaned(after, key) && after.leases[key] == db.leases[key]
  {
    hide LockRowAgrees;
    var lease := db.leases[key];
    assert LeaseRowAgrees(db, key);
    if Owns(db, lease.attemptId) {
      OwnerNamesItsLease(db, lease.attemptId);
    }
    forall r ensures !NamesLease(after.locks, r, lease) {
      assert !NamesLease(db.locks, r, lease);
    }
  }

  lemma {:induction false} OrphanedForEver(db: Db, ops: seq<Op>, key: Key)
    requires OwnershipInv(db) && Orphaned(db, key)
    ensures Orphaned(AfterAll(db, ops), key) && AfterAll(db, ops).leases[key] == db.leases[key]
    decreases |ops|
  {
    hide Apply, ChangeOf, Makes, OwnershipAgrees, LeaseRowAgrees, LockRowAgrees, NamesLease;
    if ops == [] {
    } else {
      EveryOperationMakesItsChange(db, ops[0]);
      OrphanKeepsItsRow(db, Apply(db, ops[0]), ChangeOf(db, ops[0]), key);
      EveryOperationKeepsOwnership(db, ops[0]);
      OrphanedForEver(Apply(db, ops[0]), ops[1..], key);
    }
  }

  lemma OrphanedKeyIsRefused(db: Db, reading: int, expected: Option<Environment>, q: AdmissionRequest,
                             recovered: set<Text>, id: Text)
    requires Orphaned(db, q.key) && q.attemptId !in db.attempts
    ensures Prepare(db, reading, expected, q, recovered, id).reply.Denied?
  {
    hide RetentionCapacity, PriorLockRefusal, MayReplace, AfterAdmission, AdmissionCapacity;
    assert PriorLeaseRefusal(db, q.key, q.environment).Some?;
  }

  lemma DeniedAdmission(db: Db, op: Op)
    requires op.Admit? &&
             Prepare(db, op.reading, op.expected, op.admission, op.recovered, op.newReservationId).reply.Denied?
    ensures !Accepts(db, op)
  {
    hide Prepare;
  }

  // An orphaned key is never leased to anyone again.
  lemma OrphanedKeyIsNeverGranted(db: Db, ops: seq<Op>, op: Op, key: Key)
    requires OwnershipInv(db) && Orphaned(db, key)
    requires op.Admit? && op.admission.key == key && op.admission.attemptId !in AfterAll(db, ops).attempts
    ensures !Accepts(AfterAll(db, ops), op)
  {
    hide *;
    OrphanedForEver(db, ops, key);
    var final := AfterAll(db, ops);
    OrphanedKeyIsRefused(final, op.reading, op.expected, op.admission, op.recovered, op.newReservationId);
    assert !Accepts(final, op) by { DeniedAdmission(final, op); }
  }

  // An admission orphans exactly the other keys of whose leases it takes every lock row that names them.
  lemma AdmissionOrphansKey(db: Db, after: Db, now: int, q: AdmissionRequest, key: Key)
    requires RowsAgree(db) && AdmitsOwner(db, after, now, q, after.sequence)
    ensures Orphaned(after, key) <==>
            key in db.leases && key != q.key &&
            forall r :: NamesLease(db.locks, r, db.leases[key]) ==>
              r == StripeAccount(q.environment.accountId) || r == SupabaseProject(q.environment.projectRef)
  {
    hide LockRowAgrees, PriorOwners, Retired;
    var account, project := StripeAccount(q.environment.accountId), SupabaseProject(q.environment.projectRef);
    if key == q.key {
      assert NamesLease(after.locks, account, after.leases[key]);
    } else if key in db.leases {
      assert LeaseRowAgrees(db, key);
      forall r
        ensures NamesLease(after.locks, r, db.leases[key]) <==>
                NamesLease(db.locks, r, db.leases[key]) && r != account && r != project
      {
        assert db.leases[key].fence <= db.sequence;
      }
    }
  }

  lemma OnlyAdmissionsOrphan(db: Db, after: Db, change: Change, key: Key)
    requires OwnershipInv(db) && Makes(db, after, change) && !change.Enter? && !Orphaned(db, key)
    ensures !Orphaned(after, key)
  {
    hide LockRowAgrees, OwnershipAgrees;
    if key in after.leases {
      OldLeaseRow(db, after, change, key);
      var r :| NamesLease(db.locks, r, db.leases[key]);
      assert LeaseRowAgrees(db, key);
      NameSurvives(db, after, change, key, r);
    }
  }

  lemma OldLeaseRow(db: Db, after: Db, change: Change, key: Key)
    requires Makes(db, after, change) && !change.Enter? && key in after.leases
    ensures key in db.leases
  {
    hide HoldsLocks, SameLedgers;
  }

  lemma NameSurvives(db: Db, after: Db, change: Change, key: Key, r: Resource)
    requires RowsAgree(db) && Makes(db, after, change) && !change.Enter? && key in db.leases && key in after.leases
    requires NamesLease(db.locks, r, db.leases[key])
    ensures exists s :: NamesLease(after.locks, s, after.leases[key])
  {
    hide LockRowAgrees, SameLedgers;
    assert LeaseRowAgrees(db, key);
    match change
    case Rewrite(b, row, lease, _) =>
      assert NamesLease(after.locks, StripeAccount(row.environment.accountId), lease);
      if db.leases[key].attemptId != b { assert NamesLease(after.locks, r, after.leases[key]); }
    case Enter(_, _) =>
    case Leave => assert NamesLease(after.locks, r, after.leases[key]);
    case MoveRow(_, _) => assert NamesLease(after.locks, r, after.leases[key]);
    case Release(_, _) => assert NamesLease(after.locks, r, after.leases[key]);
  }

  // What orphans a key: an accepted admission of a new attempt on another key that takes every lock row naming the
  // lease.
  lemma KeyIsOrphanedExactlyWhen(db: Db, op: Op, key: Key)
    requires OwnershipInv(db) && !Orphaned(db, key)
    ensures Orphaned(Apply(db, op), key) <==>
            op.Admit? && Accepts(db, op) && op.admission.attemptId !in db.attempts && key in db.leases &&
            key != op.admission.key &&
            var wanted := op.admission.environment;
            forall r :: NamesLease(db.locks, r, db.leases[key]) ==>
              r == StripeAccount(wanted.accountId) || r == SupabaseProject(wanted.projectRef)
  {
    hide Apply, ChangeOf, OwnershipAgrees, Orphaned, RowsAgree, Accepts, NamesLease, Makes;
    EveryOperationMakesItsChange(db, op);
    var change := ChangeOf(db, op);
    EntersExactlyWhen(db, op);
    if change.Enter? {
      assert AdmitsOwner(db, Apply(db, op), change.now, op.admission, Apply(db, op).sequence) by {
        EntryAdmits(db, Apply(db, op), change);
      }
      AdmissionOrphansKey(db, Apply(db, op), change.now, op.admission, key);
    } else {
      OnlyAdmissionsOrphan(db, Apply(db, op), change, key);
    }
  }

  lemma EntryAdmits(db: Db, after: Db, change: Change)
    requires Makes(db, after, change) && change.Enter?
    ensures AdmitsOwner(db, after, change.now, change.admission, after.sequence)
  {
    hide AdmitsOwner, Vacant;
  }

  lemma EntersExactlyWhen(db: Db, op: Op)
    ensures ChangeOf(db, op).Enter? <==> op.Admit? && Accepts(db, op) && op.admission.attemptId !in db.attempts
    ensures ChangeOf(db, op).Enter? ==> ChangeOf(db, op).admission == op.admission
  {
    hide Accepts, Transition;
  }

  // ---------- A lock row that no lease row backs ----------

  predicate Stranded(db: Db, r: Resource) {
    r in db.locks && !Backed(db, r)
  }

  predicate Wants(q: AdmissionRequest, r: Resource) {
    r == StripeAccount(q.environment.accountId) || r == SupabaseProject(q.environment.projectRef)
  }

  lemma BackedOwnerRow(db: Db, a: Text)
    requires Owns(db, a)
    ensures var row := db.attempts[a];
            var account, project := StripeAccount(row.environment.accountId),
              SupabaseProject(row.environment.projectRef);
            account in db.locks && project in db.locks && Backed(db, account) && Backed(db, project)
  {
  }

  lemma LockAgrees(db: Db, r: Resource)
    requires RowsAgree(db) && r in db.locks
    ensures LockRowAgrees(db, r)
  {
    hide LeaseRowAgrees, LockRowAgrees;
  }

  lemma StrandedKeepsItsRow(db: Db, after: Db, change: Change, r: Resource)
    requires RowsAgree(db) && Makes(db, after, change) && Stranded(db, r)
    requires change.Enter? ==> !Wants(change.admission, r)
    ensures Stranded(after, r) && after.locks[r] == db.locks[r]
  {
    hide LeaseRowAgrees, LockRowAgrees, RowsAgree, HoldsLocks, SameLedgers, PriorOwners, Vacant, Owns, Backed, Wants,
         RewritesOwnership, AdmitsOwner, ReleasesOwnership, MovesAttempt, LeavesOwnership, SettlesOnlyUnexpired;
    LockAgrees(db, r);
    match change
    case Leave => LeavingKeepsStranded(db, after, r);
    case MoveRow(a, row) => MovingKeepsStranded(db, after, a, row, r);
    case Rewrite(a, row, lease, _) => RewritingKeepsStranded(db, after, a, row, lease, r);
    case Enter(now, q) => EntryKeepsStranded(db, after, now, q, r);
    case Release(a, row) => ReleasingKeepsStranded(db, after, a, row, r);
  }

  lemma LeavingKeepsStranded(db: Db, after: Db, r: Resource)
    requires LeavesOwnership(db, after) && Stranded(db, r)
    ensures Stranded(after, r) && after.locks[r] == db.locks[r]
  {
  }

  lemma MovingKeepsStranded(db: Db, after: Db, a: Text, row: Attempt, r: Resource)
    requires MovesAttempt(db, after, a, row) && Stranded(db, r) && LockRowAgrees(db, r)
    ensures Stranded(after, r) && after.locks[r] == db.locks[r]
  {
  }

  lemma RewritingKeepsStranded(db: Db, after: Db, a: Text, row: Attempt, lease: Lease, r: Resource)
    requires RewritesOwnership(db, after, a, row, lease) && Stranded(db, r) && LockRowAgrees(db, r)
    ensures Stranded(after, r) && after.locks[r] == db.locks[r]
  {
    hide HoldsLocks;
    BackedOwnerRow(db, a);
  }

  lemma ReleasingKeepsStranded(db: Db, after: Db, a: Text, row: Attempt, r: Resource)
    requires ReleasesOwnership(db, after, a, row) && Stranded(db, r) && LockRowAgrees(db, r)
    ensures Stranded(after, r) && after.locks[r] == db.locks[r]
  {
    hide HoldsLocks;
    BackedOwnerRow(db, a);
  }

  lemma EntryKeepsStranded(db: Db, after: Db, now: int, q: AdmissionRequest, r: Resource)
    requires AdmitsOwner(db, after, now, q, after.sequence) && Stranded(db, r) && LockRowAgrees(db, r) && !Wants(q, r)
    ensures Stranded(after, r) && after.locks[r] == db.locks[r]
  {
    hide PriorOwners;
  }

  lemma StrandedIsRefused(db: Db, reading: int, expected: Option<Environment>, q: AdmissionRequest,
                          recovered: set<Text>, id: Text, r: Resource)
    requires RowsAgree(db) && Stranded(db, r) && Wants(q, r) && q.attemptId !in db.attempts
    ensures Prepare(db, reading, expected, q, recovered, id).reply.Denied?
  {
    hide RetentionCapacity, PriorLeaseRefusal, MayReplace, AfterAdmission, AdmissionCapacity, LockRowAgrees;
    if q.key in db.leases { assert LeaseRowAgrees(db, q.key); }
    assert PriorLockRefusal(db, q.key, Now(db.clock, reading), r).Some?;
  }

  lemma EntryWantsNoStrandedRow(db: Db, op: Op, r: Resource)
    requires RowsAgree(db) && Stranded(db, r) && ChangeOf(db, op).Enter?
    ensures !Wants(ChangeOf(db, op).admission, r)
  {
    hide Stranded, Wants, RowsAgree, Prepare;
    EnteringIsAccepted(db, op);
    AcceptedFreshAdmission(db, op);
    if Wants(op.admission, r) {
      StrandedIsRefused(db, op.reading, op.expected, op.admission, op.recovered, op.newReservationId, r);
    }
  }

  lemma {:induction false} StrandedForEver(db: Db, ops: seq<Op>, r: Resource)
    requires OwnershipInv(db) && Stranded(db, r)
    ensures Stranded(AfterAll(db, ops), r) && AfterAll(db, ops).locks[r] == db.locks[r]
    decreases |ops|
  {
    hide Apply, ChangeOf, Makes, OwnershipAgrees, RowsAgree, Backed, Wants;
    if ops == [] {
    } else {
      EveryOperationMakesItsChange(db, ops[0]);
      if ChangeOf(db, ops[0]).Enter? { EntryWantsNoStrandedRow(db, ops[0], r); }
      StrandedKeepsItsRow(db, Apply(db, ops[0]), ChangeOf(db, ops[0]), r);
      EveryOperationKeepsOwnership(db, ops[0]);
      StrandedForEver(Apply(db, ops[0]), ops[1..], r);
    }
  }

  // A stranded account or project is never locked by anyone again.
  lemma StrandedResourceIsNeverGranted(db: Db, ops: seq<Op>, op: Op, r: Resource)
    requires OwnershipInv(db) && Stranded(db, r)
    requires op.Admit? && Wants(op.admission, r) && op.admission.attemptId !in AfterAll(db, ops).attempts
    ensures !Accepts(AfterAll(db, ops), op)
  {
    hide *;
    StrandedForEver(db, ops, r);
    var final := AfterAll(db, ops);
    RunKeepsRows(db, ops);
    StrandedIsRefused(final, op.reading, op.expected, op.admission, op.recovered, op.newReservationId, r);
    assert !Accepts(final, op) by { DeniedAdmission(final, op); }
  }

  lemma {:induction false} RunKeepsRows(db: Db, ops: seq<Op>)
    requires OwnershipInv(db)
    ensures RowsAgree(AfterAll(db, ops))
    decreases |ops|
  {
    hide Apply, OwnershipAgrees, RowsAgree;
    if ops == [] {
    } else {
      EveryOperationKeepsOwnership(db, ops[0]);
      RunKeepsRows(Apply(db, ops[0]), ops[1..]);
    }
  }

  // What strands a resource: an accepted admission of a new attempt that takes the lease row of the lock's owner under
  // its key, and not the lock.
  lemma ResourceIsStrandedExactlyWhen(db: Db, op: Op, r: Resource)
    requires OwnershipInv(db) && r in db.locks && Backed(db, r)
    ensures Stranded(Apply(db, op), r) <==>
            op.Admit? && Accepts(db, op) && op.admission.attemptId !in db.attempts && !Wants(op.admission, r) &&
            db.attempts[db.locks[r].attemptId].key == op.admission.key
  {
    hide Apply, ChangeOf, OwnershipAgrees, RowsAgree, Accepts, Makes, Backed, Wants, Stranded;
    EveryOperationMakesItsChange(db, op);
    EntersExactlyWhen(db, op);
    ChangeStrandsExactly(db, Apply(db, op), ChangeOf(db, op), r);
  }

  lemma ChangeStrandsExactly(db: Db, after: Db, change: Change, r: Resource)
    requires RowsAgree(db) && Makes(db, after, change) && r in db.locks && Backed(db, r)
    ensures Stranded(after, r) <==>
            change.Enter? && !Wants(change.admission, r) &&
            db.attempts[db.locks[r].attemptId].key == change.admission.key
  {
    hide LeaseRowAgrees, LockRowAgrees, RowsAgree, HoldsLocks, SameLedgers, PriorOwners, Vacant, Owns, Backed, Wants,
         RewritesOwnership, AdmitsOwner, ReleasesOwnership, MovesAttempt, LeavesOwnership, SettlesOnlyUnexpired;
    LockAgrees(db, r);
    match change
    case Leave => LeavingStrandsNothing(db, after, r);
    case MoveRow(a, row) => MovingStrandsNothing(db, after, a, row, r);
    case Rewrite(a, row, lease, _) => RewritingStrandsNothing(db, after, a, row, lease, r);
    case Enter(now, q) => EntryStrandsExactly(db, after, now, q, r);
    case Release(a, row) => ReleasingStrandsNothing(db, after, a, row, r);
  }

  lemma LeavingStrandsNothing(db: Db, after: Db, r: Resource)
    requires LeavesOwnership(db, after) && r in db.locks && Backed(db, r)
    ensures !Stranded(after, r)
  {
  }

  lemma MovingStrandsNothing(db: Db, after: Db, a: Text, row: Attempt, r: Resource)
    requires MovesAttempt(db, after, a, row) && r in db.locks && Backed(db, r)
    ensures !Stranded(after, r)
  {
  }

  lemma RewritingStrandsNothing(db: Db, after: Db, a: Text, row: Attempt, lease: Lease, r: Resource)
    requires RewritesOwnership(db, after, a, row, lease) && r in db.locks && LockRowAgrees(db, r) && Backed(db, r)
    ensures !Stranded(after, r)
  {
    hide HoldsLocks;
  }

  lemma ReleasingStrandsNothing(db: Db, after: Db, a: Text, row: Attempt, r: Resource)
    requires ReleasesOwnership(db, after, a, row) && r in db.locks && LockRowAgrees(db, r) && Backed(db, r)
    ensures !Stranded(after, r)
  {
    hide HoldsLocks;
  }

  lemma EntryStrandsExactly(db: Db, after: Db, now: int, q: AdmissionRequest, r: Resource)
    requires AdmitsOwner(db, after, now, q, after.sequence) && r in db.locks && LockRowAgrees(db, r) && Backed(db, r)
    ensures Stranded(after, r) <==> !Wants(q, r) && db.attempts[db.locks[r].attemptId].key == q.key
  {
    hide PriorOwners;
  }
}
