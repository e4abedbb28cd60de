// Runs from the empty store that reach what the other modules speak of.
module Witnesses {
  import opened Options
  import opened Records
  import opened Control
  import opened Runs
  import opened Ownership
  import opened Changes
  import opened RetentionLedger
  import opened Safety
  import opened Mirrors
  import opened Stalls
  import opened Grants

  const ATTEMPT: Text := Text(1)
  const RESERVATION: Text := Text(2)
  const INTENT: Text := Text(3)
  const OTHER: Text := Text(4) // a second attempt
  const OTHER_RESERVATION: Text := Text(5)
  const NAMED: Text := Text(6) // stands for whatever else a request names

  const ENVIRONMENT: Environment := Environment(Text(10), Text(11), Text(12), Text(13))
  const ELSEWHERE: Environment := Environment(Text(20), Text(21), Text(22), Text(23))
  const KEY: Key := Key(ENVIRONMENT.projectRef, Text(14), Text(15))
  const WORKFLOW: Workflow := Workflow(Run(Text(30), Text(31), Text(32), 1), Text(33))
  const TTL: int := 60
  const LATE: int := 1000 // long after the lease has expired

  function Request(attemptId: Text, key: Key, environment: Environment): AdmissionRequest {
    AdmissionRequest(attemptId, key, NAMED, WORKFLOW, environment, TTL, Usage(2, 1, 1, 1), Usage(1, 1, 0, 0))
  }

  const ADMIT: Op := Admit(0, None, Request(ATTEMPT, KEY, ENVIRONMENT), {}, RESERVATION)

  // The store after its first admission.
  ghost function Opened(): Db { Apply(EMPTY, ADMIT) }

  lemma FirstAdmission()
    ensures Opened() == AfterAdmission(EMPTY, 0, Request(ATTEMPT, KEY, ENVIRONMENT), RESERVATION)
  {
    hide Apply, Accepts, RetentionCapacity, PriorLockRefusal, AfterAdmission;
    var q := Request(ATTEMPT, KEY, ENVIRONMENT);
    UnusedScopeHasRoom(EMPTY, q);
    NoLockNoRefusal(EMPTY, KEY, 0, StripeAccount(ENVIRONMENT.accountId));
    NoLockNoRefusal(EMPTY, KEY, 0, SupabaseProject(ENVIRONMENT.projectRef));
    AdmissionIsGranted(EMPTY, 0, q, {}, RESERVATION);
  }

  function FirstLock(): Lock {
    Lock(ATTEMPT, 1, NAMED, WORKFLOW, ENVIRONMENT, TTL)
  }

  lemma FirstRows()
    ensures var db, q := Opened(), Request(ATTEMPT, KEY, ENVIRONMENT);
            db.clock == 0 && db.sequence == 1 && db.attempts == map[ATTEMPT := FreshRow(q, 0)] &&
            db.leases == map[KEY := FreshLease(q, 1, 0)] &&
            db.locks == map[StripeAccount(ENVIRONMENT.accountId) := FirstLock(),
                            SupabaseProject(ENVIRONMENT.projectRef) := FirstLock()] &&
            db.intents == map[] && db.receipts == map[] && db.settlements == map[] && db.cleanups == map[] &&
            db.usage == [] &&
            db.caseClaims == map[] && db.fixtures == map[]
    ensures var db := Opened();
            db.reservations.Keys == {RESERVATION} && db.reservations[RESERVATION].attemptId == ATTEMPT &&
            db.reservations[RESERVATION].scope == ScopeOf(ENVIRONMENT) &&
            db.reservations[RESERVATION].quotas == Usage(2, 1, 1, 1) &&
            db.reservations[RESERVATION].projection == Usage(1, 1, 0, 0)
  {
    hide AdmissionCapacity, Apply;
    FirstAdmission();
  }

  lemma OpenedIsSound()
    ensures AfterAll(EMPTY, [ADMIT]) == Opened() && Sound(Opened())
  {
    hide Sound, Apply, AfterAll;
    OneStep(EMPTY, ADMIT);
    ReachableIsSound([ADMIT]);
  }

  lemma FirstOwnerOwns(db: Db)
    requires db.attempts == Opened().attempts && db.leases == Opened().leases && db.locks == Opened().locks
    ensures Owns(db, ATTEMPT)
  {
    hide Opened;
    FirstRows();
  }

  // ---------- A lease that expires while a metered write is under way ----------

  const CHARGED: FixtureRequest := FixtureRequest(ATTEMPT, 1, RESERVATION, 1, NAMED, NAMED, NAMED, Catalog)

  lemma ClaimPassesTheStore()
    ensures FixtureGuard(Opened(), 0, CHARGED).None?
  {
    hide Opened;
    FirstRows();
    FirstOwnerOwns(Opened());
    CurrentOwnerOwns(Opened(), ATTEMPT, 1, 0);
  }

  // The store lets this write through; the database accepts it at once and refuses it late.
  lemma LateClaimIsRefused()
    ensures FixtureMutationWithReservation(AfterAll(EMPTY, [ADMIT]), 0, 0, CHARGED).reply.Granted?
    ensures FixtureMutationWithReservation(AfterAll(EMPTY, [ADMIT]), 0, LATE, CHARGED).reply ==
            Denied(FixtureCaseClaimInvalid)
  {
    hide Opened, AfterAll, FixtureGuard, Sound;
    FirstRows();
    OpenedIsSound();
    ClaimPassesTheStore();
    CaseClaimExpiryIsExact([ADMIT], 0, 0, CHARGED);
    CaseClaimExpiryIsExact([ADMIT], 0, LATE, CHARGED);
    assert RowsUsed([], RESERVATION) == 0;
  }

  // ---------- A lease that expires while a cleanup is being verified ----------

  const CANCEL: Op := Move(0, ATTEMPT, 1, Collecting, Cancelled, None, None)

  lemma CancelledRows(db: Db)
    requires db.clock == 0 && db.attempts == Opened().attempts && db.leases == Opened().leases &&
             db.locks == Opened().locks
    ensures Apply(db, CANCEL) ==
            db.(attempts := map[ATTEMPT := FreshRow(Request(ATTEMPT, KEY, ENVIRONMENT), 0).(phase := Cancelled)])
  {
    hide Opened, OwnerRefusal, HoldsLocks;
    FirstRows();
    FirstOwnerOwns(db);
    CurrentOwnerOwns(db, ATTEMPT, 1, 0);
    assert Transition(db, 0, ATTEMPT, 1, Collecting, Cancelled, None, None).reply.Granted?;
  }

  lemma TwoSteps(db: Db, first: Op, second: Op)
    ensures AfterAll(db, [first, second]) == Apply(Apply(db, first), second)
  {
    hide Apply;
    assert [first, second] == [first] + [second];
    RunAppend(db, [first], [second]);
    OneStep(db, first);
    OneStep(Apply(db, first), second);
  }

  lemma CleanupPassesTheStore(db: Db)
    requires db == Apply(Opened(), CANCEL)
    ensures CleanupGuard(db, 0, ATTEMPT, 1, true).None? && db.leases == Opened().leases && db.clock == 0
    ensures ATTEMPT in db.attempts && db.attempts[ATTEMPT].key == KEY && ReservationsOf(db.reservations, ATTEMPT) != {}
  {
    hide Opened, OwnerRefusal, Apply, HoldsLocks;
    FirstRows();
    CancelledRows(Opened());
    FirstOwnerStillOwns(db, Cancelled);
    CurrentOwnerOwns(db, ATTEMPT, 1, 0);
    assert RESERVATION in ReservationsOf(db.reservations, ATTEMPT);
  }

  lemma FirstOwnerStillOwns(db: Db, phase: Phase)
    requires db.attempts == map[ATTEMPT := FreshRow(Request(ATTEMPT, KEY, ENVIRONMENT), 0).(phase := phase)]
    requires db.leases == Opened().leases && db.locks == Opened().locks
    ensures Owns(db, ATTEMPT)
  {
    hide Opened;
    FirstRows();
  }

  lemma CleanupRuleCodes(db: Db, insertedAt: int, a: Text, receipt: CleanupReceipt)
    ensures CleanupRule(db, insertedAt, a, receipt) in {None, Some(ConstraintViolation),
                                                        Some(CleanupReceiptFenceMismatch)}
  {
  }

  // The store lets this cleanup through; the database accepts its receipt at once and refuses it late.
  lemma LateCleanupIsRefused()
    ensures var db := AfterAll(EMPTY, [ADMIT, CANCEL]);
            Cleanup(db, 0, 0, 0, ATTEMPT, 1, NAMED, true).reply.Granted? &&
            Cleanup(db, 0, LATE, LATE, ATTEMPT, 1, NAMED, true).reply == Denied(CleanupReceiptFenceMismatch)
  {
    hide Opened, AfterAll, Apply, CleanupGuard, CleanupRule, Sound, CleanupReceiptOf;
    FirstRows();
    TwoSteps(EMPTY, ADMIT, CANCEL);
    var db := AfterAll(EMPTY, [ADMIT, CANCEL]);
    assert Apply(EMPTY, ADMIT) == Opened() by { OpenedIsSound(); OneStep(EMPTY, ADMIT); }
    CleanupPassesTheStore(db);
    ReachableIsSound([ADMIT, CANCEL]);
    CleanupMeetsConstraints(db, 0, 0, 0, ATTEMPT, 1, NAMED, true);
    CleanupMeetsConstraints(db, 0, LATE, LATE, ATTEMPT, 1, NAMED, true);
    CleanupRuleCodes(db, 0, ATTEMPT, CleanupReceiptOf(db, 0, ATTEMPT, 1, NAMED));
  }

  // ---------- Dead ends are reached ----------

  const BEGIN: Op :=
    Begin(0, IntentRequest(ATTEMPT, 1, NAMED, WORKFLOW, ENVIRONMENT, ReplayCheckout, NAMED, NAMED, NAMED), INTENT)
  const SETTLE_LATE: Op := Settle(LATE, RESERVATION, CancelledRun, Usage(1, 0, 0, 0), true)
  const ADMIT_ELSEWHERE: Op :=
    Admit(LATE, None, Request(OTHER, Key(ELSEWHERE.projectRef, Text(14), Text(15)), ELSEWHERE), {}, OTHER_RESERVATION)

  function FirstIntent(): Intent {
    Intent(ATTEMPT, 1, ENVIRONMENT.accountId, NAMED, WORKFLOW, ENVIRONMENT, ReplayCheckout, NAMED, NAMED, NAMED, 0)
  }

  lemma Begun()
    ensures Apply(Opened(), BEGIN) == Opened().(intents := map[INTENT := FirstIntent()])
  {
    hide Opened, OwnerRefusal, HoldsLocks;
    FirstRows();
    FirstOwnerOwns(Opened());
    CurrentOwnerOwns(Opened(), ATTEMPT, 1, 0);
    assert BeginStripeIntent(Opened(), 0, BEGIN.intent, INTENT).reply.Granted?;
  }

  lemma OpenedTwoSteps(second: Op)
    ensures AfterAll(EMPTY, [ADMIT, second]) == Apply(Opened(), second) && Sound(Apply(Opened(), second))
  {
    hide Opened, Apply, AfterAll, Sound;
    TwoSteps(EMPTY, ADMIT, second);
    OpenedIsSound();
    OneStep(EMPTY, ADMIT);
    ReachableIsSound([ADMIT, second]);
  }

  lemma FirstIntentIsInFlight(db: Db)
    requires db.intents == map[INTENT := FirstIntent()] && db.receipts == map[]
    ensures HasInFlight(db.intents, db.receipts, ATTEMPT)
  {
    assert INTENT in db.intents;
  }

  lemma AdmittedElsewhere(db: Db)
    requires db == Opened().(intents := map[INTENT := FirstIntent()])
    ensures Apply(db, ADMIT_ELSEWHERE) == AfterAdmission(db, LATE, ADMIT_ELSEWHERE.admission, OTHER_RESERVATION)
  {
    hide Opened, Apply, Accepts, RetentionCapacity, PriorLockRefusal, AfterAdmission;
    FirstRows();
    var q := ADMIT_ELSEWHERE.admission;
    UnusedScopeHasRoom(db, q);
    NoLockNoRefusal(db, q.key, LATE, StripeAccount(ELSEWHERE.accountId));
    NoLockNoRefusal(db, q.key, LATE, SupabaseProject(ELSEWHERE.projectRef));
    assert PriorOwners(db, q.key, q.environment) == {};
    AdmissionIsGranted(db, LATE, q, {}, OTHER_RESERVATION);
  }

  ghost predicate FirstRowsLapse(db: Db, after: Db) {
    after.clock == LATE && after.intents == db.intents && after.receipts == db.receipts &&
    ATTEMPT in db.attempts && ATTEMPT in after.attempts && after.attempts[ATTEMPT] == db.attempts[ATTEMPT] &&
    KEY in db.leases && KEY in after.leases && after.leases[KEY] == db.leases[KEY] &&
    forall r :: r in db.locks ==> r in after.locks && after.locks[r] == db.locks[r]
  }

  lemma AdmissionOfNobodysRows(db: Db, now: int, q: AdmissionRequest, id: Text)
    requires PriorOwners(db, q.key, q.environment) == {}
    ensures var after := AfterAdmission(db, now, q, id);
            after.clock == now && after.intents == db.intents && after.receipts == db.receipts &&
            after.attempts == db.attempts[q.attemptId := FreshRow(q, now)] &&
            after.leases.Keys == db.leases.Keys + {q.key} &&
            (forall k :: k in db.leases && k != q.key ==> after.leases[k] == db.leases[k]) &&
            var account, project := StripeAccount(q.environment.accountId), SupabaseProject(q.environment.projectRef);
            forall r :: r in db.locks && r != account && r != project ==>
              r in after.locks && after.locks[r] == db.locks[r]
  {
    hide AdmissionCapacity, FreshLease, PriorOwners;
    assert Retired(db.attempts, {}, now) == db.attempts;
  }

  lemma AdmissionElsewhereSparesIt(db: Db)
    requires db == Opened().(intents := map[INTENT := FirstIntent()])
    ensures FirstRowsLapse(db, AfterAdmission(db, LATE, ADMIT_ELSEWHERE.admission, OTHER_RESERVATION))
  {
    hide Opened, AfterAdmission;
    FirstRows();
    assert PriorOwners(db, ADMIT_ELSEWHERE.admission.key, ELSEWHERE) == {};
    AdmissionOfNobodysRows(db, LATE, ADMIT_ELSEWHERE.admission, OTHER_RESERVATION);
  }

  // A collecting attempt begins an intent and lets its lease expire: it can never be moved again.
  lemma CollectingAttemptGetsWedged(more: seq<Op>)
    ensures var db := AfterAll(EMPTY, [ADMIT, BEGIN, ADMIT_ELSEWHERE]);
            Wedged(db, ATTEMPT) && db.attempts[ATTEMPT].phase == Collecting &&
            SameRowsOf(db, AfterAll(db, more), ATTEMPT)
  {
    hide Opened, Apply, AfterAll, Sound, AfterAdmission;
    var begun := Apply(Opened(), BEGIN);
    Begun();
    OpenedTwoSteps(BEGIN);
    FirstRows();
    AdmittedElsewhere(begun);
    AdmissionElsewhereSparesIt(begun);
    assert [ADMIT, BEGIN, ADMIT_ELSEWHERE] == [ADMIT, BEGIN] + [ADMIT_ELSEWHERE];
    RunAppend(EMPTY, [ADMIT, BEGIN], [ADMIT_ELSEWHERE]);
    OneStep(begun, ADMIT_ELSEWHERE);
    var db := AfterAll(EMPTY, [ADMIT, BEGIN, ADMIT_ELSEWHERE]);
    FirstIntentIsInFlight(db);
    assert Owns(db, ATTEMPT);
    ReachableIsSound([ADMIT, BEGIN, ADMIT_ELSEWHERE]);
    SoundHasOwnership(db);
    StuckForEver(db, more, ATTEMPT);
  }

  lemma SettledLate(db: Db)
    requires Sound(db) && db.clock == 0 && db.leases == Opened().leases && db.locks == Opened().locks
    requires db.reservations == Opened().reservations && db.settlements == map[]
    requires ATTEMPT in db.attempts && db.attempts[ATTEMPT].key == KEY &&
             db.attempts[ATTEMPT].environment == ENVIRONMENT
    ensures var after := Apply(db, SETTLE_LATE);
            after == db.(clock := LATE, settlements := after.settlements) && RESERVATION in after.settlements
  {
    hide Opened, Sound, SettlementAllowed;
    FirstRows();
    SettlementMeetsConstraints(db, LATE, RESERVATION, CancelledRun, Usage(1, 0, 0, 0), true);
  }

  lemma CancelledAfterBegin()
    ensures var db := Apply(Apply(Opened(), BEGIN), CANCEL);
            db == Opened().(intents := map[INTENT := FirstIntent()], attempts := db.attempts) &&
            db.attempts == map[ATTEMPT := FreshRow(Request(ATTEMPT, KEY, ENVIRONMENT), 0).(phase := Cancelled)]
  {
    hide Opened, Apply;
    FirstRows();
    Begun();
    CancelledRows(Apply(Opened(), BEGIN));
  }

  // A cancelled attempt with an intent in flight is settled and lets its lease expire: it can never be moved again.
  lemma SettledAttemptGetsWedged(more: seq<Op>)
    ensures var db := AfterAll(EMPTY, [ADMIT, BEGIN, CANCEL, SETTLE_LATE]);
            Wedged(db, ATTEMPT) && db.attempts[ATTEMPT].phase == Cancelled &&
            SameRowsOf(db, AfterAll(db, more), ATTEMPT)
  {
    hide Opened, Apply, AfterAll, Sound;
    var begun := Apply(Opened(), BEGIN);
    var cancelled := Apply(begun, CANCEL);
    OpenedTwoSteps(BEGIN);
    CancelledAfterBegin();
    assert [ADMIT, BEGIN, CANCEL, SETTLE_LATE] == [ADMIT, BEGIN] + [CANCEL, SETTLE_LATE];
    RunAppend(EMPTY, [ADMIT, BEGIN], [CANCEL, SETTLE_LATE]);
    TwoSteps(begun, CANCEL, SETTLE_LATE);
    OperationKeepsSound(begun, CANCEL);
    FirstRows();
    SettledLate(cancelled);
    var db := AfterAll(EMPTY, [ADMIT, BEGIN, CANCEL, SETTLE_LATE]);
    FirstIntentIsInFlight(db);
    FirstOwnerStillOwns(db, Cancelled);
    assert RESERVATION in ReservationsOf(db.reservations, ATTEMPT);
    ReachableIsSound([ADMIT, BEGIN, CANCEL, SETTLE_LATE]);
    SoundHasOwnership(db);
    StuckForEver(db, more, ATTEMPT);
  }

  const SETTLE: Op := Settle(0, RESERVATION, CancelledRun, Usage(1, 0, 0, 0), true)
  const SIBLING_KEY: Key := Key(ENVIRONMENT.projectRef, Text(16), Text(15))
  const ADMIT_SIBLING: Op := Admit(LATE, None, Request(OTHER, SIBLING_KEY, ENVIRONMENT), {ATTEMPT}, OTHER_RESERVATION)

  function FirstSettlement(): Settlement {
    Settlement(ATTEMPT, 1, ScopeOf(ENVIRONMENT), CancelledRun, Usage(1, 0, 0, 0), 0)
  }

  lemma SettledAtOnce()
    ensures Apply(Opened(), SETTLE) == Opened().(settlements := map[RESERVATION := FirstSettlement()])
  {
    hide Opened, Sound, ReconcileReservation;
    FirstRows();
    OpenedIsSound();
    FirstOwnerOwns(Opened());
    assert RESERVATION in ReservationsOf(Opened().reservations, ATTEMPT);
    OwnerSettles(Opened(), ATTEMPT, RESERVATION);
  }

  lemma SettledScope(db: Db)
    requires db.reservations == Opened().reservations && db.settlements == map[RESERVATION := FirstSettlement()]
    ensures Total(Retained(db.settlements, ScopeOf(ENVIRONMENT))) == Usage(1, 0, 0, 0)
    ensures Total(Outstanding(db.reservations, db.settlements, ScopeOf(ENVIRONMENT))) == NO_USAGE
    ensures Policies(db.reservations, ScopeOf(ENVIRONMENT)) <= {Usage(2, 1, 1, 1)}
  {
    hide Opened;
    FirstRows();
    assert Retained(db.settlements, ScopeOf(ENVIRONMENT)) == map[RESERVATION := Usage(1, 0, 0, 0)];
    assert Outstanding(db.reservations, db.settlements, ScopeOf(ENVIRONMENT)) == map[];
    assert Total(map[]) == NO_USAGE;
    TotalWith(map[], RESERVATION, Usage(1, 0, 0, 0));
  }

  lemma SiblingHasRoom(policies: set<Usage>)
    requires policies <= {Usage(2, 1, 1, 1)}
    ensures RetentionCapacity(Usage(1, 0, 0, 0), NO_USAGE, policies, Usage(2, 1, 1, 1), Usage(1, 1, 0, 0)).Granted?
  {
    CapacityIsExact(Usage(1, 0, 0, 0), NO_USAGE, policies, Usage(2, 1, 1, 1), Usage(1, 1, 0, 0));
    hide RetentionCapacity;
  }

  lemma SiblingMayTakeLocks(db: Db)
    requires db == Opened().(settlements := map[RESERVATION := FirstSettlement()])
    ensures PriorLockRefusal(db, SIBLING_KEY, LATE, StripeAccount(ENVIRONMENT.accountId)).None?
    ensures PriorLockRefusal(db, SIBLING_KEY, LATE, SupabaseProject(ENVIRONMENT.projectRef)).None?
    ensures PriorOwners(db, SIBLING_KEY, ENVIRONMENT) == {ATTEMPT} && MayReplace(db, ATTEMPT, {ATTEMPT})
  {
    hide Opened;
    FirstRows();
    assert RESERVATION in ReservationsOf(db.reservations, ATTEMPT);
  }

  lemma AdmittedSibling(db: Db)
    requires db == Opened().(settlements := map[RESERVATION := FirstSettlement()])
    ensures Apply(db, ADMIT_SIBLING) == AfterAdmission(db, LATE, ADMIT_SIBLING.admission, OTHER_RESERVATION)
  {
    hide Opened, Apply, Accepts, RetentionCapacity, PriorLockRefusal, PriorOwners, AfterAdmission, Total, Retained,
         Outstanding, Policies, MayReplace;
    FirstRows();
    SettledScope(db);
    SiblingHasRoom(Policies(db.reservations, ScopeOf(ENVIRONMENT)));
    SiblingMayTakeLocks(db);
    AdmissionIsGranted(db, LATE, ADMIT_SIBLING.admission, {ATTEMPT}, OTHER_RESERVATION);
  }

  lemma SiblingOrphans(db: Db)
    requires db == Opened().(settlements := map[RESERVATION := FirstSettlement()])
    ensures Orphaned(AfterAdmission(db, LATE, ADMIT_SIBLING.admission, OTHER_RESERVATION), KEY)
  {
    hide Opened, AdmissionCapacity, PriorOwners;
    FirstRows();
  }

  // A settled attempt lets its lease expire and another key of its environment takes both its locks: its own key is
  // then never leased again.
  lemma KeyGetsOrphaned(more: seq<Op>, op: Op)
    requires var db := AfterAll(EMPTY, [ADMIT, SETTLE, ADMIT_SIBLING]);
             op.Admit? && op.admission.key == KEY && op.admission.attemptId !in AfterAll(db, more).attempts
    ensures var db := AfterAll(EMPTY, [ADMIT, SETTLE, ADMIT_SIBLING]);
            Orphaned(db, KEY) && !Accepts(AfterAll(db, more), op)
  {
    hide Opened, Apply, AfterAll, Sound, AfterAdmission, Accepts;
    var settled := Apply(Opened(), SETTLE);
    SettledAtOnce();
    OpenedTwoSteps(SETTLE);
    AdmittedSibling(settled);
    SiblingOrphans(settled);
    assert [ADMIT, SETTLE, ADMIT_SIBLING] == [ADMIT, SETTLE] + [ADMIT_SIBLING];
    RunAppend(EMPTY, [ADMIT, SETTLE], [ADMIT_SIBLING]);
    OneStep(settled, ADMIT_SIBLING);
    var db := AfterAll(EMPTY, [ADMIT, SETTLE, ADMIT_SIBLING]);
    ReachableIsSound([ADMIT, SETTLE, ADMIT_SIBLING]);
    SoundHasOwnership(db);
    OrphanedKeyIsNeverGranted(db, more, op, KEY);
  }

  // ---------- A takeover needs its recovery ----------

  const ADMIT_UNRECOVERED: Op :=
    Admit(LATE, None, Request(OTHER, SIBLING_KEY, ENVIRONMENT), {}, OTHER_RESERVATION)

  // The store after the attempt was settled.
  lemma SettledStore()
    ensures var db := AfterAll(EMPTY, [ADMIT, SETTLE]);
            db == Opened().(settlements := map[RESERVATION := FirstSettlement()]) && Reachable(db)
  {
    hide Opened, Apply, AfterAll, Sound;
    OpenedTwoSteps(SETTLE);
    SettledAtOnce();
    assert Reachable(AfterAll(EMPTY, [ADMIT, SETTLE]));
  }

  lemma SiblingReply(db: Db, recovered: set<Text>)
    requires db == Opened().(settlements := map[RESERVATION := FirstSettlement()]) && ATTEMPT !in recovered
    ensures Prepare(db, LATE, None, Request(OTHER, SIBLING_KEY, ENVIRONMENT), recovered, OTHER_RESERVATION).reply ==
            Denied(RecoveryUnverified)
  {
    hide Opened, RetentionCapacity, PriorLockRefusal, PriorOwners, AfterAdmission, Total, Retained, Outstanding,
         Policies, HasInFlight, Settled;
    FirstRows();
    SettledScope(db);
    SiblingHasRoom(Policies(db.reservations, ScopeOf(ENVIRONMENT)));
    SiblingMayTakeLocks(db);
    assert ATTEMPT in PriorOwners(db, SIBLING_KEY, ENVIRONMENT) && !MayReplace(db, ATTEMPT, recovered);
  }

  // The same takeover is granted when the verifier confirmed the prior owner, and refused when it confirmed nobody.
  lemma TakeoverWithoutRecoveryIsRefused()
    ensures var db := AfterAll(EMPTY, [ADMIT, SETTLE]);
            Accepts(db, ADMIT_SIBLING) && !Accepts(db, ADMIT_UNRECOVERED) &&
            Prepare(db, LATE, None, ADMIT_UNRECOVERED.admission, {}, OTHER_RESERVATION).reply ==
            Denied(RecoveryUnverified)
  {
    hide Opened, Apply, AfterAll, RetentionCapacity, PriorLockRefusal, PriorOwners, AfterAdmission, Total, Retained,
         Outstanding, Policies, MayReplace, Prepare;
    var db := AfterAll(EMPTY, [ADMIT, SETTLE]);
    SettledStore();
    FirstRows();
    SettledScope(db);
    SiblingHasRoom(Policies(db.reservations, ScopeOf(ENVIRONMENT)));
    SiblingMayTakeLocks(db);
    AdmissionIsGranted(db, LATE, ADMIT_SIBLING.admission, {ATTEMPT}, OTHER_RESERVATION);
    SiblingReply(db, {});
  }

  // ---------- A resource is stranded ----------

  // The same project, with another account.
  const NEIGHBOUR: Environment := ENVIRONMENT.(accountId := Text(17))
  const ADMIT_NEIGHBOUR: Op := Admit(LATE, None, Request(OTHER, KEY, NEIGHBOUR), {ATTEMPT}, OTHER_RESERVATION)

  predicate SettledRows(db: Db) {
    db.attempts == map[ATTEMPT := FreshRow(Request(ATTEMPT, KEY, ENVIRONMENT), 0)] &&
    db.leases == map[KEY := FreshLease(Request(ATTEMPT, KEY, ENVIRONMENT), 1, 0)] &&
    db.locks == map[StripeAccount(ENVIRONMENT.accountId) := FirstLock(),
                    SupabaseProject(ENVIRONMENT.projectRef) := FirstLock()] &&
    db.intents == map[] && RESERVATION in db.settlements && db.reservations.Keys == {RESERVATION} &&
    db.reservations[RESERVATION].attemptId == ATTEMPT
  }

  lemma NeighbourMayEnter(db: Db)
    requires SettledRows(db)
    ensures KeyFree(db, LATE, ADMIT_NEIGHBOUR.admission)
    ensures LockFree(db, LATE, StripeAccount(NEIGHBOUR.accountId))
    ensures LockFree(db, LATE, SupabaseProject(NEIGHBOUR.projectRef))
    ensures StripeAccount(ENVIRONMENT.accountId) in db.locks && Backed(db, StripeAccount(ENVIRONMENT.accountId))
  {
  }

  lemma NeighbourMayReplace(db: Db)
    requires SettledRows(db)
    ensures forall a :: Named(db, ADMIT_NEIGHBOUR.admission, a) ==> Replaceable(db, a, {ATTEMPT})
  {
    assert SettledUp(db, ATTEMPT) by { assert RESERVATION in db.settlements; }
  }

  lemma NothingIsCharged(db: Db, scope: Scope)
    requires forall r :: r in db.reservations ==> db.reservations[r].scope != scope
    requires forall r :: r in db.settlements ==> db.settlements[r].scope != scope
    ensures Charged(db, scope) == NO_USAGE
  {
    hide Total, Retained, Outstanding, Policies, Usage.Plus;
    UnusedScopeIsEmpty(db, scope);
    NothingPlus(NO_USAGE);
  }

  lemma EmptyScopeHasRoom(db: Db, q: AdmissionRequest)
    requires forall r :: r in db.reservations ==> db.reservations[r].scope != ScopeOf(q.environment)
    requires forall r :: r in db.settlements ==> db.settlements[r].scope != ScopeOf(q.environment)
    requires q.projection.Within(q.quotas)
    ensures RoomFor(db, q)
  {
    hide *;
    NothingIsCharged(db, ScopeOf(q.environment));
    RoomIsWithin(db, q);
    NothingPlus(q.projection);
  }

  lemma NothingPlus(u: Usage)
    ensures NO_USAGE.Plus(u) == u
  {
  }

  lemma NeighbourHasRoom(db: Db)
    requires db.reservations.Keys == {RESERVATION} && db.reservations[RESERVATION].scope == ScopeOf(ENVIRONMENT)
    requires db.settlements == map[RESERVATION := FirstSettlement()]
    ensures RoomFor(db, ADMIT_NEIGHBOUR.admission)
  {
    hide RoomFor;
    EmptyScopeHasRoom(db, ADMIT_NEIGHBOUR.admission);
  }

  // A settled attempt lets its lease expire and another attempt takes its key and its project with another account: the
  // account it leaves behind is then never locked again.
  lemma AccountGetsStranded(more: seq<Op>, op: Op)
    requires var db := AfterAll(EMPTY, [ADMIT, SETTLE, ADMIT_NEIGHBOUR]);
             op.Admit? && op.admission.environment.accountId == ENVIRONMENT.accountId &&
             op.admission.attemptId !in AfterAll(db, more).attempts
    ensures var db := AfterAll(EMPTY, [ADMIT, SETTLE, ADMIT_NEIGHBOUR]);
            Stranded(db, StripeAccount(ENVIRONMENT.accountId)) && !Accepts(AfterAll(db, more), op)
  {
    hide Opened, Apply, AfterAll, Sound, Accepts, RoomFor, KeyFree, LockFree, Replaceable, Named, Backed, Stranded;
    var settled := AfterAll(EMPTY, [ADMIT, SETTLE]);
    SettledStore();
    FirstRows();
    assert SettledRows(settled);
    NeighbourMayEnter(settled);
    NeighbourMayReplace(settled);
    NeighbourHasRoom(settled);
    assert settled.clock == 0 && settled.sequence == 1;
    AdmissionIsGrantedExactlyWhen(settled, LATE, None, ADMIT_NEIGHBOUR.admission, {ATTEMPT}, OTHER_RESERVATION);
    assert [ADMIT, SETTLE, ADMIT_NEIGHBOUR] == [ADMIT, SETTLE] + [ADMIT_NEIGHBOUR];
    RunAppend(EMPTY, [ADMIT, SETTLE], [ADMIT_NEIGHBOUR]);
    OneStep(settled, ADMIT_NEIGHBOUR);
    var db := AfterAll(EMPTY, [ADMIT, SETTLE, ADMIT_NEIGHBOUR]);
    ReachableIsSound([ADMIT, SETTLE]);
    SoundHasOwnership(settled);
    var account := StripeAccount(ENVIRONMENT.accountId);
    ResourceIsStrandedExactlyWhen(settled, ADMIT_NEIGHBOUR, account);
    ReachableIsSound([ADMIT, SETTLE, ADMIT_NEIGHBOUR]);
    SoundHasOwnership(db);
    StrandedResourceIsNeverGranted(db, more, op, account);
  }
}
