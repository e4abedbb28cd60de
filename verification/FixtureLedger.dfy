// Metered fixture writes: what is charged, and what may be claimed only once.
module FixtureLedger {
  import opened Options
  import opened Records
  import opened Control
  import opened Runs
  import opened Ownership
  import opened Changes
  import opened History
  import opened RetentionLedger

  // Each event continues its reservation's chain and stays within the projected rows.
  predicate EventContinues(reservations: map<Text, Reservation>, earlier: seq<UsageEvent>, e: UsageEvent) {
    e.reservationId in reservations && reservations[e.reservationId].attemptId == e.attemptId &&
    e.previousRows == RowsUsed(earlier, e.reservationId) && e.previousRows < e.currentRows &&
    e.currentRows <= reservations[e.reservationId].projection.databaseRows
  }

  predicate ChainsContinue(reservations: map<Text, Reservation>, usage: seq<UsageEvent>) {
    usage == [] ||
    (ChainsContinue(reservations, usage[..|usage| - 1]) &&
     EventContinues(reservations, usage[..|usage| - 1], usage[|usage| - 1]))
  }

  // A claimed fixture belongs to a claimed case, and no two claims name one fixture.
  predicate ClaimsAgree(caseClaims: map<CaseKey, CaseClaim>, fixtures: map<FixtureSlot, Text>) {
    (forall s :: s in fixtures ==> CaseKey(s.attemptId, s.caseId) in caseClaims) &&
    (forall s, t :: s in fixtures && t in fixtures && fixtures[s] == fixtures[t] ==> s == t)
  }

  ghost predicate FixtureInv(db: Db) {
    ChainsContinue(db.reservations, db.usage) && ClaimsAgree(db.caseClaims, db.fixtures) && |db.usage| == |db.fixtures|
  }

  lemma {:induction false} RowsUsedIsWithinProjection(reservations: map<Text, Reservation>, usage: seq<UsageEvent>,
                                                      r: Text)
    requires ChainsContinue(reservations, usage)
    ensures RowsUsed(usage, r) >= 0
    ensures RowsUsed(usage, r) > 0 ==>
              r in reservations && RowsUsed(usage, r) <= reservations[r].projection.databaseRows
  {
    if usage == [] {
    } else {
      var earlier, last := usage[..|usage| - 1], usage[|usage| - 1];
      RowsUsedIsWithinProjection(reservations, earlier, r);
      RowsUsedIsWithinProjection(reservations, earlier, last.reservationId);
    }
  }

  // The events of one reservation climb: an earlier one ends no later than a later one begins.
  lemma {:induction false} ChainClimbs(reservations: map<Text, Reservation>, usage: seq<UsageEvent>, i: nat, j: nat)
    requires ChainsContinue(reservations, usage) && i < j < |usage| && usage[i].reservationId == usage[j].reservationId
    ensures usage[i].currentRows <= usage[j].previousRows < usage[j].currentRows
  {
    var earlier := usage[..|usage| - 1];
    if j < |usage| - 1 {
      ChainClimbs(reservations, earlier, i, j);
    } else {
      LastEventIsTheMaximum(reservations, earlier, i);
    }
  }

  lemma {:induction false} LastEventIsTheMaximum(reservations: map<Text, Reservation>, usage: seq<UsageEvent>, i: nat)
    requires ChainsContinue(reservations, usage) && i < |usage|
    ensures usage[i].currentRows <= RowsUsed(usage, usage[i].reservationId)
  {
    var earlier := usage[..|usage| - 1];
    if i == |usage| - 1 {
    } else {
      LastEventIsTheMaximum(reservations, earlier, i);
    }
  }

  // ---------- One charge ----------

  lemma RowsUsedAfterEvent(usage: seq<UsageEvent>, e: UsageEvent, r: Text)
    ensures RowsUsed(usage + [e], r) == if e.reservationId == r then e.currentRows else RowsUsed(usage, r)
  {
    AppendDropsBack(usage, e);
  }

  lemma ChainsAfterEvent(reservations: map<Text, Reservation>, usage: seq<UsageEvent>, e: UsageEvent)
    requires ChainsContinue(reservations, usage) && EventContinues(reservations, usage, e)
    ensures ChainsContinue(reservations, usage + [e])
  {
    AppendDropsBack(usage, e);
  }

  lemma GrantedChargeContinues(db: Db, reading: int, insert: int, q: FixtureRequest)
    requires FixtureMutationWithReservation(db, reading, insert, q).reply.Granted?
    ensures var e :=
              UsageEvent(q.reservationId, q.attemptId, RowsUsed(db.usage, q.reservationId),
                         RowsUsed(db.usage, q.reservationId) + q.rows);
            EventContinues(db.reservations, db.usage, e) &&
            FixtureMutationWithReservation(db, reading, insert, q).db.usage == db.usage + [e]
    ensures FixtureSlot(q.attemptId, q.caseId, q.kind) !in db.fixtures
    ensures forall s :: s in db.fixtures ==> db.fixtures[s] != q.fixtureId
  {
    hide OwnerRefusal;
  }

  lemma GrantedChargeClaims(db: Db, reading: int, insert: int, q: FixtureRequest)
    requires FixtureMutationWithReservation(db, reading, insert, q).reply.Granted?
    ensures var after := FixtureMutationWithReservation(db, reading, insert, q).db;
            after.fixtures == db.fixtures[FixtureSlot(q.attemptId, q.caseId, q.kind) := q.fixtureId] &&
            CaseKey(q.attemptId, q.caseId) in after.caseClaims && db.caseClaims.Keys <= after.caseClaims.Keys
  {
    hide FixtureRefusal, RowsUsed;
  }

  lemma DeniedChargeChangesNothing(db: Db, reading: int, insert: int, q: FixtureRequest)
    requires FixtureMutationWithReservation(db, reading, insert, q).reply.Denied?
    ensures FixtureMutationWithReservation(db, reading, insert, q).db == db
  {
    hide FixtureRefusal, RowsUsed;
  }

  lemma ChargeKeepsFixtures(db: Db, reading: int, insert: int, q: FixtureRequest)
    requires FixtureInv(db)
    ensures FixtureInv(FixtureMutationWithReservation(db, reading, insert, q).db)
  {
    hide FixtureMutationWithReservation, ChainsContinue, RowsUsed, EventContinues;
    var out := FixtureMutationWithReservation(db, reading, insert, q);
    if out.reply.Denied? {
      DeniedChargeChangesNothing(db, reading, insert, q);
    } else {
      GrantedChargeContinues(db, reading, insert, q);
      GrantedChargeClaims(db, reading, insert, q);
      ChargeTouchesFixtures(db, reading, insert, q);
      ChainsAfterEvent(db.reservations, db.usage, out.db.usage[|db.usage|]);
    }
  }

  // ---------- Every operation ----------

  lemma {:induction false} ChainsSurviveNewReservation(reservations: map<Text, Reservation>, usage: seq<UsageEvent>,
                                                       id: Text, r: Reservation)
    requires ChainsContinue(reservations, usage) && id !in reservations
    ensures ChainsContinue(reservations[id := r], usage)
  {
    if usage == [] {
    } else {
      ChainsSurviveNewReservation(reservations, usage[..|usage| - 1], id, r);
    }
  }

  lemma FreshAdmissionKeepsFixtures(db: Db, reading: int, expected: Option<Environment>, q: AdmissionRequest,
                                    recovered: set<Text>, id: Text)
    requires RowsAgree(db) && FixtureInv(db) && q.attemptId !in db.attempts
    requires Prepare(db, reading, expected, q, recovered, id).reply.Granted?
    ensures FixtureInv(Prepare(db, reading, expected, q, recovered, id).db)
  {
    hide Prepare, ChainsContinue, ClaimsAgree, RowsAgree, AdmissionCapacity, Owns, HoldsLocks, RetentionCapacity,
         Vacant, PriorOwners;
    PrepareEnters(db, reading, expected, q, recovered, id);
    FreshAdmissionAddsReservation(db, reading, expected, q, recovered, id);
    var after := Prepare(db, reading, expected, q, recovered, id).db;
    ChainsSurviveNewReservation(db.reservations, db.usage, id, after.reservations[id]);
  }

  lemma OperationKeepsFixtures(db: Db, op: Op)
    requires RowsAgree(db) && FixtureInv(db)
    ensures FixtureInv(Apply(db, op))
  {
    hide RowsAgree, Accepts, Prepare, ReconcileReservation, FixtureMutationWithReservation, ChainsContinue, ClaimsAgree;
    if op.Charge? {
      ChargeKeepsFixtures(db, op.reading, op.insertReading, op.fixture);
    } else if op.Admit? && Accepts(db, op) && op.admission.attemptId !in db.attempts {
      AcceptedFreshAdmission(db, op);
      FreshAdmissionKeepsFixtures(db, op.reading, op.expected, op.admission, op.recovered, op.newReservationId);
    } else if op.Settle? {
      SettlementTouchesItsTable(db, op.reading, op.reservationId, op.outcome, op.retained, op.verified);
    } else {
      hide Apply;
      OthersLeaveLedgers(db, op);
    }
  }

  lemma AcceptedFreshAdmission(db: Db, op: Op)
    requires op.Admit? && Accepts(db, op)
    ensures Prepare(db, op.reading, op.expected, op.admission, op.recovered, op.newReservationId).reply.Granted?
  {
    hide Prepare;
  }

  // ---------- Charging over a run ----------

  // The rows charged to `r` by the accepted metered writes of a run, whether or not their writers threw.
  ghost function RowsCharged(db: Db, ops: seq<Op>, r: Text): int
    decreases |ops|
  {
    if ops == [] then 0
    else
      (if ops[0].Charge? && Accepts(db, ops[0]) && ops[0].fixture.reservationId == r then ops[0].fixture.rows else 0) +
      RowsCharged(Apply(db, ops[0]), ops[1..], r)
  }

  lemma OperationChargesRows(db: Db, op: Op, r: Text)
    requires RowsAgree(db)
    ensures RowsUsed(Apply(db, op).usage, r) == RowsUsed(db.usage, r) + RowsCharged(db, [op], r)
  {
    hide RowsAgree, Accepts, RowsUsed;
    assert RowsCharged(Apply(db, op), [op][1..], r) == 0;
    if op.Charge? {
      ChargeOperation(db, op, r);
    } else if op.Admit? && Accepts(db, op) && op.admission.attemptId !in db.attempts {
      AdmissionLeavesUsage(db, op);
    } else if op.Settle? {
      SettleLeavesUsage(db, op);
    } else {
      hide Apply;
      OthersLeaveLedgers(db, op);
    }
  }

  lemma SettleLeavesUsage(db: Db, op: Op)
    requires op.Settle?
    ensures Apply(db, op).usage == db.usage
  {
    hide ReconcileReservation;
    SettlementTouchesItsTable(db, op.reading, op.reservationId, op.outcome, op.retained, op.verified);
  }

  lemma AdmissionLeavesUsage(db: Db, op: Op)
    requires RowsAgree(db) && op.Admit? && Accepts(db, op) && op.admission.attemptId !in db.attempts
    ensures Apply(db, op).usage == db.usage
  {
    hide Prepare, RowsAgree, Owns, Vacant;
    AcceptedFreshAdmission(db, op);
    PrepareEnters(db, op.reading, op.expected, op.admission, op.recovered, op.newReservationId);
  }

  lemma ChargeOperation(db: Db, op: Op, r: Text)
    requires op.Charge?
    ensures RowsUsed(Apply(db, op).usage, r) ==
            RowsUsed(db.usage, r) + (if Accepts(db, op) && op.fixture.reservationId == r then op.fixture.rows else 0)
  {
    hide FixtureMutationWithReservation, RowsUsed, EventContinues;
    if FixtureMutationWithReservation(db, op.reading, op.insertReading, op.fixture).reply.Granted? {
      GrantedChargeContinues(db, op.reading, op.insertReading, op.fixture);
      var e := UsageEvent(op.fixture.reservationId, op.fixture.attemptId, RowsUsed(db.usage, op.fixture.reservationId),
                          RowsUsed(db.usage, op.fixture.reservationId) + op.fixture.rows);
      RowsUsedAfterEvent(db.usage, e, r);
    } else {
      DeniedChargeChangesNothing(db, op.reading, op.insertReading, op.fixture);
    }
  }

  // Charging is exact: over any run a reservation's use grows by just the rows of its accepted metered writes.
  lemma {:induction false} ChargingIsExact(db: Db, ops: seq<Op>, r: Text)
    requires OwnershipInv(db)
    ensures RowsUsed(AfterAll(db, ops).usage, r) == RowsUsed(db.usage, r) + RowsCharged(db, ops, r)
    decreases |ops|
  {
    hide Apply, Accepts, RowsUsed, OwnershipAgrees, LeaseRowAgrees, LockRowAgrees;
    if ops == [] {
    } else {
      OperationChargesRows(db, ops[0], r);
      assert RowsCharged(Apply(db, ops[0]), [ops[0]][1..], r) == 0;
      EveryOperationKeepsOwnership(db, ops[0]);
      ChargingIsExact(Apply(db, ops[0]), ops[1..], r);
    }
  }

  // ---------- Claims over a run ----------

  lemma OperationKeepsClaims(db: Db, op: Op)
    requires RowsAgree(db)
    ensures forall s :: s in db.fixtures ==> s in Apply(db, op).fixtures && Apply(db, op).fixtures[s] == db.fixtures[s]
  {
    hide RowsAgree, Accepts, Prepare, ReconcileReservation, FixtureMutationWithReservation;
    if op.Charge? {
      if FixtureMutationWithReservation(db, op.reading, op.insertReading, op.fixture).reply.Granted? {
        GrantedChargeContinues(db, op.reading, op.insertReading, op.fixture);
        GrantedChargeClaims(db, op.reading, op.insertReading, op.fixture);
      } else {
        DeniedChargeChangesNothing(db, op.reading, op.insertReading, op.fixture);
      }
    } else if op.Admit? && Accepts(db, op) && op.admission.attemptId !in db.attempts {
      AdmissionLeavesFixtures(db, op);
    } else if op.Settle? {
      SettlementTouchesItsTable(db, op.reading, op.reservationId, op.outcome, op.retained, op.verified);
    } else {
      hide Apply;
      OthersLeaveLedgers(db, op);
    }
  }

  lemma AdmissionLeavesFixtures(db: Db, op: Op)
    requires RowsAgree(db) && op.Admit? && Accepts(db, op) && op.admission.attemptId !in db.attempts
    ensures Apply(db, op).fixtures == db.fixtures
  {
    hide Prepare, RowsAgree, Owns, Vacant;
    AcceptedFreshAdmission(db, op);
    PrepareEnters(db, op.reading, op.expected, op.admission, op.recovered, op.newReservationId);
  }

  lemma {:induction false} ClaimsAreForever(db: Db, ops: seq<Op>)
    requires OwnershipInv(db)
    ensures forall s :: s in db.fixtures ==>
              s in AfterAll(db, ops).fixtures && AfterAll(db, ops).fixtures[s] == db.fixtures[s]
    decreases |ops|
  {
    hide Apply, OwnershipAgrees, LeaseRowAgrees, LockRowAgrees;
    if ops == [] {
    } else {
      OperationKeepsClaims(db, ops[0]);
      EveryOperationKeepsOwnership(db, ops[0]);
      ClaimsAreForever(Apply(db, ops[0]), ops[1..]);
    }
  }

  // A case's fixture of one kind is claimed at most once in any run, and so is a fixture id.
  lemma NothingIsClaimedTwice(db: Db, reading: int, insert: int, q: FixtureRequest, ops: seq<Op>, reading2: int,
                              insert2: int,
                              q2: FixtureRequest)
    requires OwnershipInv(db) && FixtureMutationWithReservation(db, reading, insert, q).reply.Granted?
    requires OwnershipInv(FixtureMutationWithReservation(db, reading, insert, q).db)
    requires FixtureMutationWithReservation(AfterAll(FixtureMutationWithReservation(db, reading, insert, q).db, ops),
                                            reading2, insert2, q2).reply.Granted?
    ensures FixtureSlot(q2.attemptId, q2.caseId, q2.kind) != FixtureSlot(q.attemptId, q.caseId, q.kind)
    ensures q2.fixtureId != q.fixtureId
  {
    hide FixtureMutationWithReservation, OwnershipInv, EventContinues, RowsUsed, AfterAll;
    var slot := FixtureSlot(q.attemptId, q.caseId, q.kind);
    var after := FixtureMutationWithReservation(db, reading, insert, q).db;
    GrantedChargeClaims(db, reading, insert, q);
    assert slot in after.fixtures && after.fixtures[slot] == q.fixtureId;
    ClaimsAreForever(after, ops);
    GrantedChargeContinues(AfterAll(after, ops), reading2, insert2, q2);
  }
}
