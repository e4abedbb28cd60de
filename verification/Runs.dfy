// Runs of the control store: any operations, in any order, with any answers from outside.
module Runs {
  import opened Options
  import opened Records
  import opened Control

  datatype Op =
    | Admit(reading: int, expected: Option<Environment>, admission: AdmissionRequest, recovered: set<Text>,
            newReservationId: Text)
    | Settle(reading: int, reservationId: Text, outcome: RunOutcome, retained: Usage, verified: bool)
    | Check(reading: int, attemptId: Text, fence: nat)
    | ListPending(reading: int, attemptId: Text, fence: nat)
    | Mutate(reading: int, attemptId: Text, fence: nat)
    | Begin(reading: int, intent: IntentRequest, newIntentId: Text)
    | Reconcile(reading: int, attemptId: Text, fence: nat, intentId: Text, observation: Observation, verified: bool)
    | HandOff(reading: int, attemptId: Text, fence: nat, ttl: int, verdict: RecoveryVerdict)
    | Recheck(reading: int, attemptId: Text, recheck: RecheckRequest, resumable: bool, snapshotSealed: bool)
    | Extend(reading: int, attemptId: Text, fence: nat, ttl: int)
    | Move(reading: int, attemptId: Text, fence: nat, from: Phase, to: Phase, artifact: Option<Artifact>,
           resourceIds: Option<seq<Text>>)
    | Clean(reading: int, insertReading: int, releaseReading: int, attemptId: Text, fence: nat, projection: Text,
            verified: bool)
    | Charge(reading: int, insertReading: int, fixture: FixtureRequest, writerThrew: bool)
    | SkipFence // a transaction drew a fence and then aborted: sequence values are never given back

  ghost function Apply(db: Db, op: Op): Db {
    match op
    case Admit(reading, expected, q, recovered, id) => Prepare(db, reading, expected, q, recovered, id).db
    case Settle(reading, id, outcome, retained, verified) =>
      ReconcileReservation(db, reading, id, outcome, retained, verified).db
    case Check(_, _, _) => db
    case ListPending(_, _, _) => db
    case Mutate(_, _, _) => db
    case Begin(reading, q, id) => BeginStripeIntent(db, reading, q, id).db
    case Reconcile(reading, a, f, id, o, verified) => ReconcileStripeIntent(db, reading, a, f, id, o, verified).db
    case HandOff(reading, a, f, ttl, verdict) => HandoffStripeIntentRecovery(db, reading, a, f, ttl, verdict).db
    case Recheck(reading, a, q, resumable, isSealed) => ResumeRecheck(db, reading, a, q, resumable, isSealed).db
    case Extend(reading, a, f, ttl) => Renew(db, reading, a, f, ttl).db
    case Move(reading, a, f, from, to, artifact, ids) => Transition(db, reading, a, f, from, to, artifact, ids).db
    case Clean(reading, insert, release, a, f, projection, verified) =>
      Cleanup(db, reading, insert, release, a, f, projection, verified).db
    case Charge(reading, insert, q, _) => FixtureMutationWithReservation(db, reading, insert, q).db
    case SkipFence => if db.sequence < MAX_FENCE_SEQUENCE then db.(sequence := db.sequence + 1) else db
  }

  // Whether the caller of `op` gets what it asked for.
  ghost predicate Accepts(db: Db, op: Op) {
    match op
    case Admit(reading, expected, q, recovered, id) => Prepare(db, reading, expected, q, recovered, id).reply.Granted?
    case Settle(reading, id, outcome, retained, verified) =>
      ReconcileReservation(db, reading, id, outcome, retained, verified).reply.Granted?
    case Check(reading, a, f) => AssertFence(db, reading, a, f).Granted?
    case ListPending(reading, a, f) => ListPendingStripeIntents(db, reading, a, f).Granted?
    case Mutate(reading, a, f) => MayMutateFixtures(db, reading, a, f).Granted?
    case Begin(reading, q, id) => BeginStripeIntent(db, reading, q, id).reply.Granted?
    case Reconcile(reading, a, f, id, o, verified) =>
      ReconcileStripeIntent(db, reading, a, f, id, o, verified).reply.Granted?
    case HandOff(reading, a, f, ttl, verdict) =>
      HandoffStripeIntentRecovery(db, reading, a, f, ttl, verdict).reply.Granted?
    case Recheck(reading, a, q, resumable, isSealed) =>
      ResumeRecheck(db, reading, a, q, resumable, isSealed).reply.Granted?
    case Extend(reading, a, f, ttl) => Renew(db, reading, a, f, ttl).reply.Granted?
    case Move(reading, a, f, from, to, artifact, ids) =>
      Transition(db, reading, a, f, from, to, artifact, ids).reply.Granted?
    case Clean(reading, insert, release, a, f, projection, verified) =>
      Cleanup(db, reading, insert, release, a, f, projection, verified).reply.Granted?
    case Charge(reading, insert, q, _) => FixtureMutationWithReservation(db, reading, insert, q).reply.Granted?
    case SkipFence => true
  }

  ghost function AfterAll(db: Db, ops: seq<Op>): Db
    decreases |ops|
  {
    if ops == [] then db else AfterAll(Apply(db, ops[0]), ops[1..])
  }

  // The operations that present an attempt together with a fence.
  predicate Presents(op: Op, attemptId: Text, fence: nat) {
    match op
    case Begin(_, q, _) => q.attemptId == attemptId && q.fence == fence
    case Charge(_, _, q, _) => q.attemptId == attemptId && q.fence == fence
    case Check(_, a, f) => a == attemptId && f == fence
    case ListPending(_, a, f) => a == attemptId && f == fence
    case Mutate(_, a, f) => a == attemptId && f == fence
    case Reconcile(_, a, f, _, _, _) => a == attemptId && f == fence
    case HandOff(_, a, f, _, _) => a == attemptId && f == fence
    case Extend(_, a, f, _) => a == attemptId && f == fence
    case Move(_, a, f, _, _, _, _) => a == attemptId && f == fence
    case Clean(_, _, _, a, f, _, _) => a == attemptId && f == fence
    case _ => false
  }

  lemma {:induction false} RunAppend(db: Db, ops: seq<Op>, more: seq<Op>)
    ensures AfterAll(db, ops + more) == AfterAll(AfterAll(db, ops), more)
    decreases |ops|
  {
    hide Apply;
    if ops == [] {
      assert ops + more == more;
    } else {
      assert (ops + more)[1..] == ops[1..] + more;
      RunAppend(Apply(db, ops[0]), ops[1..], more);
    }
  }
}
