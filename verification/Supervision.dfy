// The lease supervisor over the attempt store: what supervised work may rely on.
module Supervision {
  import opened Options
  import Control
  import Fences
  import Records
  import Runs
  import Safety
  import opened LeaseSupervisor

  // The confirmation that a supervisor reads off a reply of the store, whose times are whole seconds.
  function ConfirmationOf(standing: Control.Standing): Confirmation {
    Confirmation(standing.expiresAt as real, standing.serverNow as real)
  }

  // Whatever the store answers to a renewal is plausible to the supervisor that asked for that time to live.
  lemma RenewalIsPlausible(db: Control.Db, reading: int, a: Records.Text, fence: nat, s: State)
    requires Control.Renew(db, reading, a, fence, s.ttlSeconds).reply.Granted?
    ensures Plausible(s, Some(ConfirmationOf(Control.Renew(db, reading, a, fence, s.ttlSeconds).reply.value)))
  {
    hide Control.OwnerRefusal, Control.WithOwnership;
    var standing := Control.Renew(db, reading, a, fence, s.ttlSeconds).reply.value;
    assert standing.expiresAt - standing.serverNow == s.ttlSeconds;
    assert standing.expiresAt as real - standing.serverNow as real == s.ttlSeconds as real;
    assert (s.ttlSeconds * 1000 + 1) as real == s.ttlSeconds as real * 1000.0 + 1.0;
  }

  // As long as no due timer is left unfired, work that has not been aborted still holds the lease it was last
  // confirmed, whatever everybody else has done in the meantime, and whether or not renewals of its own have been
  // committed of which it has not heard yet. These read the clock no earlier than the confirmation did.
  lemma UnabortedWorkKeepsItsLease(v: Supervised, events: seq<Event>, offset: real, now: real,
                                   ops: seq<Runs.Op>, more: seq<Runs.Op>, a: Records.Text, lease: Records.Lease)
    requires Begins(v, offset) && Schedulable(v, events, offset)
    requires var s := AfterEvents(v, events).state; !Over(s) && !Enabled(s, DeadlineElapsed(now))
    requires Fences.HoldsLease(Runs.AfterAll(Control.EMPTY, ops), a, lease)
    requires AfterEvents(v, events).confirmed.expiresAt == lease.expiresAt as real
    requires var clock, serverNow := Runs.AfterAll(Control.EMPTY, ops).clock,
               AfterEvents(v, events).confirmed.serverNow;
             forall op :: op in more ==> RenewsAtMost(op, a, v.state.ttlSeconds, clock, serverNow)
    requires Runs.AfterAll(Control.EMPTY, ops + more).clock as real * 1000.0 <= now + offset
    ensures Fences.StillHolds(Runs.AfterAll(Control.EMPTY, ops + more), a, lease)
    ensures (forall op :: op in more ==> !Fences.Reassigns(op, a)) ==>
              Fences.HoldsLease(Runs.AfterAll(Control.EMPTY, ops + more), a, lease)
  {
    hide *;
    UnabortedWorkHoldsTheLease(v, events, offset, now);
    StartIsPlausible(v, offset);
    RunKeepsPlausible(v, events);
    var confirmed, db := AfterEvents(v, events).confirmed, Runs.AfterAll(Control.EMPTY, ops);
    BeforeRealExpiry(confirmed, offset, now, Runs.AfterAll(Control.EMPTY, ops + more).clock, lease.expiresAt);
    forall op | op in more ensures Fences.OnlyProlongs(db, op, a, lease, v.state.ttlSeconds) {
      PlausibleRenewalProlongs(db, AfterEvents(v, events).state, confirmed, op, a, lease);
    }
    Safety.RenewedLeaseIsNobodyElses(ops, more, a, lease, v.state.ttlSeconds);
    if forall op :: op in more ==> !Fences.Reassigns(op, a) {
      Safety.UnexpiredLeaseIsNobodyElses(ops, more, a, lease, Runs.AfterAll(Control.EMPTY, ops + more).clock);
    }
  }

  // If `op` moves the lease of `a`, it is a renewal for `ttl` that the store sees no earlier than `serverNow`.
  predicate RenewsAtMost(op: Runs.Op, a: Records.Text, ttl: int, clock: int, serverNow: real) {
    Fences.Reassigns(op, a) ==> op.Extend? && op.ttl == ttl && serverNow <= Control.Now(clock, op.reading) as real
  }

  lemma PlausibleRenewalProlongs(db: Control.Db, s: State, confirmed: Confirmation, op: Runs.Op, a: Records.Text,
                                 lease: Records.Lease)
    requires Plausible(s, Some(confirmed)) && confirmed.expiresAt == lease.expiresAt as real
    requires RenewsAtMost(op, a, s.ttlSeconds, db.clock, confirmed.serverNow)
    ensures Fences.OnlyProlongs(db, op, a, lease, s.ttlSeconds)
  {
    hide Fences.Reassigns;
    if Fences.Reassigns(op, a) {
      var read := Control.Now(db.clock, op.reading);
      WholeSeconds(lease.expiresAt, read, s.ttlSeconds, confirmed.serverNow);
    }
  }

  // Times in whole seconds that differ by at most a thousandth more than `ttl` differ by at most `ttl`.
  lemma WholeSeconds(expiresAt: int, read: int, ttl: int, serverNow: real)
    requires (expiresAt as real - serverNow) * 1000.0 <= (ttl * 1000 + 1) as real && serverNow <= read as real
    ensures expiresAt <= read + ttl
  {
    assert (ttl * 1000 + 1) as real == ttl as real * 1000.0 + 1.0;
    assert expiresAt as real - (read + ttl) as real <= 0.001;
  }

  lemma BeforeRealExpiry(confirmed: Confirmation, offset: real, now: real, clock: int, expiresAt: int)
    requires now < RealExpiry(confirmed, offset) && confirmed.expiresAt == expiresAt as real
    requires clock as real * 1000.0 <= now + offset
    ensures clock < expiresAt
  {
  }
}
