// Keeping a lease alive while work runs: renewals, timers and the one abort, under any schedule of callbacks.
module LeaseSupervisor {
  import opened Options

  // What the store confirms, in seconds of the server's clock.
  datatype Confirmation = Confirmation(expiresAt: real, serverNow: real)

  datatype Reason = LeaseExpired | LeaseRenewalTimeout | StoreError(code: string)

  // Local times in milliseconds. A timer is the time from which it may fire.
  datatype State = State(
    ttlSeconds: int, intervalMs: int, stopped: bool, aborted: Option<Reason>, deadline: real,
    deadlineTimer: Option<real>, renewalTimer: Option<real>, waitTimer: Option<real>,
    inFlight: Option<real>) // when the pending renewal request was sent

  predicate Supervisable(ttlSeconds: int, intervalMs: int) {
    1 <= intervalMs && 1 <= ttlSeconds && intervalMs < ttlSeconds * 1000
  }

  function Min(a: real, b: real): real {
    if a <= b then a else b
  }

  // ---------- One callback ----------

  predicate Over(s: State) {
    s.stopped || s.aborted.Some?
  }

  function Fail(s: State, reason: Reason): State {
    if Over(s) then s else s.(aborted := Some(reason))
  }

  function RemainingMs(c: Confirmation): real {
    (c.expiresAt - c.serverNow) * 1000.0
  }

  // A malformed reply is None. The upper bound allows for rounding in the clock conversion.
  predicate Plausible(s: State, reply: Option<Confirmation>) {
    reply.Some? && 0.0 < RemainingMs(reply.value) <= (s.ttlSeconds * 1000 + 1) as real
  }

  predicate Confirms(s: State, reply: Option<Confirmation>, requestStarted: real, now: real) {
    Plausible(s, reply) && requestStarted + RemainingMs(reply.value) > now
  }

  function SetDeadline(s: State, reply: Option<Confirmation>, requestStarted: real, now: real): State {
    if !Plausible(s, reply) then s
    else
      var deadline := requestStarted + RemainingMs(reply.value);
      if deadline <= now then s.(deadline := deadline) else s.(deadline := deadline, deadlineTimer := Some(deadline))
  }

  function ScheduleRenewal(s: State, now: real): State {
    s.(renewalTimer := Some(now + s.intervalMs as real))
  }

  datatype Event =
    | RenewalDue(now: real)
    | Replied(now: real, reply: Option<Confirmation>)
    | Rejected(now: real, reason: Reason)
    | WaitElapsed(now: real)
    | DeadlineElapsed(now: real)
    | WorkSettled(now: real) // the work finished or threw, or the loss of the lease was reported to the caller

  // What the event loop may deliver: a timer that is armed and due, or the settling of the pending renewal.
  predicate Enabled(s: State, e: Event) {
    match e
    case RenewalDue(now) => s.renewalTimer.Some? && s.renewalTimer.value <= now
    case Replied(now, _) => s.inFlight.Some? && s.inFlight.value <= now
    case Rejected(now, _) => s.inFlight.Some? && s.inFlight.value <= now
    case WaitElapsed(now) => s.waitTimer.Some? && s.waitTimer.value <= now
    case DeadlineElapsed(now) => s.deadlineTimer.Some? && s.deadlineTimer.value <= now
    case WorkSettled(_) => !s.stopped
  }

  function Step(s: State, e: Event): State {
    match e
    case RenewalDue(now) =>
      var fired := s.(renewalTimer := None);
      if Over(s) then fired
      else if s.deadline <= now then Fail(fired, LeaseExpired)
      else fired.(inFlight := Some(now), waitTimer := Some(now + Min(s.intervalMs as real, s.deadline - now)))
    case Replied(now, reply) =>
      if s.inFlight.None? then s
      else
        var settled := s.(inFlight := None, waitTimer := None);
        if Over(s) then settled
        else if Confirms(s, reply, s.inFlight.value, now) then
          ScheduleRenewal(SetDeadline(settled, reply, s.inFlight.value, now), now)
        else Fail(SetDeadline(settled, reply, s.inFlight.value, now), LeaseExpired)
    case Rejected(_, reason) =>
      if s.inFlight.None? then s else Fail(s.(inFlight := None), reason)
    case WaitElapsed(now) =>
      var fired := s.(waitTimer := None);
      if s.inFlight.None? then fired
      else Fail(fired.(inFlight := None), if s.deadline - now <= 1.0 then LeaseExpired else LeaseRenewalTimeout)
    case DeadlineElapsed(_) => Fail(s.(deadlineTimer := None), LeaseExpired)
    case WorkSettled(_) => s.(stopped := true, deadlineTimer := None, renewalTimer := None, waitTimer := None)
  }

  datatype Refused = InvalidSupervision | ConfirmationRequired | Expired

  datatype Started = NotStarted(why: Refused) | Running(state: State)

  // Supervision starts from a confirmation requested at `started` and received at `now`.
  function Start(ttlSeconds: int, intervalMs: int, reply: Option<Confirmation>, started: real, now: real): Started {
    if !Supervisable(ttlSeconds, intervalMs) then NotStarted(InvalidSupervision)
    else if reply.None? then NotStarted(ConfirmationRequired)
    else
      var s := State(ttlSeconds, intervalMs, false, None, started, None, None, None, None);
      if Confirms(s, reply, started, now) then Running(ScheduleRenewal(SetDeadline(s, reply, started, now), now))
      else NotStarted(Expired)
  }

  // ---------- The supervisor ----------

  class Supervisor {
    const ttlSeconds: int
    const intervalMs: int
    var stopped: bool
    var aborted: Option<Reason>
    var deadline: real
    var deadlineTimer: Option<real>
    var renewalTimer: Option<real>
    var waitTimer: Option<real>
    var inFlight: Option<real>

    function Value(): State reads this {
      State(ttlSeconds, intervalMs, stopped, aborted, deadline, deadlineTimer, renewalTimer, waitTimer, inFlight)
    }

    constructor (ttlSeconds: int, intervalMs: int, started: real)
      ensures Value() == State(ttlSeconds, intervalMs, false, None, started, None, None, None, None)
    {
      this.ttlSeconds, this.intervalMs := ttlSeconds, intervalMs;
      stopped, aborted, deadline := false, None, started;
      deadlineTimer, renewalTimer, waitTimer, inFlight := None, None, None, None;
    }

    // The first caller to report a reason is the only one heard.
    method ReportLoss(reason: Reason)
      modifies this`aborted
      ensures Value() == Fail(old(Value()), reason)
    {
      if stopped || aborted.Some? { return; }
      aborted := Some(reason);
    }

    method ArmDeadline(reply: Option<Confirmation>, requestStarted: real, now: real) returns (ok: bool)
      modifies this`deadline, this`deadlineTimer
      ensures ok <==> Confirms(old(Value()), reply, requestStarted, now)
      ensures Value() == SetDeadline(old(Value()), reply, requestStarted, now)
    {
      if reply.None? { return false; }
      var remainingMs := (reply.value.expiresAt - reply.value.serverNow) * 1000.0;
      if remainingMs <= 0.0 || remainingMs > (ttlSeconds * 1000 + 1) as real { return false; }
      deadline := requestStarted + remainingMs;
      if deadline - now <= 0.0 { return false; }
      deadlineTimer := Some(deadline);
      ok := true;
    }

    method ArmRenewal(now: real)
      modifies this`renewalTimer
      ensures Value() == ScheduleRenewal(old(Value()), now)
    {
      renewalTimer := Some(now + intervalMs as real);
    }

    method OnRenewalDue(now: real)
      modifies this
      ensures Value() == Step(old(Value()), RenewalDue(now))
    {
      renewalTimer := None;
      if stopped || aborted.Some? { return; }
      var remainingMs := deadline - now;
      if remainingMs <= 0.0 { ReportLoss(LeaseExpired); return; }
      inFlight := Some(now);
      waitTimer := Some(now + Min(intervalMs as real, remainingMs));
    }

    method OnReply(now: real, reply: Option<Confirmation>)
      modifies this
      ensures Value() == Step(old(Value()), Replied(now, reply))
    {
      if inFlight.None? { return; }
      var requestStarted := inFlight.value;
      inFlight, waitTimer := None, None;
      if stopped || aborted.Some? { return; }
      var ok := ArmDeadline(reply, requestStarted, now);
      if ok { ArmRenewal(now); } else { ReportLoss(LeaseExpired); }
    }

    method OnRejection(now: real, reason: Reason)
      modifies this
      ensures Value() == Step(old(Value()), Rejected(now, reason))
    {
      if inFlight.None? { return; }
      inFlight := None;
      ReportLoss(reason);
    }

    method OnWaitElapsed(now: real)
      modifies this
      ensures Value() == Step(old(Value()), WaitElapsed(now))
    {
      waitTimer := None;
      if inFlight.None? { return; }
      inFlight := None;
      ReportLoss(if deadline - now <= 1.0 then LeaseExpired else LeaseRenewalTimeout);
    }

    method OnDeadline(now: real)
      modifies this
      ensures Value() == Step(old(Value()), DeadlineElapsed(now))
    {
      deadlineTimer := None;
      ReportLoss(LeaseExpired);
    }

    method OnWorkSettled(now: real)
      modifies this
      ensures Value() == Step(old(Value()), WorkSettled(now))
    {
      stopped := true;
      deadlineTimer, renewalTimer, waitTimer := None, None, None;
    }
  }

  method Supervise(ttlSeconds: int, intervalMs: int, reply: Option<Confirmation>, started: real, now: real)
    returns (why: Option<Refused>, supervisor: Supervisor)
    ensures fresh(supervisor)
    ensures Start(ttlSeconds, intervalMs, reply, started, now) ==
            if why.Some? then NotStarted(why.value) else Running(supervisor.Value())
  {
    supervisor := new Supervisor(ttlSeconds, intervalMs, started);
    if intervalMs < 1 || ttlSeconds < 1 || intervalMs >= ttlSeconds * 1000 {
      return Some(InvalidSupervision), supervisor;
    }
    if reply.None? { return Some(ConfirmationRequired), supervisor; }
    var ok := supervisor.ArmDeadline(reply, started, now);
    if !ok { return Some(Expired), supervisor; }
    supervisor.ArmRenewal(now);
    why := None;
  }

  // ---------- Runs ----------

  // A run together with the confirmation that its current deadline rests on.
  datatype Supervised = Supervised(state: State, confirmed: Confirmation)

  function Advance(v: Supervised, e: Event): Supervised {
    var confirms := e.Replied? && v.state.inFlight.Some? && !Over(v.state) &&
      Confirms(v.state, e.reply, v.state.inFlight.value, e.now);
    Supervised(Step(v.state, e), if confirms then e.reply.value else v.confirmed)
  }

  // The server's clock runs beside the local one, `offset` milliseconds ahead. A reply is honest when the server read
  // its clock no earlier than the request was sent.
  predicate Honest(v: Supervised, e: Event, offset: real) {
    e.Replied? && e.reply.Some? && v.state.inFlight.Some? ==>
      e.reply.value.serverNow * 1000.0 >= v.state.inFlight.value + offset
  }

  predicate Schedulable(v: Supervised, events: seq<Event>, offset: real)
    decreases |events|
  {
    events == [] ||
    (Enabled(v.state, events[0]) && Honest(v, events[0], offset) &&
     Schedulable(Advance(v, events[0]), events[1..], offset))
  }

  function AfterEvents(v: Supervised, events: seq<Event>): Supervised
    decreases |events|
  {
    if events == [] then v else AfterEvents(Advance(v, events[0]), events[1..])
  }

  // When the confirmed lease really expires, on the local clock.
  function RealExpiry(c: Confirmation, offset: real): real {
    c.expiresAt * 1000.0 - offset
  }

  ghost predicate Begins(v: Supervised, offset: real) {
    exists ttl, interval, started, now {:trigger Start(ttl, interval, Some(v.confirmed), started, now)} ::
      Start(ttl, interval, Some(v.confirmed), started, now) == Running(v.state) &&
      v.confirmed.serverNow * 1000.0 >= started + offset && started <= now
  }

  // While supervision is on: the deadline timer is armed at the deadline, which is no later than the real expiry of the
  // last confirmed lease, and either the next renewal is scheduled or one is in flight and given up by the deadline.
  predicate Guarded(v: Supervised, offset: real) {
    var s := v.state;
    Supervisable(s.ttlSeconds, s.intervalMs) &&
    (s.deadlineTimer.Some? ==> s.deadlineTimer.value <= RealExpiry(v.confirmed, offset)) &&
    (s.stopped ==> s.deadlineTimer.None? && s.renewalTimer.None?) &&
    (!Over(s) ==>
       s.deadlineTimer == Some(s.deadline) &&
       (s.renewalTimer.Some? <==> s.inFlight.None?) &&
       (s.inFlight.Some? ==> s.waitTimer.Some? && s.waitTimer.value <= s.deadline))
  }

  lemma StartIsGuarded(v: Supervised, offset: real)
    requires Begins(v, offset)
    ensures Guarded(v, offset)
  {
  }

  lemma StepKeepsGuard(v: Supervised, e: Event, offset: real)
    requires Guarded(v, offset) && Enabled(v.state, e) && Honest(v, e, offset)
    ensures Guarded(Advance(v, e), offset)
  {
  }

  lemma {:induction false} RunKeepsGuard(v: Supervised, events: seq<Event>, offset: real)
    requires Guarded(v, offset) && Schedulable(v, events, offset)
    ensures Guarded(AfterEvents(v, events), offset)
    decreases |events|
  {
    hide Guarded, Enabled, Honest, Step, Advance;
    if events == [] {
    } else {
      StepKeepsGuard(v, events[0], offset);
      RunKeepsGuard(Advance(v, events[0]), events[1..], offset);
    }
  }

  // The last confirmation is plausible at all times, for the time to live that supervision began with.
  lemma {:induction false} RunKeepsPlausible(v: Supervised, events: seq<Event>)
    requires Plausible(v.state, Some(v.confirmed))
    ensures var end := AfterEvents(v, events);
            Plausible(end.state, Some(end.confirmed)) && end.state.ttlSeconds == v.state.ttlSeconds
    decreases |events|
  {
    hide RemainingMs;
    if events == [] {
    } else {
      StepKeepsPlausible(v, events[0]);
      RunKeepsPlausible(Advance(v, events[0]), events[1..]);
    }
  }

  lemma StepKeepsPlausible(v: Supervised, e: Event)
    requires Plausible(v.state, Some(v.confirmed))
    ensures var next := Advance(v, e);
            Plausible(next.state, Some(next.confirmed)) && next.state.ttlSeconds == v.state.ttlSeconds
  {
  }

  lemma StartIsPlausible(v: Supervised, offset: real)
    requires Begins(v, offset)
    ensures Plausible(v.state, Some(v.confirmed))
  {
  }

  // Every armed deadline is no later than the real expiry of the last confirmed lease.
  lemma ArmedDeadlineIsSafe(v: Supervised, events: seq<Event>, offset: real)
    requires Begins(v, offset) && Schedulable(v, events, offset)
    ensures var end := AfterEvents(v, events);
            end.state.deadlineTimer.Some? ==> end.state.deadlineTimer.value <= RealExpiry(end.confirmed, offset)
  {
    StartIsGuarded(v, offset);
    RunKeepsGuard(v, events, offset);
  }

  // As long as no due timer is left unfired, work that has not been aborted runs under a lease that has not expired.
  lemma UnabortedWorkHoldsTheLease(v: Supervised, events: seq<Event>, offset: real, now: real)
    requires Begins(v, offset) && Schedulable(v, events, offset)
    requires var s := AfterEvents(v, events).state; !Over(s) && !Enabled(s, DeadlineElapsed(now))
    ensures now < RealExpiry(AfterEvents(v, events).confirmed, offset)
  {
    StartIsGuarded(v, offset);
    RunKeepsGuard(v, events, offset);
  }

  // Supervision never stalls: while it is on, a renewal is scheduled or a pending one will be given up by the deadline.
  lemma SupervisionNeverStalls(v: Supervised, events: seq<Event>, offset: real)
    requires Begins(v, offset) && Schedulable(v, events, offset) && !Over(AfterEvents(v, events).state)
    ensures var s := AfterEvents(v, events).state;
            exists due: Event ::
              Enabled(s, due) && due.now <= (if s.renewalTimer.Some? then s.renewalTimer.value else s.deadline) &&
              (due.RenewalDue? || due.WaitElapsed?)
  {
    StartIsGuarded(v, offset);
    RunKeepsGuard(v, events, offset);
    var s := AfterEvents(v, events).state;
    var due := if s.renewalTimer.Some? then RenewalDue(s.renewalTimer.value) else WaitElapsed(s.waitTimer.value);
    assert Enabled(s, due);
  }

  // ---------- After a failure ----------

  // Once supervision is over: the reason stays as it is, and no renewal is sent or scheduled.
  predicate StaysOver(s: State, after: State) {
    Over(after) && after.aborted == s.aborted && (after.inFlight == s.inFlight || after.inFlight.None?) &&
    (after.renewalTimer == s.renewalTimer || after.renewalTimer.None?) &&
    (after.deadlineTimer == s.deadlineTimer || after.deadlineTimer.None?)
  }

  lemma {:induction false} OverForEver(v: Supervised, events: seq<Event>)
    requires Over(v.state)
    ensures StaysOver(v.state, AfterEvents(v, events).state)
    decreases |events|
  {
    if events == [] {
    } else {
      OverForEver(Advance(v, events[0]), events[1..]);
    }
  }

  function Aborts(v: Supervised, events: seq<Event>): nat
    decreases |events|
  {
    if events == [] then 0
    else
      var next := Advance(v, events[0]);
      (if v.state.aborted.None? && next.state.aborted.Some? then 1 else 0) + Aborts(next, events[1..])
  }

  lemma {:induction false} NoAbortAfterTheEnd(v: Supervised, events: seq<Event>)
    requires Over(v.state)
    ensures Aborts(v, events) == 0
    decreases |events|
  {
    if events == [] {
    } else {
      NoAbortAfterTheEnd(Advance(v, events[0]), events[1..]);
    }
  }

  // Whatever fails, and however often, the work is aborted at most once; never when it settled first.
  lemma {:induction false} AtMostOneAbort(v: Supervised, events: seq<Event>)
    requires v.state.aborted.None?
    ensures Aborts(v, events) <= 1
    ensures Aborts(v, events) == 1 <==> AfterEvents(v, events).state.aborted.Some?
    decreases |events|
  {
    if events == [] {
    } else {
      var next := Advance(v, events[0]);
      if next.state.aborted.Some? {
        NoAbortAfterTheEnd(next, events[1..]);
        OverForEver(next, events[1..]);
      } else {
        AtMostOneAbort(next, events[1..]);
      }
    }
  }

  // ---------- What keeps supervision on ----------

  lemma {:induction false} LastEvent(v: Supervised, events: seq<Event>, offset: real)
    requires events != [] && Schedulable(v, events, offset)
    ensures var earlier, last := events[..|events| - 1], events[|events| - 1];
            Schedulable(v, earlier, offset) && Enabled(AfterEvents(v, earlier).state, last) &&
            AfterEvents(v, events) == Advance(AfterEvents(v, earlier), last)
    decreases |events|
  {
    hide Enabled, Honest, Advance;
    if |events| == 1 {
      assert events[..0] == [] && events[1..] == [];
    } else {
      LastEvent(Advance(v, events[0]), events[1..], offset);
      assert events[1..][..|events| - 2] == events[..|events| - 1][1..];
    }
  }

  // When the lease that the reply at `i` confirms runs out, counted from the request before it.
  function Expiry(events: seq<Event>, i: nat): real
    requires 0 < i < |events| && events[i].Replied? && events[i].reply.Some?
  {
    events[i - 1].now + RemainingMs(events[i].reply.value)
  }

  // Every second event sends a renewal while the lease confirmed last still runs, and the event after it confirms a
  // lease of plausible length that has not run out by then.
  predicate InTime(ttlSeconds: int, deadline: real, events: seq<Event>, i: nat) requires i < |events| {
    var e := events[i];
    if i % 2 == 0 then
      e.RenewalDue? &&
      (i == 0 ==> e.now < deadline) &&
      (i > 0 ==> events[i - 1].Replied? && events[i - 1].reply.Some? && e.now < Expiry(events, i - 1))
    else
      e.Replied? && e.reply.Some? && e.reply.value.expiresAt > e.reply.value.serverNow &&
      RemainingMs(e.reply.value) <= (ttlSeconds * 1000 + 1) as real && e.now < Expiry(events, i)
  }

  predicate RenewedInTime(ttlSeconds: int, deadline: real, events: seq<Event>) {
    forall i :: 0 <= i < |events| ==> InTime(ttlSeconds, deadline, events, i)
  }

  lemma EarlierInTime(ttlSeconds: int, deadline: real, events: seq<Event>)
    requires events != []
    ensures RenewedInTime(ttlSeconds, deadline, events) <==>
            RenewedInTime(ttlSeconds, deadline, events[..|events| - 1]) &&
            InTime(ttlSeconds, deadline, events, |events| - 1)
  {
    var earlier := events[..|events| - 1];
    forall i | 0 <= i < |earlier|
      ensures InTime(ttlSeconds, deadline, earlier, i) == InTime(ttlSeconds, deadline, events, i)
    {
    }
  }

  // The state that renewals in time lead to.
  predicate Steady(s: State, ttlSeconds: int, deadline: real, events: seq<Event>)
    requires RenewedInTime(ttlSeconds, deadline, events)
  {
    var n := |events|;
    s.ttlSeconds == ttlSeconds && !Over(s) &&
    if n % 2 == 0 then
      s.inFlight.None? && s.waitTimer.None? && s.deadline == if n == 0 then deadline else
        (assert InTime(ttlSeconds, deadline, events, n - 1); Expiry(events, n - 1))
    else
      s.inFlight == Some(events[n - 1].now) && s.renewalTimer.None?
  }

  // Supervision is on exactly as long as nothing but renewals in time has happened.
  lemma {:induction false} WorkGoesOnExactlyWhileRenewed(v: Supervised, events: seq<Event>, offset: real)
    requires Begins(v, offset) && Schedulable(v, events, offset)
    ensures var s := AfterEvents(v, events).state;
            (!Over(s) <==> RenewedInTime(v.state.ttlSeconds, v.state.deadline, events)) &&
            (!Over(s) ==> Steady(s, v.state.ttlSeconds, v.state.deadline, events))
    decreases |events|
  {
    hide Begins, Honest, Schedulable, AfterEvents, Guarded, Enabled, Step;
    var ttlSeconds, deadline := v.state.ttlSeconds, v.state.deadline;
    if events == [] {
      StartIsSteady(v, offset);
      assert AfterEvents(v, []) == v;
    } else {
      var earlier := events[..|events| - 1];
      LastEvent(v, events, offset);
      WorkGoesOnExactlyWhileRenewed(v, earlier, offset);
      EarlierInTime(ttlSeconds, deadline, events);
      var s := AfterEvents(v, earlier).state;
      if Over(s) {
        OverStays(s, events[|events| - 1]);
      } else {
        StartIsGuarded(v, offset);
        RunKeepsGuard(v, earlier, offset);
        SteadyStep(AfterEvents(v, earlier), ttlSeconds, deadline, events, offset);
      }
    }
  }

  lemma StartIsSteady(v: Supervised, offset: real)
    requires Begins(v, offset)
    ensures Steady(v.state, v.state.ttlSeconds, v.state.deadline, []) && AfterEvents(v, []) == v
  {
  }

  lemma OverStays(s: State, e: Event)
    requires Over(s)
    ensures Over(Step(s, e))
  {
  }

  lemma SteadyStep(v: Supervised, ttlSeconds: int, deadline: real, events: seq<Event>, offset: real)
    requires events != [] && RenewedInTime(ttlSeconds, deadline, events[..|events| - 1])
    requires Steady(v.state, ttlSeconds, deadline, events[..|events| - 1]) && Guarded(v, offset)
    requires Enabled(v.state, events[|events| - 1])
    ensures var s := Advance(v, events[|events| - 1]).state;
            (!Over(s) <==> InTime(ttlSeconds, deadline, events, |events| - 1)) &&
            (!Over(s) ==> RenewedInTime(ttlSeconds, deadline, events) && Steady(s, ttlSeconds, deadline, events))
  {
    var n, earlier := |events| - 1, events[..|events| - 1];
    EarlierInTime(ttlSeconds, deadline, events);
    if n > 0 {
      assert InTime(ttlSeconds, deadline, earlier, n - 1);
      assert events[n - 1] == earlier[n - 1];
    }
    if InTime(ttlSeconds, deadline, events, n) { assert RenewedInTime(ttlSeconds, deadline, events); }
  }

  // ---------- When renewals come ----------

  // Supervision that starts at `received`, from the confirmation of a request sent at `started`.
  predicate StartsAt(v: Supervised, offset: real, started: real, received: real) {
    Start(v.state.ttlSeconds, v.state.intervalMs, Some(v.confirmed), started, received) == Running(v.state) &&
    v.confirmed.serverNow * 1000.0 >= started + offset && started <= received
  }

  // Supervision starts exactly for an interval below the time to live, from a confirmation of plausible length that has
  // not run out when it is received.
  lemma StartsExactlyWhen(ttlSeconds: int, intervalMs: int, reply: Option<Confirmation>, started: real, received: real)
    ensures Start(ttlSeconds, intervalMs, reply, started, received).Running? <==>
            1 <= intervalMs < ttlSeconds * 1000 && reply.Some? &&
            reply.value.expiresAt > reply.value.serverNow &&
            RemainingMs(reply.value) <= (ttlSeconds * 1000 + 1) as real &&
            received < started + RemainingMs(reply.value)
    ensures Start(ttlSeconds, intervalMs, reply, started, received) == NotStarted(InvalidSupervision) <==>
            !(1 <= intervalMs < ttlSeconds * 1000)
    ensures Start(ttlSeconds, intervalMs, reply, started, received) == NotStarted(ConfirmationRequired) <==>
            1 <= intervalMs < ttlSeconds * 1000 && reply.None?
  {
  }

  // When the last answer was received; before any, when supervision started.
  function LastReceipt(events: seq<Event>, received: real): real {
    if events == [] then received else events[|events| - 1].now
  }

  // When the lease runs out that the last of an even number of events confirmed, counted from its request.
  function LastExpiry(v: Supervised, events: seq<Event>, started: real): real
    requires |events| % 2 == 0 && RenewedInTime(v.state.ttlSeconds, v.state.deadline, events)
  {
    if events == [] then started + RemainingMs(v.confirmed)
    else
      assert InTime(v.state.ttlSeconds, v.state.deadline, events, |events| - 1);
      Expiry(events, |events| - 1)
  }

  lemma RunKeepsInterval(v: Supervised, events: seq<Event>)
    ensures AfterEvents(v, events).state.intervalMs == v.state.intervalMs
    decreases |events|
  {
    if events != [] { RunKeepsInterval(Advance(v, events[0]), events[1..]); }
  }

  lemma ConfirmedReplySchedules(v: Supervised, e: Event)
    requires e.Replied? && v.state.inFlight.Some? && !Over(v.state) && !Over(Step(v.state, e))
    ensures Step(v.state, e).renewalTimer == Some(e.now + v.state.intervalMs as real)
  {
  }

  // While supervision is on and no renewal is pending, the next one is sent exactly one interval after the last answer
  // was received, and no sooner, as long as the lease confirmed last has not run out by then.
  lemma RenewalsComeAtTheInterval(v: Supervised, events: seq<Event>, offset: real, started: real, received: real,
                                  now: real)
    requires StartsAt(v, offset, started, received) && Schedulable(v, events, offset) && |events| % 2 == 0
    requires !Over(AfterEvents(v, events).state)
    ensures RenewedInTime(v.state.ttlSeconds, v.state.deadline, events)
    ensures var s := AfterEvents(v, events).state;
            (Enabled(s, RenewalDue(now)) <==> now >= LastReceipt(events, received) + v.state.intervalMs as real) &&
            s.deadline == LastExpiry(v, events, started) &&
            (Step(s, RenewalDue(now)).inFlight == Some(now) <==> now < LastExpiry(v, events, started)) &&
            (Over(Step(s, RenewalDue(now))) <==> now >= LastExpiry(v, events, started))
  {
    hide Schedulable, Guarded, Honest, Plausible;
    assert Begins(v, offset) by { StartBegins(v, offset, started, received); }
    WorkGoesOnExactlyWhileRenewed(v, events, offset);
    RunKeepsInterval(v, events);
    if events == [] {
      StartState(v, offset, started, received);
    } else {
      var earlier, last := events[..|events| - 1], events[|events| - 1];
      LastEvent(v, events, offset);
      EarlierIsOn(v, events, offset);
      RunKeepsInterval(v, earlier);
      assert InTime(v.state.ttlSeconds, v.state.deadline, events, |events| - 1);
      ConfirmedReplySchedules(AfterEvents(v, earlier), last);
    }
  }

  lemma StartBegins(v: Supervised, offset: real, started: real, received: real)
    requires StartsAt(v, offset, started, received)
    ensures Begins(v, offset)
  {
  }

  lemma StartState(v: Supervised, offset: real, started: real, received: real)
    requires StartsAt(v, offset, started, received)
    ensures v.state.renewalTimer == Some(received + v.state.intervalMs as real)
    ensures v.state.deadline == started + RemainingMs(v.confirmed) && v.state.inFlight.None?
  {
  }

  // Before the last event supervision was on as well, and a renewal was pending or not according to their number.
  lemma EarlierIsOn(v: Supervised, events: seq<Event>, offset: real)
    requires events != [] && Begins(v, offset) && Schedulable(v, events, offset) && !Over(AfterEvents(v, events).state)
    ensures var earlier := events[..|events| - 1];
            Schedulable(v, earlier, offset) && !Over(AfterEvents(v, earlier).state) &&
            RenewedInTime(v.state.ttlSeconds, v.state.deadline, earlier) &&
            Steady(AfterEvents(v, earlier).state, v.state.ttlSeconds, v.state.deadline, earlier)
  {
    hide Begins, Schedulable, Honest, Enabled, AfterEvents, Advance;
    var earlier := events[..|events| - 1];
    LastEvent(v, events, offset);
    if Over(AfterEvents(v, earlier).state) {
      OverStays(AfterEvents(v, earlier).state, events[|events| - 1]);
      assert AfterEvents(v, events).state == Step(AfterEvents(v, earlier).state, events[|events| - 1]) by {
        AdvanceSteps(AfterEvents(v, earlier), events[|events| - 1]);
      }
    }
    WorkGoesOnExactlyWhileRenewed(v, earlier, offset);
  }

  lemma AdvanceSteps(v: Supervised, e: Event)
    ensures Advance(v, e).state == Step(v.state, e)
  {
  }

  // A pending renewal is given up one interval after it was sent, or when the lease confirmed before it runs out, if
  // that is sooner; it is then said to have expired exactly when no more than a millisecond of the lease is left.
  lemma PendingRenewalIsGivenUp(v: Supervised, events: seq<Event>, offset: real, started: real, received: real,
                                now: real)
    requires StartsAt(v, offset, started, received) && Schedulable(v, events, offset) && |events| % 2 == 1
    requires !Over(AfterEvents(v, events).state)
    ensures RenewedInTime(v.state.ttlSeconds, v.state.deadline, events[..|events| - 1])
    ensures var s := AfterEvents(v, events).state;
            var sent, expiry := events[|events| - 1].now, LastExpiry(v, events[..|events| - 1], started);
            (Enabled(s, WaitElapsed(now)) <==> now >= sent + v.state.intervalMs as real || now >= expiry) &&
            Step(s, WaitElapsed(now)).aborted ==
            Some(if now + 1.0 >= expiry then LeaseExpired else LeaseRenewalTimeout)
  {
    hide Schedulable, Guarded, Honest, Plausible;
    assert Begins(v, offset) by { StartBegins(v, offset, started, received); }
    var earlier, last := events[..|events| - 1], events[|events| - 1];
    LastEvent(v, events, offset);
    EarlierIsOn(v, events, offset);
    RenewalsComeAtTheInterval(v, earlier, offset, started, received, last.now);
    WorkGoesOnExactlyWhileRenewed(v, events, offset);
    assert InTime(v.state.ttlSeconds, v.state.deadline, events, |events| - 1);
    RunKeepsInterval(v, earlier);
    SentRenewalWaits(AfterEvents(v, earlier), last);
  }

  lemma SentRenewalWaits(v: Supervised, e: Event)
    requires e.RenewalDue? && !Over(v.state) && !Over(Step(v.state, e))
    ensures var s := Step(v.state, e);
            s.inFlight == Some(e.now) && s.deadline == v.state.deadline &&
            s.waitTimer == Some(e.now + Min(v.state.intervalMs as real, v.state.deadline - e.now))
  {
  }

  // Whatever ends supervision, the work is told why: an error of the store as it is, a timeout for a renewal that
  // takes too long while the lease still runs, the expiry of the lease for everything else. Only its own end tells it
  // nothing.
  lemma EndTellsWhy(v: Supervised, events: seq<Event>, offset: real)
    requires events != [] && Schedulable(v, events, offset) && Over(AfterEvents(v, events).state)
    requires !Over(AfterEvents(v, events[..|events| - 1]).state)
    ensures var s, last := AfterEvents(v, events).state, events[|events| - 1];
            (s.aborted.None? <==> last.WorkSettled?) &&
            (s.aborted.Some? ==>
               (last.Rejected? ==> s.aborted.value == last.reason) &&
               (s.aborted.value == LeaseRenewalTimeout && !last.Rejected? ==> last.WaitElapsed?) &&
               (!last.Rejected? && !last.WaitElapsed? ==> s.aborted.value == LeaseExpired))
  {
    hide Schedulable, Honest, Plausible;
    LastEvent(v, events, offset);
  }

  predicate NothingArmed(s: State) {
    s.stopped && s.deadlineTimer.None? && s.renewalTimer.None? && s.waitTimer.None?
  }

  // Once the work has settled no timer is armed, whatever answers still arrive.
  lemma {:induction false} SettledWorkLeavesNothingArmed(v: Supervised, now: real, events: seq<Event>)
    ensures NothingArmed(AfterEvents(Advance(v, WorkSettled(now)), events).state)
  {
    NothingIsArmedAgain(Advance(v, WorkSettled(now)), events);
  }

  lemma {:induction false} NothingIsArmedAgain(v: Supervised, events: seq<Event>)
    requires NothingArmed(v.state)
    ensures NothingArmed(AfterEvents(v, events).state)
    decreases |events|
  {
    if events == [] {
    } else {
      NothingIsArmedAgain(Advance(v, events[0]), events[1..]);
    }
  }
}
