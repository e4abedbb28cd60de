// The operator transport: one pending request at a time, and capabilities that verify once.
module OperatorTransport {
  import opened Options

  // An identifier, digest or nonce. The transport only compares these for equality.
  type Token(==, !new)

  datatype Kind = Challenge | Checkpoint

  // The subject is the payment intent of a challenge, or the event of a checkpoint.
  datatype Binding = Binding(attemptId: Token, fence: Token, caseId: Token, subject: Token)

  datatype SignalType = Complete | Abort | CheckpointReached

  datatype Signal = Signal(kind: SignalType, candidateSha: Token, attemptId: Token, caseId: Token, nonce: Token)

  datatype Failure = Closed | BindingInvalid | AttemptBindingMismatch | RequestInProgress | NonceUnavailable |
    NonceReused | SignalTimeout | TransportFailed | Aborted

  datatype Settlement = Resolved(capability: nat) | Rejected(why: Failure)

  // A request that was published, and what became of its promise.
  datatype Request = Request(kind: Kind, binding: Binding, nonce: Token, settled: Option<Settlement>)

  datatype Record = Record(kind: Kind, binding: Binding, expiresAt: int, used: bool)

  datatype Config = Config(candidateSha: Token, attemptId: Token, capabilityTtlMs: nat)

  // Requests are numbered in the order of their publication and capabilities in the order of their creation. `timers`
  // are the requests whose timers are armed.
  datatype State = State(
    closed: bool, active: Option<nat>, timers: set<nat>, nonces: set<Token>, requests: seq<Request>,
    capabilities: seq<Record>)

  const INITIAL: State := State(false, None, {}, {}, [], [])

  // ---------- Steps ----------

  function FinishPending(s: State, outcome: Settlement): State {
    if s.active.None? || s.active.value >= |s.requests| then s
    else
      var i := s.active.value;
      s.(active := None, timers := s.timers - {i},
         requests := s.requests[i := s.requests[i].(settled := Some(outcome))])
  }

  // Why a request is turned away before it is published; `nonce` is None when the random source fails.
  function IssueRefusal(c: Config, s: State, binding: Binding, valid: bool, nonce: Option<Token>): Option<Failure> {
    if s.closed then Some(Closed)
    else if !valid then Some(BindingInvalid)
    else if binding.attemptId != c.attemptId then Some(AttemptBindingMismatch)
    else if s.active.Some? then Some(RequestInProgress)
    else if nonce.None? then Some(NonceUnavailable)
    else if nonce.value in s.nonces then Some(NonceReused)
    else None
  }

  function Issue(c: Config, s: State, kind: Kind, binding: Binding, valid: bool, nonce: Option<Token>): State {
    if IssueRefusal(c, s, binding, valid, nonce).Some? then s
    else
      s.(nonces := s.nonces + {nonce.value}, active := Some(|s.requests|), timers := s.timers + {|s.requests|},
         requests := s.requests + [Request(kind, binding, nonce.value, None)])
  }

  predicate TypeAnswers(kind: Kind, t: SignalType) {
    t == Abort || (kind == Challenge && t == Complete) || (kind == Checkpoint && t == CheckpointReached)
  }

  // A well-formed signal that names the pending request in every field.
  predicate Answers(c: Config, r: Request, signal: Signal) {
    signal.caseId == r.binding.caseId && signal.candidateSha == c.candidateSha &&
    signal.attemptId == r.binding.attemptId &&
    signal.nonce == r.nonce && TypeAnswers(r.kind, signal.kind)
  }

  // A signal that cannot be parsed is None.
  predicate Accepts(c: Config, s: State, raw: Option<Signal>) {
    !s.closed && s.active.Some? && s.active.value < |s.requests| && raw.Some? &&
    Answers(c, s.requests[s.active.value], raw.value)
  }

  function AcceptSignal(c: Config, s: State, raw: Option<Signal>, now: int): State {
    if !Accepts(c, s, raw) then s
    else if raw.value.kind == Abort then FinishPending(s, Rejected(Aborted))
    else
      var r := s.requests[s.active.value];
      FinishPending(s.(capabilities := s.capabilities + [Record(r.kind, r.binding, now + c.capabilityTtlMs, false)]),
                    Resolved(|s.capabilities|))
  }

  // A capability that was not made here has no record.
  predicate Verifies(s: State, kind: Kind, capability: Option<nat>, binding: Binding, now: int) {
    capability.Some? && capability.value < |s.capabilities| &&
    var record := s.capabilities[capability.value];
    !record.used && !s.closed && record.kind == kind && now < record.expiresAt && record.binding == binding
  }

  // Any attempt to verify uses the capability up, whether or not it succeeds.
  function Verify(s: State, capability: Option<nat>): State {
    if capability.Some? && capability.value < |s.capabilities| then
      s.(capabilities := s.capabilities[capability.value := s.capabilities[capability.value].(used := true)])
    else s
  }

  function Close(s: State): State {
    if s.closed then s else FinishPending(s.(closed := true), Rejected(Closed)).(nonces := {})
  }

  // The timer of request `i` goes off: whatever request is pending then is given up.
  function TimeOut(s: State, i: nat): State {
    if i in s.timers then FinishPending(s.(timers := s.timers - {i}), Rejected(SignalTimeout)) else s
  }

  // The publication of request `i` fails: the pending request is given up if it has the nonce that was published.
  function FailPublication(s: State, i: nat): State {
    if i < |s.requests| && s.active.Some? && s.active.value < |s.requests| &&
       s.requests[s.active.value].nonce == s.requests[i].nonce then FinishPending(s, Rejected(TransportFailed))
    else s
  }

  // ---------- The transport ----------

  class Transport {
    const config: Config
    var closed: bool
    var active: Option<nat>
    var timers: set<nat>
    var nonces: set<Token>
    var requests: seq<Request>
    var capabilities: seq<Record>

    function Value(): State reads this {
      State(closed, active, timers, nonces, requests, capabilities)
    }

    ghost predicate Valid() reads this {
      Sound(Value())
    }

    constructor (config: Config)
      ensures this.config == config && Value() == INITIAL && Valid()
    {
      this.config := config;
      closed, active, timers, nonces, requests, capabilities := false, None, {}, {}, [], [];
    }

    method SettlePending(outcome: Settlement) returns (settled: bool)
      requires active.Some? ==> active.value < |requests|
      modifies this`active, this`timers, this`requests
      ensures settled <==> old(active).Some?
      ensures Value() == FinishPending(old(Value()), outcome)
    {
      if active.None? { return false; }
      var current := active.value;
      active := None;
      timers := timers - {current};
      requests := requests[current := requests[current].(settled := Some(outcome))];
      settled := true;
    }

    method Obtain(kind: Kind, binding: Binding, valid: bool, nonce: Option<Token>) returns (refusal: Option<Failure>)
      requires Valid()
      modifies this
      ensures refusal == IssueRefusal(config, old(Value()), binding, valid, nonce)
      ensures Value() == Issue(config, old(Value()), kind, binding, valid, nonce) && Valid()
    {
      IssueKeepsSound(config, Value(), kind, binding, valid, nonce);
      if closed { return Some(Closed); }
      if !valid { return Some(BindingInvalid); }
      if binding.attemptId != config.attemptId { return Some(AttemptBindingMismatch); }
      if active.Some? { return Some(RequestInProgress); }
      if nonce.None? { return Some(NonceUnavailable); }
      if nonce.value in nonces { return Some(NonceReused); }
      nonces := nonces + {nonce.value};
      active, timers := Some(|requests|), timers + {|requests|};
      requests := requests + [Request(kind, binding, nonce.value, None)];
      refusal := None;
    }

    method OnTimer(i: nat)
      requires Valid() && i in timers
      modifies this
      ensures Value() == TimeOut(old(Value()), i) && Valid()
    {
      TimeOutKeepsSound(Value(), i);
      timers := timers - {i};
      var settled := SettlePending(Rejected(SignalTimeout));
    }

    method OnPublicationFailure(i: nat)
      requires Valid() && i < |requests|
      modifies this
      ensures Value() == FailPublication(old(Value()), i) && Valid()
    {
      FailPublicationKeepsSound(Value(), i);
      if active.Some? && requests[active.value].nonce == requests[i].nonce {
        var settled := SettlePending(Rejected(TransportFailed));
      }
    }

    method OnSignal(raw: Option<Signal>, now: int) returns (accepted: bool)
      requires Valid()
      modifies this
      ensures accepted <==> Accepts(config, old(Value()), raw)
      ensures Value() == AcceptSignal(config, old(Value()), raw, now) && Valid()
    {
      SignalKeepsSound(config, Value(), raw, now);
      if closed || active.None? { return false; }
      var current := requests[active.value];
      if raw.None? || !Answers(config, current, raw.value) { return false; }
      if raw.value.kind == Abort {
        var aborted := SettlePending(Rejected(Aborted));
        return true;
      }
      var capability := |capabilities|;
      capabilities := capabilities + [Record(current.kind, current.binding, now + config.capabilityTtlMs, false)];
      accepted := SettlePending(Resolved(capability));
    }

    method IsOpaqueCapability(kind: Kind, capability: Option<nat>, binding: Binding, now: int) returns (usable: bool)
      ensures usable <==> Verifies(Value(), kind, capability, binding, now)
    {
      if capability.None? || capability.value >= |capabilities| { return false; }
      var record := capabilities[capability.value];
      if closed || record.used || record.kind != kind || now >= record.expiresAt { return false; }
      usable := record.binding == binding;
    }

    method VerifyOnce(kind: Kind, capability: Option<nat>, binding: Binding, now: int) returns (verified: bool)
      requires Valid()
      modifies this
      ensures verified <==> Verifies(old(Value()), kind, capability, binding, now)
      ensures Value() == Verify(old(Value()), capability) && Valid()
    {
      VerifyKeepsSound(Value(), capability);
      if capability.None? || capability.value >= |capabilities| { return false; }
      var record := capabilities[capability.value];
      if record.used { return false; }
      capabilities := capabilities[capability.value := record.(used := true)];
      verified := !closed && record.kind == kind && now < record.expiresAt && record.binding == binding;
    }

    method Shut()
      requires Valid()
      modifies this
      ensures Value() == Close(old(Value())) && Valid()
    {
      CloseKeepsSound(Value());
      if closed { return; }
      closed := true;
      var settled := SettlePending(Rejected(Closed));
      nonces := {};
    }
  }

  // ---------- What every step keeps ----------

  // The one pending request is the only unsettled one, and the only one with an armed timer.
  predicate OnePending(s: State) {
    s.timers == (if s.active.Some? then {s.active.value} else {}) &&
    (s.active.Some? ==> s.active.value < |s.requests|) &&
    (forall i :: 0 <= i < |s.requests| ==> (s.requests[i].settled.None? <==> s.active == Some(i))) &&
    (s.closed ==> s.active.None?)
  }

  predicate NoncesDiffer(s: State) {
    (!s.closed ==> forall i :: 0 <= i < |s.requests| ==> s.requests[i].nonce in s.nonces) &&
    forall i, j :: 0 <= i < j < |s.requests| ==> s.requests[i].nonce != s.requests[j].nonce
  }

  // Request `i` was resolved with capability `c`, made in its kind and binding.
  predicate Holds(s: State, i: int, c: nat) {
    0 <= i < |s.requests| && c < |s.capabilities| && s.requests[i].settled == Some(Resolved(c)) &&
    s.capabilities[c].kind == s.requests[i].kind && s.capabilities[c].binding == s.requests[i].binding
  }

  ghost predicate Held(s: State, c: nat) {
    exists i :: Holds(s, i, c)
  }

  ghost predicate CapabilitiesAgree(s: State) {
    (forall c :: 0 <= c < |s.capabilities| ==> Held(s, c)) && |s.capabilities| == Resolutions(s.requests)
  }

  ghost predicate Sound(s: State) {
    OnePending(s) && NoncesDiffer(s) && CapabilitiesAgree(s)
  }

  function Resolutions(requests: seq<Request>): nat {
    if requests == [] then 0
    else
      var last := requests[|requests| - 1];
      Resolutions(requests[..|requests| - 1]) + (if last.settled.Some? && last.settled.value.Resolved? then 1 else 0)
  }

  lemma {:induction false} ResolutionsAfterSettling(requests: seq<Request>, i: nat, outcome: Settlement)
    requires i < |requests| && requests[i].settled.None?
    ensures Resolutions(requests[i := requests[i].(settled := Some(outcome))]) ==
            Resolutions(requests) + if outcome.Resolved? then 1 else 0
  {
    var after := requests[i := requests[i].(settled := Some(outcome))];
    var n := |requests| - 1;
    if i < n {
      ResolutionsAfterSettling(requests[..n], i, outcome);
      assert after[..n] == requests[..n][i := requests[i].(settled := Some(outcome))];
    } else {
      assert after[..n] == requests[..n];
    }
  }

  lemma KeepsHolders(s: State, after: State)
    requires CapabilitiesAgree(s) && OnePending(s) && |after.requests| >= |s.requests| &&
             |after.capabilities| >= |s.capabilities|
    requires forall i :: 0 <= i < |s.requests| && s.requests[i].settled.Some? ==> after.requests[i] == s.requests[i]
    requires forall c :: 0 <= c < |s.capabilities| ==>
               after.capabilities[c].kind == s.capabilities[c].kind &&
               after.capabilities[c].binding == s.capabilities[c].binding
    ensures forall c :: 0 <= c < |s.capabilities| ==> Held(after, c)
  {
    hide OnePending, Resolutions;
    forall c | 0 <= c < |s.capabilities| ensures Held(after, c) {
      assert Held(s, c);
      var i :| Holds(s, i, c);
      assert Holds(after, i, c);
    }
  }

  lemma IssueKeepsSound(c: Config, s: State, kind: Kind, binding: Binding, valid: bool, nonce: Option<Token>)
    requires Sound(s)
    ensures Sound(Issue(c, s, kind, binding, valid, nonce))
  {
    var after := Issue(c, s, kind, binding, valid, nonce);
    if after != s {
      assert after.requests[..|s.requests|] == s.requests;
      KeepsHolders(s, after);
      hide Holds;
    }
  }

  lemma FinishKeepsSound(s: State, why: Failure)
    requires Sound(s)
    ensures Sound(FinishPending(s, Rejected(why)))
  {
    if s.active.Some? {
      ResolutionsAfterSettling(s.requests, s.active.value, Rejected(why));
      KeepsHolders(s, FinishPending(s, Rejected(why)));
      hide Holds, Resolutions;
    }
  }

  lemma TimeOutKeepsSound(s: State, i: nat)
    requires Sound(s)
    ensures Sound(TimeOut(s, i))
  {
    if i in s.timers {
      assert TimeOut(s, i) == FinishPending(s, Rejected(SignalTimeout));
      FinishKeepsSound(s, SignalTimeout);
    }
    hide CapabilitiesAgree, NoncesDiffer;
  }

  lemma FailPublicationKeepsSound(s: State, i: nat)
    requires Sound(s)
    ensures Sound(FailPublication(s, i))
  {
    FinishKeepsSound(s, TransportFailed);
    hide CapabilitiesAgree, NoncesDiffer;
  }

  lemma SignalKeepsSound(c: Config, s: State, raw: Option<Signal>, now: int)
    requires Sound(s)
    ensures Sound(AcceptSignal(c, s, raw, now))
  {
    if Accepts(c, s, raw) {
      if raw.value.kind == Abort {
        FinishKeepsSound(s, Aborted);
      } else {
        var after := AcceptSignal(c, s, raw, now);
        ResolutionsAfterSettling(s.requests, s.active.value, Resolved(|s.capabilities|));
        KeepsHolders(s, after);
        assert Holds(after, s.active.value, |s.capabilities|);
        hide Holds, Resolutions;
      }
    }
  }

  lemma VerifyKeepsSound(s: State, capability: Option<nat>)
    requires Sound(s)
    ensures Sound(Verify(s, capability))
  {
    KeepsHolders(s, Verify(s, capability));
    hide Holds, Resolutions;
  }

  lemma CloseKeepsSound(s: State)
    requires Sound(s)
    ensures Sound(Close(s))
  {
    if !s.closed {
      FinishKeepsSound(s, Closed);
      var settled := FinishPending(s, Rejected(Closed));
      assert Close(s) == settled.(closed := true, nonces := {});
      KeepsHolders(settled, Close(s));
      hide Holds, Resolutions;
    }
  }

  // ---------- Runs ----------

  datatype Event =
    | Issuing(kind: Kind, binding: Binding, valid: bool, nonce: Option<Token>)
    | TimingOut(request: nat)
    | PublicationFailing(request: nat)
    | Signalling(raw: Option<Signal>, now: int)
    | Verifying(kind: Kind, capability: Option<nat>, binding: Binding, now: int)
    | Closing

  function Step(c: Config, s: State, e: Event): State {
    match e
    case Issuing(kind, binding, valid, nonce) => Issue(c, s, kind, binding, valid, nonce)
    case TimingOut(i) => TimeOut(s, i)
    case PublicationFailing(i) => FailPublication(s, i)
    case Signalling(raw, now) => AcceptSignal(c, s, raw, now)
    case Verifying(_, capability, _, _) => Verify(s, capability)
    case Closing => Close(s)
  }

  lemma StepKeepsSound(c: Config, s: State, e: Event)
    requires Sound(s)
    ensures Sound(Step(c, s, e))
  {
    match e
    case Issuing(kind, binding, valid, nonce) => IssueKeepsSound(c, s, kind, binding, valid, nonce);
    case TimingOut(i) => TimeOutKeepsSound(s, i);
    case PublicationFailing(i) => FailPublicationKeepsSound(s, i);
    case Signalling(raw, now) => SignalKeepsSound(c, s, raw, now);
    case Verifying(_, capability, _, _) => VerifyKeepsSound(s, capability);
    case Closing => CloseKeepsSound(s);
  }

  function AfterEvents(c: Config, s: State, events: seq<Event>): State
    decreases |events|
  {
    if events == [] then s else AfterEvents(c, Step(c, s, events[0]), events[1..])
  }

  lemma {:induction false} RunKeepsSound(c: Config, s: State, events: seq<Event>)
    requires Sound(s)
    ensures Sound(AfterEvents(c, s, events))
    decreases |events|
  {
    hide Sound, Step;
    if events == [] {
    } else {
      StepKeepsSound(c, s, events[0]);
      RunKeepsSound(c, Step(c, s, events[0]), events[1..]);
    }
  }

  // ---------- Requests settle once ----------

  ghost predicate RequestsEndure(s: State, after: State) {
    |s.requests| <= |after.requests| && |s.capabilities| <= |after.capabilities| && (s.closed ==> after.closed) &&
    (forall i :: 0 <= i < |s.requests| ==>
       after.requests[i].(settled := None) == s.requests[i].(settled := None) &&
       (s.requests[i].settled.Some? ==> after.requests[i] == s.requests[i])) &&
    (forall k :: 0 <= k < |s.capabilities| ==>
       after.capabilities[k].(used := true) == s.capabilities[k].(used := true) &&
       (s.capabilities[k].used ==> after.capabilities[k].used))
  }

  lemma StepEndures(c: Config, s: State, e: Event)
    requires Sound(s)
    ensures RequestsEndure(s, Step(c, s, e))
  {
    hide NoncesDiffer, CapabilitiesAgree;
  }

  // A settled request is never settled again, and a used capability never becomes fresh.
  lemma {:induction false} RunEndures(c: Config, s: State, events: seq<Event>)
    requires Sound(s)
    ensures RequestsEndure(s, AfterEvents(c, s, events))
    decreases |events|
  {
    if events == [] {
    } else {
      StepKeepsSound(c, s, events[0]);
      StepEndures(c, s, events[0]);
      hide Step, Sound;
      RunEndures(c, Step(c, s, events[0]), events[1..]);
    }
  }

  // In any run, a timer that goes off settles the request it was armed for, and that one only; so does a publication
  // that fails while its request is pending, and one that fails later settles nothing.
  lemma FailuresEndTheirOwnRequest(c: Config, events: seq<Event>, i: nat)
    ensures var s := AfterEvents(c, INITIAL, events);
            i in s.timers ==>
              i < |s.requests| && s.requests[i].settled.None? &&
              TimeOut(s, i).requests == s.requests[i := s.requests[i].(settled := Some(Rejected(SignalTimeout)))]
    ensures var s := AfterEvents(c, INITIAL, events);
            i < |s.requests| ==>
              FailPublication(s, i).requests ==
              if s.requests[i].settled.None? then
                s.requests[i := s.requests[i].(settled := Some(Rejected(TransportFailed)))]
              else s.requests
  {
    hide AfterEvents, CapabilitiesAgree;
    InitialIsSound();
    RunKeepsSound(c, INITIAL, events);
    var s := AfterEvents(c, INITIAL, events);
    if i < |s.requests| && s.active.Some? && s.active.value != i {
      assert s.requests[s.active.value].nonce != s.requests[i].nonce;
    }
  }

  // ---------- Capabilities verify once ----------

  predicate VerifiesNow(s: State, e: Event) {
    e.Verifying? && Verifies(s, e.kind, e.capability, e.binding, e.now)
  }

  // How often capability `k` verifies in a run.
  function Verifications(c: Config, s: State, events: seq<Event>, k: nat): nat
    decreases |events|
  {
    if events == [] then 0
    else
      (if VerifiesNow(s, events[0]) && events[0].capability == Some(k) then 1 else 0) +
      Verifications(c, Step(c, s, events[0]), events[1..], k)
  }

  lemma {:induction false} UsedNeverVerifies(c: Config, s: State, events: seq<Event>, k: nat)
    requires Sound(s) && k < |s.capabilities| && s.capabilities[k].used
    ensures Verifications(c, s, events, k) == 0
    decreases |events|
  {
    if events == [] {
    } else {
      StepKeepsSound(c, s, events[0]);
      StepEndures(c, s, events[0]);
      hide Step, Sound;
      UsedNeverVerifies(c, Step(c, s, events[0]), events[1..], k);
    }
  }

  lemma {:induction false} CapabilityVerifiesOnce(c: Config, s: State, events: seq<Event>, k: nat)
    requires Sound(s)
    ensures Verifications(c, s, events, k) <= 1
    decreases |events|
  {
    if events == [] {
    } else {
      StepKeepsSound(c, s, events[0]);
      var next := Step(c, s, events[0]);
      if VerifiesNow(s, events[0]) && events[0].capability == Some(k) {
        assert k < |next.capabilities| && next.capabilities[k].used;
        hide Step, Sound;
        UsedNeverVerifies(c, next, events[1..], k);
      } else {
        hide Step, Sound;
        CapabilityVerifiesOnce(c, next, events[1..], k);
      }
    }
  }

  // What verifies was given for one request of that kind and binding, is unused and unexpired, and the transport is
  // open.
  lemma VerifiedCapabilityBelongsToARequest(c: Config, events: seq<Event>, kind: Kind, capability: Option<nat>,
                                            binding: Binding, now: int)
    requires Verifies(AfterEvents(c, INITIAL, events), kind, capability, binding, now)
    ensures var s := AfterEvents(c, INITIAL, events);
            !s.closed && now < s.capabilities[capability.value].expiresAt && !s.capabilities[capability.value].used &&
            exists i :: Holds(s, i, capability.value) && s.requests[i].kind == kind && s.requests[i].binding == binding
  {
    hide AfterEvents;
    InitialIsSound();
    RunKeepsSound(c, INITIAL, events);
    var s := AfterEvents(c, INITIAL, events);
    assert Held(s, capability.value);
    var i :| Holds(s, i, capability.value);
  }

  lemma InitialIsSound()
    ensures Sound(INITIAL)
  {
  }

  // ---------- Counting ----------

  function Used(capabilities: seq<Record>): nat {
    if capabilities == [] then 0
    else Used(capabilities[..|capabilities| - 1]) + if capabilities[|capabilities| - 1].used then 1 else 0
  }

  lemma {:induction false} UsedIsBounded(capabilities: seq<Record>)
    ensures Used(capabilities) <= |capabilities|
  {
    if capabilities == [] {
    } else {
      UsedIsBounded(capabilities[..|capabilities| - 1]);
    }
  }

  lemma {:induction false} UsedAfterUse(capabilities: seq<Record>, k: nat)
    requires k < |capabilities|
    ensures Used(capabilities[k := capabilities[k].(used := true)]) ==
            Used(capabilities) + if capabilities[k].used then 0 else 1
  {
    var after := capabilities[k := capabilities[k].(used := true)];
    var n := |capabilities| - 1;
    if k < n {
      UsedAfterUse(capabilities[..n], k);
      assert after[..n] == capabilities[..n][k := capabilities[k].(used := true)];
    } else {
      assert after[..n] == capabilities[..n];
    }
  }

  lemma UsedAfterCreation(capabilities: seq<Record>, r: Record)
    requires !r.used
    ensures Used(capabilities + [r]) == Used(capabilities)
  {
    assert (capabilities + [r])[..|capabilities|] == capabilities;
  }

  lemma {:induction false} ResolutionsAreBounded(requests: seq<Request>)
    ensures Resolutions(requests) <= |requests|
  {
    if requests == [] {
    } else {
      ResolutionsAreBounded(requests[..|requests| - 1]);
    }
  }

  datatype Tally = Tally(issued: nat, completed: nat, verified: nat)

  function One(c: Config, s: State, e: Event): Tally {
    Tally(if e.Issuing? && IssueRefusal(c, s, e.binding, e.valid, e.nonce).None? then 1 else 0,
          if e.Signalling? && Accepts(c, s, e.raw) && e.raw.value.kind != Abort then 1 else 0,
          if VerifiesNow(s, e) then 1 else 0)
  }

  // Requests issued, non-abort signals accepted and capabilities verified in a run.
  function Count(c: Config, s: State, events: seq<Event>): Tally
    decreases |events|
  {
    if events == [] then Tally(0, 0, 0)
    else
      var one, rest := One(c, s, events[0]), Count(c, Step(c, s, events[0]), events[1..]);
      Tally(one.issued + rest.issued, one.completed + rest.completed, one.verified + rest.verified)
  }

  lemma StepCounts(c: Config, s: State, e: Event)
    requires Sound(s)
    ensures var one, after := One(c, s, e), Step(c, s, e);
            |after.requests| == |s.requests| + one.issued && |after.capabilities| == |s.capabilities| + one.completed &&
            Used(after.capabilities) >= Used(s.capabilities) + one.verified
  {
    hide NoncesDiffer, CapabilitiesAgree;
    if e.Verifying? && e.capability.Some? && e.capability.value < |s.capabilities| {
      UsedAfterUse(s.capabilities, e.capability.value);
    }
    if e.Signalling? && Accepts(c, s, e.raw) && e.raw.value.kind != Abort {
      var r := s.requests[s.active.value];
      UsedAfterCreation(s.capabilities, Record(r.kind, r.binding, e.now + c.capabilityTtlMs, false));
    }
  }

  lemma {:induction false} RunCounts(c: Config, s: State, events: seq<Event>)
    requires Sound(s)
    ensures var count, end := Count(c, s, events), AfterEvents(c, s, events);
            |end.requests| == |s.requests| + count.issued && |end.capabilities| == |s.capabilities| + count.completed &&
            Used(end.capabilities) >= Used(s.capabilities) + count.verified
    decreases |events|
  {
    if events == [] {
    } else {
      StepKeepsSound(c, s, events[0]);
      StepCounts(c, s, events[0]);
      hide Step, Sound, One, Used;
      RunCounts(c, Step(c, s, events[0]), events[1..]);
    }
  }

  // True verifications never outnumber accepted completions, nor those the issued requests.
  lemma VerificationsAreEarned(c: Config, events: seq<Event>)
    ensures var count := Count(c, INITIAL, events); count.verified <= count.completed <= count.issued
  {
    hide Used, Resolutions;
    InitialIsSound();
    RunCounts(c, INITIAL, events);
    RunKeepsSound(c, INITIAL, events);
    var end := AfterEvents(c, INITIAL, events);
    UsedIsBounded(end.capabilities);
    ResolutionsAreBounded(end.requests);
    assert Used([]) == 0 by { NoneUsed(); }
  }

  lemma NoneUsed()
    ensures Used([]) == 0
  {
  }

  // ---------- Signals are answered once ----------

  // A signal that was accepted is never accepted again, whoever replays it and whenever.
  lemma SignalIsAcceptedOnce(c: Config, s: State, raw: Option<Signal>, now: int, events: seq<Event>)
    requires Sound(s) && Accepts(c, s, raw)
    ensures forall replay: Option<Signal> :: replay.Some? && replay.value.nonce == raw.value.nonce ==>
              !Accepts(c, AfterEvents(c, AcceptSignal(c, s, raw, now), events), replay)
  {
    hide CapabilitiesAgree, AfterEvents;
    var after := AcceptSignal(c, s, raw, now);
    var end := AfterEvents(c, after, events);
    SignalKeepsSound(c, s, raw, now);
    RunKeepsSound(c, after, events);
    RunEndures(c, after, events);
    var i := s.active.value;
    assert after.requests[i].settled.Some? && end.requests[i] == after.requests[i];
    if end.active.Some? && end.active.value != i {
      assert end.requests[end.active.value].nonce != end.requests[i].nonce;
    }
  }

  // Nothing is pending, accepted or verified once the transport is closed.
  lemma ClosedForEver(c: Config, s: State, events: seq<Event>)
    requires Sound(s) && s.closed
    ensures var end := AfterEvents(c, s, events);
            end.closed && end.active.None? && (forall i :: 0 <= i < |end.requests| ==> end.requests[i].settled.Some?) &&
            (forall raw :: !Accepts(c, end, raw)) &&
            forall kind, capability, binding, now :: !Verifies(end, kind, capability, binding, now)
  {
    hide AfterEvents, CapabilitiesAgree, NoncesDiffer;
    RunKeepsSound(c, s, events);
    RunEndures(c, s, events);
  }

  // ---------- When requests, signals and capabilities are accepted ----------

  predicate Unsettled(s: State, i: nat) {
    i < |s.requests| && s.requests[i].settled.None?
  }

  // While the transport is open, the nonces it remembers are those of its requests.
  predicate NoncesAreIssued(s: State) {
    !s.closed ==> forall n :: n in s.nonces ==> exists i :: 0 <= i < |s.requests| && s.requests[i].nonce == n
  }

  lemma FinishKeepsNonces(s: State, outcome: Settlement)
    requires NoncesAreIssued(s)
    ensures NoncesAreIssued(FinishPending(s, outcome))
  {
    var after := FinishPending(s, outcome);
    forall n | !s.closed && n in s.nonces
      ensures exists i :: 0 <= i < |after.requests| && after.requests[i].nonce == n
    {
      var i :| 0 <= i < |s.requests| && s.requests[i].nonce == n;
      assert after.requests[i].nonce == n;
    }
  }

  lemma IssueKeepsNonces(c: Config, s: State, kind: Kind, binding: Binding, valid: bool, nonce: Option<Token>)
    requires NoncesAreIssued(s)
    ensures NoncesAreIssued(Issue(c, s, kind, binding, valid, nonce))
  {
    var after := Issue(c, s, kind, binding, valid, nonce);
    if after != s && !s.closed {
      assert after.requests[|s.requests|].nonce == nonce.value;
      forall n | n in after.nonces ensures exists i :: 0 <= i < |after.requests| && after.requests[i].nonce == n {
        if n in s.nonces {
          var i :| 0 <= i < |s.requests| && s.requests[i].nonce == n;
          assert after.requests[i].nonce == n;
        }
      }
    }
  }

  lemma StepKeepsNonces(c: Config, s: State, e: Event)
    requires NoncesAreIssued(s)
    ensures NoncesAreIssued(Step(c, s, e))
  {
    hide NoncesAreIssued, FinishPending, Issue, IssueRefusal;
    match e
    case Issuing(kind, binding, valid, nonce) => IssueKeepsNonces(c, s, kind, binding, valid, nonce);
    case TimingOut(i) =>
      SameRequestsKeepNonces(s, s.(timers := s.timers - {i}));
      FinishKeepsNonces(s.(timers := s.timers - {i}), Rejected(SignalTimeout));
    case PublicationFailing(i) => FinishKeepsNonces(s, Rejected(TransportFailed));
    case Signalling(raw, now) =>
      FinishKeepsNonces(s, Rejected(Aborted));
      if Accepts(c, s, raw) && raw.value.kind != Abort {
        var r := s.requests[s.active.value];
        var made := s.(capabilities := s.capabilities + [Record(r.kind, r.binding, now + c.capabilityTtlMs, false)]);
        SameRequestsKeepNonces(s, made);
        FinishKeepsNonces(made, Resolved(|s.capabilities|));
      }
    case Verifying(_, capability, _, _) => SameRequestsKeepNonces(s, Verify(s, capability));
    case Closing => ClosedHasNoNonces(s);
  }

  lemma SameRequestsKeepNonces(s: State, after: State)
    requires NoncesAreIssued(s) && after.closed == s.closed && after.nonces == s.nonces && after.requests == s.requests
    ensures NoncesAreIssued(after)
  {
  }

  lemma ClosedHasNoNonces(s: State)
    requires NoncesAreIssued(s)
    ensures NoncesAreIssued(Close(s))
  {
  }

  lemma {:induction false} RunKeepsNonces(c: Config, s: State, events: seq<Event>)
    requires NoncesAreIssued(s)
    ensures NoncesAreIssued(AfterEvents(c, s, events))
    decreases |events|
  {
    hide NoncesAreIssued, Step;
    if events == [] {
    } else {
      StepKeepsNonces(c, s, events[0]);
      RunKeepsNonces(c, Step(c, s, events[0]), events[1..]);
    }
  }

  // In any run, a request is published exactly when the transport is open, the binding is valid and the attempt's own,
  // nothing is unsettled, and the nonce drawn was never a request's before.
  lemma RequestIsIssuedExactlyWhen(c: Config, events: seq<Event>, kind: Kind, binding: Binding, valid: bool,
                                   nonce: Option<Token>)
    ensures var s := AfterEvents(c, INITIAL, events);
            var after := Step(c, s, Issuing(kind, binding, valid, nonce));
            (IssueRefusal(c, s, binding, valid, nonce).None? <==>
             !s.closed && valid && binding.attemptId == c.attemptId && (forall i: nat :: !Unsettled(s, i)) &&
             nonce.Some? &&
             forall i :: 0 <= i < |s.requests| ==> s.requests[i].nonce != nonce.value) &&
            after.requests ==
            if IssueRefusal(c, s, binding, valid, nonce).None? then
              s.requests + [Request(kind, binding, nonce.value, None)]
            else s.requests
  {
    hide AfterEvents, CapabilitiesAgree;
    InitialIsSound();
    RunKeepsSound(c, INITIAL, events);
    RunKeepsNonces(c, INITIAL, events);
    var s := AfterEvents(c, INITIAL, events);
    if s.active.Some? { assert Unsettled(s, s.active.value); }
  }

  // The signal names the request in every field and is of the type that completes its kind, or aborts it.
  predicate Names(c: Config, r: Request, signal: Signal) {
    signal.nonce == r.nonce && signal.candidateSha == c.candidateSha && signal.attemptId == r.binding.attemptId &&
    signal.caseId == r.binding.caseId &&
    (signal.kind == Abort || signal.kind == if r.kind == Challenge then Complete else CheckpointReached)
  }

  // In any run, a signal is accepted exactly when it names the request that is not settled yet.
  lemma SignalIsAcceptedExactlyWhen(c: Config, events: seq<Event>, signal: Signal)
    ensures var s := AfterEvents(c, INITIAL, events);
            Accepts(c, s, Some(signal)) <==> exists i: nat :: Unsettled(s, i) && Names(c, s.requests[i], signal)
  {
    hide AfterEvents, CapabilitiesAgree, NoncesDiffer;
    InitialIsSound();
    RunKeepsSound(c, INITIAL, events);
    var s := AfterEvents(c, INITIAL, events);
    if s.active.Some? { assert Unsettled(s, s.active.value); }
  }

  // Whether the events leave capability `k` alone and the transport open.
  predicate LeavesAlone(events: seq<Event>, k: nat) {
    forall e :: e in events ==> e != Closing && (e.Verifying? ==> e.capability != Some(k))
  }

  predicate SameCapability(s: State, after: State, k: nat) {
    k < |s.capabilities| && k < |after.capabilities| && after.capabilities[k] == s.capabilities[k] &&
    after.closed == s.closed
  }

  lemma StepLeavesAlone(c: Config, s: State, e: Event, k: nat)
    requires k < |s.capabilities| && e != Closing && (e.Verifying? ==> e.capability != Some(k))
    ensures SameCapability(s, Step(c, s, e), k)
  {
  }

  lemma {:induction false} RunLeavesAlone(c: Config, s: State, events: seq<Event>, k: nat)
    requires k < |s.capabilities| && LeavesAlone(events, k)
    ensures SameCapability(s, AfterEvents(c, s, events), k)
    decreases |events|
  {
    hide Step;
    if events == [] {
    } else {
      assert events[0] in events;
      StepLeavesAlone(c, s, events[0], k);
      assert forall e :: e in events[1..] ==> e in events;
      RunLeavesAlone(c, Step(c, s, events[0]), events[1..], k);
    }
  }

  // What an accepted signal gives, unless it aborts, is a capability for the kind and the binding of its request: until
  // it is used or the transport closes it verifies for them, and for nothing else, exactly as long as its time to live
  // has not passed.
  lemma CapabilityLastsItsTime(c: Config, before: seq<Event>, signal: Signal, made: int, after: seq<Event>, kind: Kind,
                               binding: Binding, now: int)
    requires var s := AfterEvents(c, INITIAL, before); Accepts(c, s, Some(signal)) && signal.kind != Abort
    requires LeavesAlone(after, |AfterEvents(c, INITIAL, before).capabilities|)
    ensures var s := AfterEvents(c, INITIAL, before);
            var end := AfterEvents(c, Step(c, s, Signalling(Some(signal), made)), after);
            exists i: nat :: Unsettled(s, i) &&
              (Verifies(end, kind, Some(|s.capabilities|), binding, now) <==>
               kind == s.requests[i].kind && binding == s.requests[i].binding && now < made + c.capabilityTtlMs)
  {
    hide AfterEvents, CapabilitiesAgree, NoncesDiffer;
    InitialIsSound();
    RunKeepsSound(c, INITIAL, before);
    var s := AfterEvents(c, INITIAL, before);
    var next := Step(c, s, Signalling(Some(signal), made));
    assert Unsettled(s, s.active.value);
    assert |next.capabilities| == |s.capabilities| + 1;
    RunLeavesAlone(c, next, after, |s.capabilities|);
  }

  // An accepted signal settles the request it names, and no other: an abort rejects it, any other resolves it with a
  // capability of its own.
  lemma SignalSettlesItsRequest(c: Config, events: seq<Event>, signal: Signal, now: int, i: nat)
    requires var s := AfterEvents(c, INITIAL, events); Unsettled(s, i) && Names(c, s.requests[i], signal)
    ensures var s := AfterEvents(c, INITIAL, events);
            var after := Step(c, s, Signalling(Some(signal), now));
            var outcome := if signal.kind == Abort then Rejected(Aborted) else Resolved(|s.capabilities|);
            after.requests == s.requests[i := s.requests[i].(settled := Some(outcome))] &&
            |after.capabilities| == |s.capabilities| + if signal.kind == Abort then 0 else 1
  {
    hide AfterEvents, CapabilitiesAgree, NoncesDiffer;
    InitialIsSound();
    RunKeepsSound(c, INITIAL, events);
  }

  // Closing rejects what is unsettled and leaves every other request as it is.
  lemma ClosingRejectsWhatIsUnsettled(c: Config, events: seq<Event>, i: nat)
    requires i < |AfterEvents(c, INITIAL, events).requests|
    ensures var s := AfterEvents(c, INITIAL, events);
            var after := Step(c, s, Closing);
            after.closed && |after.requests| == |s.requests| && after.requests[i] ==
              if Unsettled(s, i) then s.requests[i].(settled := Some(Rejected(Closed))) else s.requests[i]
  {
    hide AfterEvents, CapabilitiesAgree, NoncesDiffer;
    InitialIsSound();
    RunKeepsSound(c, INITIAL, events);
  }
}
