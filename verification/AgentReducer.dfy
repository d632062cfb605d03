/**
 The agent's reducer task: snapshot merge, event handling with renumbering, and the advance tick that
 turns elapsed time into events.
 */
module AgentReducer {
  import opened Wrappers
  import opened HostMachine
  import RolloutIds

  const SUSTAINED_FAILURE_THRESHOLD_SECS := 120

  /** The signed manifests, as far as the reducer reads them: channel to policy name to policy. */
  datatype Manifests = Manifests(channels: map<string, string>, policies: map<string, RolloutPolicy>)

  type HostStates = map<string, HostRolloutState>

  /** What the control plane sends to rehydrate a record. Probe state is not part of it. */
  datatype Snapshot = Snapshot(
    rolloutId: string, hostname: string, channel: string, state: HostState, targetClosure: string,
    currentClosureAtDispatch: Option<string>, currentClosure: Option<string>, dispatchedAt: Instant,
    dispatchAckedAt: Option<Instant>, activationStartedAt: Option<Instant>,
    activationCompletedAt: Option<Instant>, soakDueAt: Option<Instant>, lastEventSeq: u64)

  function SnapshotOf(r: HostRolloutState): Snapshot {
    Snapshot(r.rolloutId, r.hostname, r.channel, r.state, r.targetClosure, r.currentClosureAtDispatch,
             r.currentClosure, r.dispatchedAt, r.dispatchAckedAt, r.activationStartedAt,
             r.activationCompletedAt, r.soakDueAt, r.lastEventSeq)
  }

  /** Canonical fields come from the snapshot, agent-local ones from the existing entry if there is one. */
  function MergeSnapshot(existing: Option<HostRolloutState>, snap: Snapshot): HostRolloutState {
    var local := existing.GetOr(NewPending(snap.rolloutId, snap.hostname, snap.channel, snap.targetClosure, 0, 0));
    HostRolloutState(
      snap.rolloutId, snap.hostname, snap.channel, snap.state, snap.targetClosure,
      snap.currentClosureAtDispatch, snap.currentClosure, local.revertedTo, snap.dispatchedAt,
      snap.dispatchAckedAt, snap.activationStartedAt, snap.activationCompletedAt,
      local.activationFailedAt, local.probeObservedFirstAt, local.probeFailureFirstAt, snap.soakDueAt,
      local.convergedAt, local.failedAt, local.policyApplied, local.revertedAt, local.probes, snap.lastEventSeq)
  }

  /** What the control plane decides. */
  predicate TakenFrom(snap: Snapshot, t: HostRolloutState) {
    && t.rolloutId == snap.rolloutId && t.hostname == snap.hostname && t.channel == snap.channel
    && t.state == snap.state && t.targetClosure == snap.targetClosure
    && t.currentClosureAtDispatch == snap.currentClosureAtDispatch && t.currentClosure == snap.currentClosure
    && t.dispatchedAt == snap.dispatchedAt && t.dispatchAckedAt == snap.dispatchAckedAt
    && t.activationStartedAt == snap.activationStartedAt && t.activationCompletedAt == snap.activationCompletedAt
    && t.soakDueAt == snap.soakDueAt && t.lastEventSeq == snap.lastEventSeq
  }

  /** What only the agent knows: its probes and their clocks, and how an earlier attempt ended. */
  predicate KeptFrom(s: HostRolloutState, t: HostRolloutState) {
    && t.probes == s.probes && t.probeObservedFirstAt == s.probeObservedFirstAt
    && t.probeFailureFirstAt == s.probeFailureFirstAt && t.activationFailedAt == s.activationFailedAt
    && t.failedAt == s.failedAt && t.policyApplied == s.policyApplied
    && t.convergedAt == s.convergedAt && t.revertedAt == s.revertedAt && t.revertedTo == s.revertedTo
  }

  predicate NothingKept(t: HostRolloutState) {
    && t.probes == map[] && t.probeObservedFirstAt.None? && t.probeFailureFirstAt.None? && t.activationFailedAt.None?
    && t.failedAt.None? && t.policyApplied.None? && t.convergedAt.None? && t.revertedAt.None? && t.revertedTo.None?
  }

  /** Every field of a merged record comes from one side. */
  lemma MergeByField(existing: Option<HostRolloutState>, snap: Snapshot)
    ensures var t := MergeSnapshot(existing, snap);
            TakenFrom(snap, t) && if existing.Some? then KeptFrom(existing.value, t) else NothingKept(t)
  {}

  function RehydrationEffects(r: HostRolloutState): seq<Effect> {
    if r.state.Pending? then [] else [LocalResetProbeCache(r.rolloutId)]
  }

  function ResolvePolicy(m: Option<Manifests>, channel: string): Option<RolloutPolicy> {
    if m.Some? && channel in m.value.channels && m.value.channels[channel] in m.value.policies
    then Some(m.value.policies[m.value.channels[channel]])
    else None
  }

  /** The next number of a record's event counter; the 64-bit addition wraps. */
  function NextSeq(last: u64): u64 {
    (last + 1) % U64_LIMIT
  }

  /** Renumbers a local event. There is no arm for a deferred activation: it keeps the number it came with. */
  function WithSeq(e: Event, n: u64): Event {
    match e
    case LocalActivate(prior, target, at, soak, _) => LocalActivate(prior, target, at, soak, n)
    case LocalActivationStarted(at, switchMethod, _) => LocalActivationStarted(at, switchMethod, n)
    case LocalActivationCompleted(closure, exit, at, _) => LocalActivationCompleted(closure, exit, at, n)
    case LocalActivationFailed(exit, tail, at, _) => LocalActivationFailed(exit, tail, at, n)
    case LocalProbeObservedFirst(name, mode, at, _) => LocalProbeObservedFirst(name, mode, at, n)
    case LocalProbeResult(name, mode, status, at, reason, subs, _) =>
      LocalProbeResult(name, mode, status, at, reason, subs, n)
    case LocalProbeFailureFirst(name, mode, at, _) => LocalProbeFailureFirst(name, mode, at, n)
    case LocalSustainedFailureCrossed(at, secs, failing, applied, _) =>
      LocalSustainedFailureCrossed(at, secs, failing, applied, n)
    case LocalRollbackCompleted(closure, exit, at, _) => LocalRollbackCompleted(closure, exit, at, n)
    case LocalConvergedReached(at, closure, _) => LocalConvergedReached(at, closure, n)
    case LocalProbeTopologyDeclared(probes, at, _) => LocalProbeTopologyDeclared(probes, at, n)
    case _ => e
  }

  /** `r` is the local event `e` with number `n`, the same in everything else. */
  predicate Numbered(e: Event, n: u64, r: Event)
    requires e.IsLocal()
  {
    && r.IsLocal() && r.seqNo == n
    && match e
       case LocalActivate(prior, target, at, soak, _) =>
         && r.LocalActivate? && r.currentClosureAtDispatch == prior && r.targetClosure == target
         && r.receivedAt == at && r.soakDueAt == soak
       case LocalActivationStarted(at, how, _) => r.LocalActivationStarted? && r.startedAt == at && r.switchMethod == how
       case LocalActivationCompleted(closure, exit, at, _) =>
         r.LocalActivationCompleted? && r.observedCurrentClosure == closure && r.exitCode == exit && r.completedAt == at
       case LocalActivationDeferred(component, at, _) =>
         r.LocalActivationDeferred? && r.component == component && r.deferredAt == at
       case LocalActivationFailed(exit, tail, at, _) =>
         r.LocalActivationFailed? && r.exitCode == exit && r.stderrTail == tail && r.failedAt == at
       case LocalProbeTopologyDeclared(probes, at, _) =>
         r.LocalProbeTopologyDeclared? && r.probes == probes && r.declaredAt == at
       case LocalProbeObservedFirst(name, mode, at, _) =>
         r.LocalProbeObservedFirst? && r.probeName == name && r.mode == mode && r.observedAt == at
       case LocalProbeResult(name, mode, status, at, reason, subs, _) =>
         && r.LocalProbeResult? && r.probeName == name && r.mode == mode && r.status == status
         && r.observedAt == at && r.failureReason == reason && r.subResults == subs
       case LocalProbeFailureFirst(name, mode, at, _) =>
         r.LocalProbeFailureFirst? && r.probeName == name && r.mode == mode && r.firstFailedAt == at
       case LocalSustainedFailureCrossed(at, secs, failing, applied, _) =>
         && r.LocalSustainedFailureCrossed? && r.failedAt == at && r.sustainedDurationSecs == secs
         && r.failingProbes == failing && r.policyApplied == applied
       case LocalRollbackCompleted(closure, exit, at, _) =>
         r.LocalRollbackCompleted? && r.revertedToClosure == closure && r.exitCode == exit && r.completedAt == at
       case LocalConvergedReached(at, closure, _) =>
         r.LocalConvergedReached? && r.convergedAt == at && r.currentClosure == closure
  }

  /** Renumbering writes the number and nothing else; a deferred activation keeps its own. */
  lemma WithSeqIs(e: Event, n: u64)
    requires e.IsLocal()
    ensures Numbered(e, if e.LocalActivationDeferred? then e.seqNo else n, WithSeq(e, n))
  {}

  /** First touch: the channel comes from the rollout id, target and soak deadline from the event. */
  function BootstrapPending(rolloutId: string, target: string, soakDueAt: Instant, now: Instant): HostRolloutState {
    NewPending(rolloutId, "self", RolloutIds.Channel(rolloutId), target, now, soakDueAt)
  }

  // ----- Handling one event

  datatype Handled = Handled(states: HostStates, effects: seq<Effect>)

  /** One event against the record it applies to; a missing policy or a rejection changes nothing. */
  function HandleRecord(states: HostStates, s: HostRolloutState, m: Option<Manifests>, id: string, e: Event): Handled {
    match ResolvePolicy(m, s.channel)
    case None => Handled(states, [])
    case Some(policy) =>
      match Step(s, WithSeq(e, NextSeq(s.lastEventSeq)), policy)
      case Rejected(_) => Handled(states, [])
      case Stepped(next, effects) => Handled(states[id := next], effects)
  }

  function HandleEvent(states: HostStates, m: Option<Manifests>, now: Instant, id: string, e: Event): Handled {
    if id in states then HandleRecord(states, states[id], m, id, e)
    else if e.LocalActivate? then
      HandleRecord(states, BootstrapPending(id, e.targetClosure, e.soakDueAt, now), m, id, e)
    else Handled(states, [])
  }

  // ----- What one event does, on the record's own fields

  /** The channel is declared, with a declared policy. */
  predicate HasPolicy(m: Option<Manifests>, channel: string) {
    m.Some? && channel in m.value.channels && m.value.channels[channel] in m.value.policies
  }

  function PolicyAt(m: Option<Manifests>, channel: string): RolloutPolicy
    requires HasPolicy(m, channel)
  {
    m.value.policies[m.value.channels[channel]]
  }

  /** The policy the agent applies is the one its manifests declare for the channel. */
  lemma ResolvesIff(m: Option<Manifests>, channel: string)
    ensures ResolvePolicy(m, channel).Some? <==> HasPolicy(m, channel)
    ensures HasPolicy(m, channel) ==> ResolvePolicy(m, channel) == Some(PolicyAt(m, channel))
  {}

  /** The record of a rollout the agent has just been told to activate. */
  predicate JustActivated(s: HostRolloutState, id: string, now: Instant, e: Event)
    requires e.LocalActivate?
  {
    && s.rolloutId == id && s.hostname == "self" && s.channel == RolloutIds.Channel(id) && s.state.Activating?
    && s.targetClosure == e.targetClosure && s.currentClosureAtDispatch == Some(e.currentClosureAtDispatch)
    && s.dispatchedAt == now && s.dispatchAckedAt == Some(e.receivedAt) && s.soakDueAt == Some(e.soakDueAt)
    && s.currentClosure.None? && s.revertedTo.None? && s.activationStartedAt.None? && s.activationCompletedAt.None?
    && s.activationFailedAt.None? && s.probeObservedFirstAt.None? && s.probeFailureFirstAt.None?
    && s.convergedAt.None? && s.failedAt.None? && s.policyApplied.None? && s.revertedAt.None?
    && s.probes == map[] && s.lastEventSeq == 1
  }

  /**
   A rollout the agent does not know starts with an activation, if the id's channel has a policy: the record is
   activating, the acknowledgement numbered 1 is reported, and the switch is fired to the event's target. Any
   other event does nothing.
   */
  predicate FirstTouch(before: HostStates, m: Option<Manifests>, now: Instant, id: string, e: Event,
                       after: HostStates, effects: seq<Effect>)
  {
    if e.LocalActivate? && HasPolicy(m, RolloutIds.Channel(id)) then
      && after.Keys == before.Keys + {id}
      && (forall other :: other in before && other != id ==> after[other] == before[other])
      && JustActivated(after[id], id, now, e)
      && effects == [RecordTransition("self", id, Pending, Activating, e.receivedAt),
                     LocalEmitEvent(id, DispatchAck(e.currentClosureAtDispatch, e.receivedAt, 1), true),
                     LocalFireSwitch(id, e.targetClosure)]
    else after == before && effects == []
  }

  /** An accepted event replaces the record and has its effects; a rejected one does nothing. */
  predicate Took(before: HostStates, id: string, out: Outcome, after: HostStates, effects: seq<Effect>) {
    match out
    case Stepped(next, fired) => after == before[id := next] && effects == fired
    case Rejected(_) => after == before && effects == []
  }

  /** A known rollout takes one step of the shared machine, under its channel's policy and the next number. */
  predicate NextTouch(before: HostStates, m: Option<Manifests>, id: string, e: Event,
                      after: HostStates, effects: seq<Effect>)
    requires id in before
  {
    var s := before[id];
    var numbered := WithSeq(e, if s.lastEventSeq + 1 == U64_LIMIT then 0 else s.lastEventSeq + 1);
    if HasPolicy(m, s.channel) then Took(before, id, Step(s, numbered, PolicyAt(m, s.channel)), after, effects)
    else after == before && effects == []
  }

  lemma FirstTouched(states: HostStates, m: Option<Manifests>, now: Instant, id: string, e: Event)
    requires id !in states
    ensures FirstTouch(states, m, now, id, e, HandleEvent(states, m, now, id, e).states,
                       HandleEvent(states, m, now, id, e).effects)
  {
    if e.LocalActivate? {
      var s := BootstrapPending(id, e.targetClosure, e.soakDueAt, now);
      ResolvesIff(m, s.channel);
    }
  }

  lemma RecordTook(states: HostStates, s: HostRolloutState, m: Option<Manifests>, id: string, e: Event, p: RolloutPolicy)
    requires ResolvePolicy(m, s.channel) == Some(p)
    ensures var handled := HandleRecord(states, s, m, id, e);
            Took(states, id, Step(s, WithSeq(e, NextSeq(s.lastEventSeq)), p), handled.states, handled.effects)
  {
  }

  lemma NextNumber(last: u64)
    ensures NextSeq(last) == if last + 1 == U64_LIMIT then 0 else last + 1
  {}

  lemma KnownTouched(states: HostStates, m: Option<Manifests>, id: string, e: Event)
    requires id in states
    ensures var handled := HandleRecord(states, states[id], m, id, e);
            NextTouch(states, m, id, e, handled.states, handled.effects)
  {
    ResolvesIff(m, states[id].channel);
    NextNumber(states[id].lastEventSeq);
    if HasPolicy(m, states[id].channel) {
      RecordTook(states, states[id], m, id, e, PolicyAt(m, states[id].channel));
    }
  }

  lemma NextTouched(states: HostStates, m: Option<Manifests>, now: Instant, id: string, e: Event)
    requires id in states
    ensures NextTouch(states, m, id, e, HandleEvent(states, m, now, id, e).states,
                      HandleEvent(states, m, now, id, e).effects)
  {
    KnownTouched(states, m, id, e);
  }

  // ----- The advance tick

  predicate FailingEnforce(r: ProbeRecord) {
    r.status.Fail? && r.mode.Enforce?
  }

  function FailingSet(probes: map<string, ProbeRecord>): set<string> {
    set name | name in probes && FailingEnforce(probes[name])
  }

  /** The failing set is empty exactly when every enforce-mode probe passes, so the two gates exclude each other. */
  lemma FailingSetEmptyIff(probes: map<string, ProbeRecord>)
    ensures FailingSet(probes) == {} <==> AllEnforcePass(probes)
  {
    if !AllEnforcePass(probes) {
      var name :| name in probes && probes[name].mode.Enforce? && !probes[name].status.Pass?;
      assert name in FailingSet(probes);
    }
    forall name | name in FailingSet(probes) ensures !AllEnforcePass(probes) {
    }
  }

  /** The sustained-failure gate: soaking, a failing enforce probe, and 120 whole seconds since the first failure. */
  predicate FailGate(s: HostRolloutState, now: Instant) {
    && s.state.Soaking?
    && s.probeFailureFirstAt.Some?
    && NumSeconds(now - s.probeFailureFirstAt.value) >= SUSTAINED_FAILURE_THRESHOLD_SECS
    && FailingSet(s.probes) != {}
  }

  /** The convergence gate: soaking, deadline reached, running the target, all enforce probes pass. */
  predicate PassGate(s: HostRolloutState, now: Instant) {
    && s.state.Soaking?
    && s.soakDueAt.Some? && s.soakDueAt.value <= now
    && s.currentClosure == Some(s.targetClosure)
    && AllEnforcePass(s.probes)
  }

  predicate Gated(s: HostRolloutState, now: Instant) {
    FailGate(s, now) || PassGate(s, now)
  }

  /** `e` is an event the tick may synthesise for `s`; the order of the failing names is the map's. */
  predicate SynthEvent(s: HostRolloutState, m: Option<Manifests>, now: Instant, e: Event) {
    if FailGate(s, now) then
      && e.LocalSustainedFailureCrossed?
      && e.failedAt == now
      && e.sustainedDurationSecs == NumSeconds(now - s.probeFailureFirstAt.value)
      && (set name | name in e.failingProbes) == FailingSet(s.probes)
      && e.policyApplied == (match ResolvePolicy(m, s.channel)
                             case Some(p) => p.onHealthFailure
                             case None => Halt)
      && e.seqNo == 0
    else
      PassGate(s, now) && e == LocalConvergedReached(now, s.targetClosure, 0)
  }

  /** The record after a tick, computed from the record alone. */
  function Ticked(s: HostRolloutState, m: Option<Manifests>, now: Instant): HostRolloutState {
    match ResolvePolicy(m, s.channel)
    case None => s
    case Some(p) =>
      if s.lastEventSeq + 1 == U64_LIMIT then s
      else if FailGate(s, now) then FailedState(s, now, p.onHealthFailure, s.lastEventSeq + 1)
      else if PassGate(s, now) then ConvergedState(s, now, s.targetClosure, s.lastEventSeq + 1)
      else s
  }

  /**
   The gates imply what the state machine re-checks: a synthesised event is never rejected (short of the
   counter wrapping), and it moves the record to Failed or Converged exactly as its gate says.
   */
  lemma SynthIsAccepted(states: HostStates, m: Option<Manifests>, now: Instant, id: string, e: Event)
    requires id in states && Gated(states[id], now) && SynthEvent(states[id], m, now, e)
    ensures HandleEvent(states, m, now, id, e).states == states[id := Ticked(states[id], m, now)]
    ensures ResolvePolicy(m, states[id].channel).Some? && states[id].lastEventSeq + 1 < U64_LIMIT ==>
              HandleEvent(states, m, now, id, e).effects != []
  {
    var s := states[id];
    assert states[id := s] == states;
    FailingSetEmptyIff(s.probes);
    if FailGate(s, now) {
      FailAccepted(states, m, now, id, e);
    } else {
      PassAccepted(states, m, now, id, e);
    }
  }

  lemma FailAccepted(states: HostStates, m: Option<Manifests>, now: Instant, id: string, e: Event)
    requires id in states && FailGate(states[id], now) && SynthEvent(states[id], m, now, e)
    requires states[id := states[id]] == states
    ensures HandleEvent(states, m, now, id, e).states == states[id := Ticked(states[id], m, now)]
    ensures ResolvePolicy(m, states[id].channel).Some? && states[id].lastEventSeq + 1 < U64_LIMIT ==>
              HandleEvent(states, m, now, id, e).effects != []
  {
  }

  lemma PassAccepted(states: HostStates, m: Option<Manifests>, now: Instant, id: string, e: Event)
    requires id in states && PassGate(states[id], now) && !FailGate(states[id], now)
    requires SynthEvent(states[id], m, now, e)
    requires states[id := states[id]] == states
    ensures HandleEvent(states, m, now, id, e).states == states[id := Ticked(states[id], m, now)]
    ensures ResolvePolicy(m, states[id].channel).Some? && states[id].lastEventSeq + 1 < U64_LIMIT ==>
              HandleEvent(states, m, now, id, e).effects != []
  {
  }

  /** An enforce probe fails, and the first failure is 120 seconds back. */
  predicate Overdue(s: HostRolloutState, now: Instant) {
    && s.probeFailureFirstAt.Some? && s.probeFailureFirstAt.value + 120 * NANOS_PER_SEC <= now
    && exists name :: name in s.probes && s.probes[name].mode.Enforce? && s.probes[name].status.Fail?
  }

  /** The deadline has come, the host runs its target, and no enforce probe fails; there may be no probes at all. */
  predicate Soaked(s: HostRolloutState, now: Instant) {
    && s.soakDueAt.Some? && s.soakDueAt.value <= now && s.currentClosure == Some(s.targetClosure)
    && forall name :: name in s.probes && s.probes[name].mode.Enforce? ==> s.probes[name].status.Pass?
  }

  /** What a tick makes of one record. */
  predicate TickOutcome(s: HostRolloutState, m: Option<Manifests>, now: Instant, t: HostRolloutState) {
    if !s.state.Soaking? || !HasPolicy(m, s.channel) || s.lastEventSeq + 1 == U64_LIMIT then t == s
    else if Overdue(s, now) then
      t == s.(state := Failed, failedAt := Some(now), policyApplied := Some(PolicyAt(m, s.channel).onHealthFailure),
              lastEventSeq := s.lastEventSeq + 1)
    else if Soaked(s, now) then
      t == s.(state := Converged, convergedAt := Some(now), currentClosure := Some(s.targetClosure),
              lastEventSeq := s.lastEventSeq + 1)
    else t == s
  }

  lemma TickedOutcome(s: HostRolloutState, m: Option<Manifests>, now: Instant)
    ensures TickOutcome(s, m, now, Ticked(s, m, now))
    ensures s.state.Soaking? ==> (FailGate(s, now) <==> Overdue(s, now)) && (PassGate(s, now) <==> Soaked(s, now))
  {
    ResolvesIff(m, s.channel);
    FailingSetEmptyIff(s.probes);
    if FailingSet(s.probes) != {} {
      var name :| name in FailingSet(s.probes);
    }
  }

  /** Exactly the failing enforce probes. */
  ghost predicate ListsFailing(s: HostRolloutState, failing: seq<string>) {
    forall name :: name in failing <==> name in s.probes && s.probes[name].mode.Enforce? && s.probes[name].status.Fail?
  }

  /** What a tick reports of one record, and asks for. */
  function TickEffects(s: HostRolloutState, m: Option<Manifests>, now: Instant, failing: seq<string>): seq<Effect> {
    if !s.state.Soaking? || !HasPolicy(m, s.channel) || s.lastEventSeq + 1 == U64_LIMIT then []
    else if Overdue(s, now) then
      var action := PolicyAt(m, s.channel).onHealthFailure;
      var elapsed := (now - s.probeFailureFirstAt.value) / NANOS_PER_SEC;
      [LocalEmitEvent(s.rolloutId, FailedReport(now, elapsed, failing, action, s.lastEventSeq + 1), true),
       RecordTransition(s.hostname, s.rolloutId, Soaking, Failed, now)]
      + if action.RollbackAndHalt? && s.currentClosureAtDispatch.Some?
        then [LocalFireRollbackTo(s.rolloutId, s.currentClosureAtDispatch.value)] else []
    else if Soaked(s, now) then
      [LocalEmitEvent(s.rolloutId, ConvergedReport(now, s.targetClosure, s.lastEventSeq + 1), true),
       RecordTransition(s.hostname, s.rolloutId, Soaking, Converged, now)]
    else []
  }

  /** The failing probes a synthesised event names. */
  function NamedIn(e: Event): seq<string> {
    if e.LocalSustainedFailureCrossed? then e.failingProbes else []
  }

  lemma FailHas(states: HostStates, m: Option<Manifests>, now: Instant, id: string, e: Event)
    requires id in states && FailGate(states[id], now) && SynthEvent(states[id], m, now, e) && Overdue(states[id], now)
    ensures HandleEvent(states, m, now, id, e).effects == TickEffects(states[id], m, now, NamedIn(e))
  {
    ResolvesIff(m, states[id].channel);
  }

  lemma PassHas(states: HostStates, m: Option<Manifests>, now: Instant, id: string, e: Event)
    requires id in states && PassGate(states[id], now) && SynthEvent(states[id], m, now, e)
    requires !FailGate(states[id], now) && Soaked(states[id], now) && !Overdue(states[id], now)
    ensures HandleEvent(states, m, now, id, e).effects == TickEffects(states[id], m, now, NamedIn(e))
  {
    ResolvesIff(m, states[id].channel);
  }

  /** A synthesised event reports the record's own failure or convergence, under its channel's policy. */
  lemma SynthHas(states: HostStates, m: Option<Manifests>, now: Instant, id: string, e: Event)
    requires id in states && Gated(states[id], now) && SynthEvent(states[id], m, now, e)
    ensures HandleEvent(states, m, now, id, e).effects == TickEffects(states[id], m, now, NamedIn(e))
    ensures Overdue(states[id], now) ==> ListsFailing(states[id], NamedIn(e))
  {
    var s := states[id];
    TickedOutcome(s, m, now);
    if FailGate(s, now) {
      FailHas(states, m, now, id, e);
      forall name ensures name in e.failingProbes <==> name in FailingSet(s.probes) {
        assert name in e.failingProbes <==> name in (set n | n in e.failingProbes);
      }
    } else {
      PassHas(states, m, now, id, e);
    }
  }

  datatype Synth = Synth(rolloutId: string, event: Event)

  function TickedMap(states: HostStates, m: Option<Manifests>, now: Instant): HostStates {
    map id | id in states :: Ticked(states[id], m, now)
  }

  /** Each entry belongs to a gated record and carries the event its gate calls for. */
  ghost predicate SynthSound(states: HostStates, m: Option<Manifests>, now: Instant, synth: seq<Synth>) {
    forall i :: 0 <= i < |synth| ==>
      && synth[i].rolloutId in states
      && Gated(states[synth[i].rolloutId], now)
      && SynthEvent(states[synth[i].rolloutId], m, now, synth[i].event)
  }

  ghost predicate Distinct(synth: seq<Synth>) {
    forall i, j :: 0 <= i < j < |synth| ==> synth[i].rolloutId != synth[j].rolloutId
  }

  ghost predicate Names(synth: seq<Synth>, id: string) {
    exists i :: 0 <= i < |synth| && synth[i].rolloutId == id
  }

  /** The synthesised list names each gated rollout once and nothing else. */
  ghost predicate SynthList(states: HostStates, m: Option<Manifests>, now: Instant, synth: seq<Synth>) {
    && SynthSound(states, m, now, synth)
    && Distinct(synth)
    && forall id :: id in states && Gated(states[id], now) ==> Names(synth, id)
  }

  lemma SynthAppend(synth: seq<Synth>, id: string, e: Event)
    requires Distinct(synth) && !Names(synth, id)
    ensures Distinct(synth + [Synth(id, e)])
    ensures forall n :: Names(synth + [Synth(id, e)], n) <==> Names(synth, n) || n == id
  {
    var longer := synth + [Synth(id, e)];
    assert longer[|synth|].rolloutId == id;
    forall n | Names(synth, n) ensures Names(longer, n) {
      var i :| 0 <= i < |synth| && synth[i].rolloutId == n;
      assert longer[i].rolloutId == n;
    }
  }

  lemma NamesStep(synth: seq<Synth>, k: nat)
    requires Distinct(synth) && k < |synth|
    ensures !Names(synth[..k], synth[k].rolloutId)
    ensures forall id :: Names(synth[..k + 1], id) <==> Names(synth[..k], id) || id == synth[k].rolloutId
  {
    assert synth[..k + 1] == synth[..k] + [Synth(synth[k].rolloutId, synth[k].event)];
    SynthAppend(synth[..k], synth[k].rolloutId, synth[k].event);
  }

  /** The states once the listed rollouts have been handled. */
  ghost function TickedFor(states: HostStates, m: Option<Manifests>, now: Instant, synth: seq<Synth>): HostStates {
    map id | id in states :: if Names(synth, id) then Ticked(states[id], m, now) else states[id]
  }

  lemma TickedStep(states: HostStates, m: Option<Manifests>, now: Instant, synth: seq<Synth>, k: nat)
    requires Distinct(synth) && k < |synth| && synth[k].rolloutId in states
    ensures var id := synth[k].rolloutId;
            && TickedFor(states, m, now, synth[..k])[id] == states[id]
            && TickedFor(states, m, now, synth[..k + 1])
               == TickedFor(states, m, now, synth[..k])[id := Ticked(states[id], m, now)]
  {
    NamesStep(synth, k);
  }

  lemma TickedAll(states: HostStates, m: Option<Manifests>, now: Instant, synth: seq<Synth>)
    requires SynthList(states, m, now, synth)
    ensures TickedFor(states, m, now, synth) == TickedMap(states, m, now)
  {
    forall id | id in states ensures TickedFor(states, m, now, synth)[id] == Ticked(states[id], m, now) {
      if !Gated(states[id], now) { assert Ticked(states[id], m, now) == states[id]; }
    }
  }

  /** Every overdue record's event names its failing probes. */
  ghost predicate AllNamed(states: HostStates, now: Instant, synth: seq<Synth>) {
    forall i :: 0 <= i < |synth| && synth[i].rolloutId in states && Overdue(states[synth[i].rolloutId], now) ==>
      ListsFailing(states[synth[i].rolloutId], NamedIn(synth[i].event))
  }

  lemma SynthNames(states: HostStates, m: Option<Manifests>, now: Instant, synth: seq<Synth>)
    requires SynthList(states, m, now, synth)
    ensures AllNamed(states, now, synth)
  {
    forall i | 0 <= i < |synth| && Overdue(states[synth[i].rolloutId], now)
      ensures ListsFailing(states[synth[i].rolloutId], NamedIn(synth[i].event))
    {
      SynthHas(states, m, now, synth[i].rolloutId, synth[i].event);
    }
  }

  lemma TickedOutcomes(states: HostStates, m: Option<Manifests>, now: Instant)
    ensures forall id :: id in states ==> TickOutcome(states[id], m, now, TickedMap(states, m, now)[id])
  {
    forall id | id in states ensures TickOutcome(states[id], m, now, TickedMap(states, m, now)[id]) {
      TickedOutcome(states[id], m, now);
    }
  }

  /** What the listed events do to the outside, each by the record the tick started from. */
  function SynthEffects(states: HostStates, m: Option<Manifests>, now: Instant, synth: seq<Synth>): seq<Effect>
    requires forall i :: 0 <= i < |synth| ==> synth[i].rolloutId in states
    decreases |synth|
  {
    if synth == [] then []
    else
      var last := synth[|synth| - 1];
      SynthEffects(states, m, now, synth[..|synth| - 1])
      + TickEffects(states[last.rolloutId], m, now, NamedIn(last.event))
  }

  lemma SynthEffectsStep(states: HostStates, m: Option<Manifests>, now: Instant, synth: seq<Synth>, k: nat)
    requires k < |synth| && forall i :: 0 <= i < |synth| ==> synth[i].rolloutId in states
    ensures SynthEffects(states, m, now, synth[..k + 1]) == SynthEffects(states, m, now, synth[..k])
            + TickEffects(states[synth[k].rolloutId], m, now, NamedIn(synth[k].event))
  {
    assert synth[..k + 1][..k] == synth[..k];
  }

  /** The tick handles one more of its events. */
  lemma HandleNext(start: HostStates, m: Option<Manifests>, now: Instant, synth: seq<Synth>, k: nat, states: HostStates,
                   before: seq<Effect>)
    requires SynthList(start, m, now, synth) && k < |synth| && states == TickedFor(start, m, now, synth[..k])
    ensures var out := HandleEvent(states, m, now, synth[k].rolloutId, synth[k].event);
            && out.states == TickedFor(start, m, now, synth[..k + 1])
            && before + SynthEffects(start, m, now, synth[..k]) + out.effects
               == before + SynthEffects(start, m, now, synth[..k + 1])
  {
    var id := synth[k].rolloutId;
    TickedStep(start, m, now, synth, k);
    SynthIsAccepted(states, m, now, id, synth[k].event);
    SynthHas(states, m, now, id, synth[k].event);
    SynthEffectsStep(start, m, now, synth, k);
    ConcatAssociative(before, SynthEffects(start, m, now, synth[..k]),
                      HandleEvent(states, m, now, id, synth[k].event).effects);
  }

  /** Names of the failing enforce probes, in whatever order the map lists them. */
  method CollectFailing(probes: map<string, ProbeRecord>) returns (names: seq<string>)
    ensures (set name | name in names) == FailingSet(probes)
    ensures |names| == |FailingSet(probes)|
  {
    names := [];
    var rest := probes.Keys;
    ghost var seen: set<string> := {};
    while rest != {}
      invariant rest <= probes.Keys
      invariant seen == set name | name in probes && name !in rest && FailingEnforce(probes[name])
      invariant (set name | name in names) == seen && |names| == |seen|
      decreases rest
    {
      var name :| name in rest;
      rest := rest - {name};
      if FailingEnforce(probes[name]) {
        assert (set n | n in names + [name]) == seen + {name};
        names := names + [name];
        seen := seen + {name};
      }
    }
  }

  class Reducer {
    var hostStates: HostStates
    var manifests: Option<Manifests>
    var applied: seq<Effect>

    constructor ()
      ensures hostStates == map[] && manifests == None && applied == []
    {
      hostStates, manifests, applied := map[], None, [];
    }

    method ManifestSetUpdated(m: Manifests)
      modifies this
      ensures manifests == Some(m) && hostStates == old(hostStates) && applied == old(applied)
    {
      manifests := Some(m);
    }

    method ApplyBootstrapSnapshot(snap: Snapshot)
      modifies this
      ensures hostStates == old(hostStates)[snap.rolloutId :=
                MergeSnapshot(if snap.rolloutId in old(hostStates) then Some(old(hostStates)[snap.rolloutId]) else None,
                              snap)]
      ensures hostStates.Keys == old(hostStates).Keys + {snap.rolloutId}
      ensures var t := hostStates[snap.rolloutId];
              TakenFrom(snap, t)
              && if snap.rolloutId in old(hostStates) then KeptFrom(old(hostStates)[snap.rolloutId], t) else NothingKept(t)
      ensures applied == old(applied) + (if snap.state.Pending? then [] else [LocalResetProbeCache(snap.rolloutId)])
      ensures manifests == old(manifests)
    {
      var existing := if snap.rolloutId in hostStates then Some(hostStates[snap.rolloutId]) else None;
      var record := MergeSnapshot(existing, snap);
      MergeByField(existing, snap);
      hostStates := hostStates[snap.rolloutId := record];
      applied := applied + RehydrationEffects(record);
    }

    method RunHostEvent(now: Instant, id: string, e: Event)
      modifies this
      ensures hostStates == HandleEvent(old(hostStates), manifests, now, id, e).states
      ensures applied == old(applied) + HandleEvent(old(hostStates), manifests, now, id, e).effects
      ensures old(applied) <= applied
      ensures var effects := applied[|old(applied)|..];
              if id in old(hostStates) then NextTouch(old(hostStates), manifests, id, e, hostStates, effects)
              else FirstTouch(old(hostStates), manifests, now, id, e, hostStates, effects)
      ensures manifests == old(manifests)
    {
      if id in hostStates { NextTouched(hostStates, manifests, now, id, e); }
      else { FirstTouched(hostStates, manifests, now, id, e); }
      var s: HostRolloutState;
      if id in hostStates {
        s := hostStates[id];
      } else if e.LocalActivate? {
        s := BootstrapPending(id, e.targetClosure, e.soakDueAt, now);
      } else {
        return;
      }
      var policy := ResolvePolicy(manifests, s.channel);
      if policy.None? { return; }
      var out := Step(s, WithSeq(e, NextSeq(s.lastEventSeq)), policy.value);
      if out.Rejected? { return; }
      hostStates := hostStates[id := out.next];
      applied := applied + out.effects;
    }

    /** The fail-gate pass over all records. */
    method CollectFailed(now: Instant) returns (synth: seq<Synth>)
      ensures SynthSound(hostStates, manifests, now, synth) && Distinct(synth)
      ensures forall id :: Names(synth, id) <==> id in hostStates && FailGate(hostStates[id], now)
    {
      synth := [];
      var rest := hostStates.Keys;
      while rest != {}
        invariant rest <= hostStates.Keys
        invariant SynthSound(hostStates, manifests, now, synth) && Distinct(synth)
        invariant forall id :: Names(synth, id) <==>
                    id in hostStates && id !in rest && FailGate(hostStates[id], now)
        decreases rest
      {
        var id :| id in rest;
        rest := rest - {id};
        var s := hostStates[id];
        if s.state.Soaking? && s.probeFailureFirstAt.Some? {
          var elapsed := NumSeconds(now - s.probeFailureFirstAt.value);
          if elapsed >= SUSTAINED_FAILURE_THRESHOLD_SECS {
            var failing := CollectFailing(s.probes);
            if failing != [] {
              assert failing[0] in FailingSet(s.probes);
              var policy := ResolvePolicy(manifests, s.channel);
              var action := if policy.Some? then policy.value.onHealthFailure else Halt;
              var e := LocalSustainedFailureCrossed(now, elapsed, failing, action, 0);
              SynthAppend(synth, id, e);
              synth := synth + [Synth(id, e)];
            }
          }
        }
      }
    }

    /** The pass-gate pass, appending to what the fail-gate pass collected. */
    method CollectConverged(now: Instant, failed: seq<Synth>) returns (synth: seq<Synth>)
      requires SynthSound(hostStates, manifests, now, failed) && Distinct(failed)
      requires forall id :: Names(failed, id) <==> id in hostStates && FailGate(hostStates[id], now)
      ensures SynthList(hostStates, manifests, now, synth)
    {
      synth := failed;
      var rest := hostStates.Keys;
      while rest != {}
        invariant rest <= hostStates.Keys
        invariant SynthSound(hostStates, manifests, now, synth) && Distinct(synth)
        invariant forall id :: Names(synth, id) <==>
                    id in hostStates && (FailGate(hostStates[id], now) || (id !in rest && PassGate(hostStates[id], now)))
        decreases rest
      {
        var id :| id in rest;
        rest := rest - {id};
        var s := hostStates[id];
        FailingSetEmptyIff(s.probes);
        if s.state.Soaking? && s.soakDueAt.Some? && s.soakDueAt.value <= now
           && s.currentClosure.Some? && s.currentClosure.value == s.targetClosure && AllEnforcePass(s.probes)
        {
          var e := LocalConvergedReached(now, s.currentClosure.value, 0);
          SynthAppend(synth, id, e);
          synth := synth + [Synth(id, e)];
        }
      }
    }

    /**
     The advance tick. Whatever order the maps are walked in, every record ends as `Ticked` says, and the
     events handled are one for each gated rollout; their effects are applied in the order of the list, none
     of them influenced by another.
     */
    method RunAdvanceTick(now: Instant) returns (synth: seq<Synth>)
      modifies this
      ensures SynthList(old(hostStates), old(manifests), now, synth)
      ensures AllNamed(old(hostStates), now, synth)
      ensures hostStates == TickedMap(old(hostStates), old(manifests), now)
      ensures hostStates.Keys == old(hostStates).Keys
      ensures forall id :: id in hostStates ==> TickOutcome(old(hostStates)[id], old(manifests), now, hostStates[id])
      ensures applied == old(applied) + SynthEffects(old(hostStates), old(manifests), now, synth)
      ensures manifests == old(manifests)
    {
      var failed := CollectFailed(now);
      synth := CollectConverged(now, failed);
      ghost var start := hostStates;
      SynthNames(start, manifests, now, synth);
      for k := 0 to |synth|
        invariant manifests == old(manifests)
        invariant hostStates == TickedFor(start, manifests, now, synth[..k])
        invariant applied == old(applied) + SynthEffects(start, manifests, now, synth[..k])
      {
        HandleNext(start, manifests, now, synth, k, hostStates, old(applied));
        RunHostEvent(now, synth[k].rolloutId, synth[k].event);
      }
      assert synth[..|synth|] == synth;
      TickedAll(start, manifests, now, synth);
      TickedOutcomes(start, manifests, now);
    }
  }
}
