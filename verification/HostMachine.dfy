/**
 The per-host rollout state machine: one record for each (rollout, host), advanced by `Step`.
 The agent feeds it `Local*` events, the control plane feeds the same machine `Remote*` events.
 Every handler below is one source-state file of the machine.
 */
module HostMachine {
  import opened Wrappers

  datatype HostState = Pending | Activating | Deferred | Soaking | Converged | Failed | Reverted

  datatype ProbeStatus = Pass | Fail
  datatype ProbeMode = Enforce | Observe | Disabled
  datatype OnHealthFailure = Halt | RollbackAndHalt

  datatype ProbeSubResult = ProbeSubResult(
    controlId: string, status: ProbeStatus, framework: string, article: Option<string>,
    effectiveMode: ProbeMode, overrideReason: Option<string>)

  datatype ProbeRecord = ProbeRecord(
    status: ProbeStatus, mode: ProbeMode, lastObservedAt: Instant,
    lastPassAt: Option<Instant>, failureReason: Option<string>)

  datatype ProbeTopologyEntry = ProbeTopologyEntry(probeName: string, kind: string, mode: ProbeMode)

  datatype HostRolloutState = HostRolloutState(
    rolloutId: string,
    hostname: string,
    channel: string,
    state: HostState,
    targetClosure: string,
    currentClosureAtDispatch: Option<string>,
    currentClosure: Option<string>,
    revertedTo: Option<string>,
    dispatchedAt: Instant,
    dispatchAckedAt: Option<Instant>,
    activationStartedAt: Option<Instant>,
    activationCompletedAt: Option<Instant>,
    activationFailedAt: Option<Instant>,
    probeObservedFirstAt: Option<Instant>,
    probeFailureFirstAt: Option<Instant>,
    soakDueAt: Option<Instant>,
    convergedAt: Option<Instant>,
    failedAt: Option<Instant>,
    policyApplied: Option<OnHealthFailure>,
    revertedAt: Option<Instant>,
    probes: map<string, ProbeRecord>,
    lastEventSeq: u64)

  /** The only way a record comes into existence. */
  function NewPending(rolloutId: string, hostname: string, channel: string, targetClosure: string,
                      dispatchedAt: Instant, soakDueAt: Instant): HostRolloutState
  {
    HostRolloutState(rolloutId, hostname, channel, Pending, targetClosure, None, None, None,
                     dispatchedAt, None, None, None, None, None, None, Some(soakDueAt),
                     None, None, None, None, map[], 0)
  }

  /** What an agent reports to the control plane. */
  datatype OutboundAgentEvent =
    | DispatchAck(currentClosureAtDispatch: string, receivedAt: Instant, seqNo: u64)
    | ActivationStarted(startedAt: Instant, switchMethod: string, seqNo: u64)
    | ActivationCompleted(observedCurrentClosure: string, exitCode: int, completedAt: Instant, seqNo: u64)
    | ActivationDeferred(component: string, deferredAt: Instant, seqNo: u64)
    | ActivationFailed(exitCode: int, stderrTail: string, failedAt: Instant, seqNo: u64)
    | ProbeTopologyDeclared(probes: seq<ProbeTopologyEntry>, declaredAt: Instant, seqNo: u64)
    | ProbeObservedFirst(probeName: string, mode: ProbeMode, observedAt: Instant, seqNo: u64)
    | ProbeResult(probeName: string, mode: ProbeMode, status: ProbeStatus, observedAt: Instant,
                  failureReason: Option<string>, subResults: Option<seq<ProbeSubResult>>, seqNo: u64)
    | ProbeFailureFirst(probeName: string, mode: ProbeMode, firstFailedAt: Instant, seqNo: u64)
    | FailedReport(failedAt: Instant, sustainedDurationSecs: int, failingProbes: seq<string>,
                   policyApplied: OnHealthFailure, seqNo: u64)
    | RollbackComplete(revertedToClosure: string, exitCode: int, completedAt: Instant, seqNo: u64)
    | ConvergedReport(convergedAt: Instant, currentClosure: string, seqNo: u64)

  datatype Event =
    | LocalActivate(currentClosureAtDispatch: string, targetClosure: string, receivedAt: Instant,
                    soakDueAt: Instant, seqNo: u64)
    | LocalActivationStarted(startedAt: Instant, switchMethod: string, seqNo: u64)
    | LocalActivationCompleted(observedCurrentClosure: string, exitCode: int, completedAt: Instant, seqNo: u64)
    | LocalActivationDeferred(component: string, deferredAt: Instant, seqNo: u64)
    | LocalActivationFailed(exitCode: int, stderrTail: string, failedAt: Instant, seqNo: u64)
    | LocalProbeTopologyDeclared(probes: seq<ProbeTopologyEntry>, declaredAt: Instant, seqNo: u64)
    | LocalProbeObservedFirst(probeName: string, mode: ProbeMode, observedAt: Instant, seqNo: u64)
    | LocalProbeResult(probeName: string, mode: ProbeMode, status: ProbeStatus, observedAt: Instant,
                       failureReason: Option<string>, subResults: Option<seq<ProbeSubResult>>, seqNo: u64)
    | LocalProbeFailureFirst(probeName: string, mode: ProbeMode, firstFailedAt: Instant, seqNo: u64)
    | LocalSustainedFailureCrossed(failedAt: Instant, sustainedDurationSecs: int, failingProbes: seq<string>,
                                   policyApplied: OnHealthFailure, seqNo: u64)
    | LocalRollbackCompleted(revertedToClosure: string, exitCode: int, completedAt: Instant, seqNo: u64)
    | LocalConvergedReached(convergedAt: Instant, currentClosure: string, seqNo: u64)
    | RemoteDispatchAck(currentClosureAtDispatch: string, receivedAt: Instant, seqNo: u64)
    | RemoteActivationStarted(startedAt: Instant, switchMethod: string, seqNo: u64)
    | RemoteActivationCompleted(observedCurrentClosure: string, exitCode: int, completedAt: Instant, seqNo: u64)
    | RemoteActivationDeferred(component: string, deferredAt: Instant, seqNo: u64)
    | RemoteActivationFailed(exitCode: int, stderrTail: string, failedAt: Instant, seqNo: u64)
    | RemoteProbeTopologyDeclared(probes: seq<ProbeTopologyEntry>, declaredAt: Instant, seqNo: u64)
    | RemoteProbeObservedFirst(probeName: string, mode: ProbeMode, observedAt: Instant, seqNo: u64)
    | RemoteProbeResult(probeName: string, mode: ProbeMode, status: ProbeStatus, observedAt: Instant,
                        failureReason: Option<string>, subResults: Option<seq<ProbeSubResult>>, seqNo: u64)
    | RemoteProbeFailureFirst(probeName: string, mode: ProbeMode, firstFailedAt: Instant, seqNo: u64)
    | RemoteFailed(failedAt: Instant, sustainedDurationSecs: int, failingProbes: seq<string>,
                   policyApplied: OnHealthFailure, seqNo: u64)
    | RemoteRollbackComplete(revertedToClosure: string, exitCode: int, completedAt: Instant, seqNo: u64)
    | RemoteConverged(convergedAt: Instant, currentClosure: string, seqNo: u64)
  {
    predicate IsLocal() {
      || LocalActivate? || LocalActivationStarted? || LocalActivationCompleted? || LocalActivationDeferred?
      || LocalActivationFailed? || LocalProbeTopologyDeclared? || LocalProbeObservedFirst?
      || LocalProbeResult? || LocalProbeFailureFirst? || LocalSustainedFailureCrossed?
      || LocalRollbackCompleted? || LocalConvergedReached?
    }
  }

  datatype Effect =
    | LocalFireSwitch(rolloutId: string, target: string)
    | LocalFireRollbackTo(rolloutId: string, closure: string)
    | LocalResetProbeCache(rolloutId: string)
    | LocalEmitEvent(rolloutId: string, payload: OutboundAgentEvent, durable: bool)
    | RemoteInsertQuarantine(channel: string, closure: string)
    | RemoteAppendEventLog(host: string, rolloutId: string, payload: OutboundAgentEvent)
    | RecordTransition(host: string, rolloutId: string, from: HostState, to: HostState, at: Instant)

  datatype TransitionError =
    | IllegalForState(from: HostState)
    | SeqRegression(got: u64, last: u64)
    | Invariant(reason: string)

  datatype Outcome = Stepped(next: HostRolloutState, effects: seq<Effect>) | Rejected(error: TransitionError)

  datatype RolloutPolicy = RolloutPolicy(onHealthFailure: OnHealthFailure)

  function Emit(s: HostRolloutState, payload: OutboundAgentEvent, durable: bool): Effect {
    LocalEmitEvent(s.rolloutId, payload, durable)
  }

  function Log(s: HostRolloutState, payload: OutboundAgentEvent): Effect {
    RemoteAppendEventLog(s.hostname, s.rolloutId, payload)
  }

  function Transition(s: HostRolloutState, to: HostState, at: Instant): Effect {
    RecordTransition(s.hostname, s.rolloutId, s.state, to, at)
  }

  function Illegal(s: HostRolloutState): Outcome {
    Rejected(IllegalForState(s.state))
  }

  // ----- Pending

  function FromPending(s: HostRolloutState, e: Event): Outcome {
    match e
    case LocalActivate(prior, _, receivedAt, _, n) =>
      Stepped(
        s.(state := Activating, currentClosureAtDispatch := Some(prior),
           dispatchAckedAt := Some(receivedAt), lastEventSeq := n),
        [Transition(s, Activating, receivedAt),
         Emit(s, DispatchAck(prior, receivedAt, n), true),
         LocalFireSwitch(s.rolloutId, s.targetClosure)])
    case RemoteDispatchAck(prior, receivedAt, n) =>
      Stepped(
        s.(state := Activating, currentClosureAtDispatch := Some(prior),
           dispatchAckedAt := Some(receivedAt), lastEventSeq := n),
        [Log(s, DispatchAck(prior, receivedAt, n)),
         Transition(s, Activating, receivedAt)])
    case _ => Illegal(s)
  }

  // ----- Activating and Deferred

  function Activated(s: HostRolloutState, closure: string, at: Instant, n: u64): HostRolloutState {
    s.(state := Soaking, activationCompletedAt := Some(at), currentClosure := Some(closure),
       probes := map[], lastEventSeq := n)
  }

  function ActivationFailedState(s: HostRolloutState, at: Instant, policy: RolloutPolicy, n: u64)
    : HostRolloutState
  {
    s.(state := Failed, activationFailedAt := Some(at), failedAt := Some(at),
       policyApplied := Some(policy.onHealthFailure), lastEventSeq := n)
  }

  /** The rollback fired when the policy asks for one and a closure was recorded at dispatch. */
  function RollbackEffects(s: HostRolloutState, policy: OnHealthFailure): seq<Effect> {
    if policy.RollbackAndHalt? && s.currentClosureAtDispatch.Some?
    then [LocalFireRollbackTo(s.rolloutId, s.currentClosureAtDispatch.value)]
    else []
  }

  function CompleteActivation(s: HostRolloutState, e: Event): Outcome
    requires e.LocalActivationCompleted? || e.RemoteActivationCompleted?
  {
    match e
    case LocalActivationCompleted(closure, exit, at, n) =>
      Stepped(Activated(s, closure, at, n),
              [LocalResetProbeCache(s.rolloutId),
               Emit(s, ActivationCompleted(closure, exit, at, n), true),
               Transition(s, Soaking, at)])
    case RemoteActivationCompleted(closure, exit, at, n) =>
      Stepped(Activated(s, closure, at, n),
              [Log(s, ActivationCompleted(closure, exit, at, n)),
               Transition(s, Soaking, at)])
  }

  function FromActivating(s: HostRolloutState, e: Event, policy: RolloutPolicy): Outcome {
    match e
    case LocalActivationStarted(at, switchMethod, n) =>
      Stepped(s.(activationStartedAt := Some(at), lastEventSeq := n),
              [Emit(s, ActivationStarted(at, switchMethod, n), true)])
    case RemoteActivationStarted(at, switchMethod, n) =>
      Stepped(s.(activationStartedAt := Some(at), lastEventSeq := n),
              [Log(s, ActivationStarted(at, switchMethod, n))])
    case LocalActivationCompleted(_, _, _, _) => CompleteActivation(s, e)
    case RemoteActivationCompleted(_, _, _, _) => CompleteActivation(s, e)
    case LocalActivationDeferred(component, at, n) =>
      Stepped(s.(state := Deferred, lastEventSeq := n),
              [Emit(s, ActivationDeferred(component, at, n), true), Transition(s, Deferred, at)])
    case RemoteActivationDeferred(component, at, n) =>
      Stepped(s.(state := Deferred, lastEventSeq := n),
              [Log(s, ActivationDeferred(component, at, n)), Transition(s, Deferred, at)])
    case LocalActivationFailed(exit, tail, at, n) =>
      Stepped(ActivationFailedState(s, at, policy, n),
              [Emit(s, ActivationFailed(exit, tail, at, n), true), Transition(s, Failed, at)]
              + RollbackEffects(s, policy.onHealthFailure))
    case RemoteActivationFailed(exit, tail, at, n) =>
      Stepped(ActivationFailedState(s, at, policy, n),
              [Log(s, ActivationFailed(exit, tail, at, n)), Transition(s, Failed, at)])
    case _ => Illegal(s)
  }

  /** Unlike an activation failure in `Activating`, this one records no policy and fires no rollback. */
  function FromDeferred(s: HostRolloutState, e: Event): Outcome {
    match e
    case LocalActivationCompleted(_, _, _, _) => CompleteActivation(s, e)
    case RemoteActivationCompleted(_, _, _, _) => CompleteActivation(s, e)
    case LocalActivationFailed(exit, tail, at, n) =>
      Stepped(s.(state := Failed, activationFailedAt := Some(at), failedAt := Some(at), lastEventSeq := n),
              [Emit(s, ActivationFailed(exit, tail, at, n), true), Transition(s, Failed, at)])
    case RemoteActivationFailed(exit, tail, at, n) =>
      Stepped(s.(state := Failed, activationFailedAt := Some(at), failedAt := Some(at), lastEventSeq := n),
              [Log(s, ActivationFailed(exit, tail, at, n)), Transition(s, Failed, at)])
    case _ => Illegal(s)
  }

  // ----- Soaking

  function UpdateProbe(s: HostRolloutState, name: string, mode: ProbeMode, status: ProbeStatus,
                       at: Instant, reason: Option<string>): HostRolloutState
  {
    var lastPass := if name in s.probes then s.probes[name].lastPassAt else None;
    var record :=
      if status.Pass? then ProbeRecord(status, mode, at, Some(at), None)
      else ProbeRecord(status, mode, at, lastPass, reason);
    s.(probes := s.probes[name := record])
  }

  predicate AllEnforcePass(probes: map<string, ProbeRecord>) {
    forall name | name in probes :: probes[name].mode.Enforce? ==> probes[name].status.Pass?
  }

  /** The three conditions re-checked before a host may be called converged. */
  function VerifyConverged(s: HostRolloutState, closure: string, at: Instant): Option<TransitionError> {
    if closure != s.targetClosure then Some(Invariant("current_closure != target_closure"))
    else if s.soakDueAt.Some? && at < s.soakDueAt.value then Some(Invariant("converged_at before soak_due_at"))
    else if !AllEnforcePass(s.probes) then Some(Invariant("an enforce-mode probe is not Pass"))
    else None
  }

  function FirstOf(earlier: Option<Instant>, at: Instant): Option<Instant> {
    if earlier.None? then Some(at) else earlier
  }

  function FailedState(s: HostRolloutState, at: Instant, applied: OnHealthFailure, n: u64): HostRolloutState {
    s.(state := Failed, failedAt := Some(at), policyApplied := Some(applied), lastEventSeq := n)
  }

  function ConvergedState(s: HostRolloutState, at: Instant, closure: string, n: u64): HostRolloutState {
    s.(state := Converged, convergedAt := Some(at), currentClosure := Some(closure), lastEventSeq := n)
  }

  function FromSoaking(s: HostRolloutState, e: Event): Outcome {
    match e
    case LocalProbeTopologyDeclared(probes, at, n) =>
      Stepped(s.(lastEventSeq := n), [Emit(s, ProbeTopologyDeclared(probes, at, n), true)])
    case RemoteProbeTopologyDeclared(probes, at, n) =>
      Stepped(s.(lastEventSeq := n), [Log(s, ProbeTopologyDeclared(probes, at, n))])
    case LocalProbeObservedFirst(name, mode, at, n) =>
      Stepped(s.(probeObservedFirstAt := FirstOf(s.probeObservedFirstAt, at), lastEventSeq := n),
              [Emit(s, ProbeObservedFirst(name, mode, at, n), false)])
    case RemoteProbeObservedFirst(name, mode, at, n) =>
      Stepped(s.(probeObservedFirstAt := FirstOf(s.probeObservedFirstAt, at), lastEventSeq := n),
              [Log(s, ProbeObservedFirst(name, mode, at, n))])
    case LocalProbeResult(name, mode, status, at, reason, subs, n) =>
      Stepped(UpdateProbe(s, name, mode, status, at, reason).(lastEventSeq := n),
              [Emit(s, ProbeResult(name, mode, status, at, reason, subs, n), false)])
    case RemoteProbeResult(name, mode, status, at, reason, subs, n) =>
      Stepped(UpdateProbe(s, name, mode, status, at, reason).(lastEventSeq := n),
              [Log(s, ProbeResult(name, mode, status, at, reason, subs, n))])
    case LocalProbeFailureFirst(name, mode, at, n) =>
      Stepped(s.(probeFailureFirstAt := FirstOf(s.probeFailureFirstAt, at), lastEventSeq := n),
              [Emit(s, ProbeFailureFirst(name, mode, at, n), false)])
    case RemoteProbeFailureFirst(name, mode, at, n) =>
      Stepped(s.(probeFailureFirstAt := FirstOf(s.probeFailureFirstAt, at), lastEventSeq := n),
              [Log(s, ProbeFailureFirst(name, mode, at, n))])
    case LocalSustainedFailureCrossed(at, secs, failing, applied, n) =>
      Stepped(FailedState(s, at, applied, n),
              [Emit(s, FailedReport(at, secs, failing, applied, n), true), Transition(s, Failed, at)]
              + RollbackEffects(s, applied))
    case RemoteFailed(at, secs, failing, applied, n) =>
      Stepped(FailedState(s, at, applied, n),
              [Log(s, FailedReport(at, secs, failing, applied, n)), Transition(s, Failed, at)])
    case LocalConvergedReached(at, closure, n) =>
      (match VerifyConverged(s, closure, at)
       case Some(err) => Rejected(err)
       case None =>
         Stepped(ConvergedState(s, at, closure, n),
                 [Emit(s, ConvergedReport(at, closure, n), true), Transition(s, Converged, at)]))
    case RemoteConverged(at, closure, n) =>
      (match VerifyConverged(s, closure, at)
       case Some(err) => Rejected(err)
       case None =>
         Stepped(ConvergedState(s, at, closure, n),
                 [Log(s, ConvergedReport(at, closure, n)), Transition(s, Converged, at)]))
    case _ => Illegal(s)
  }

  // ----- Failed

  function RevertedState(s: HostRolloutState, closure: string, at: Instant, n: u64): HostRolloutState {
    s.(state := Reverted, revertedAt := Some(at), revertedTo := Some(closure),
       currentClosure := Some(closure), lastEventSeq := n)
  }

  function FromFailed(s: HostRolloutState, e: Event): Outcome {
    match e
    case LocalRollbackCompleted(closure, exit, at, n) =>
      Stepped(RevertedState(s, closure, at, n),
              [Emit(s, RollbackComplete(closure, exit, at, n), true), Transition(s, Reverted, at)])
    case RemoteRollbackComplete(closure, exit, at, n) =>
      Stepped(RevertedState(s, closure, at, n),
              [Log(s, RollbackComplete(closure, exit, at, n)),
               RemoteInsertQuarantine(s.channel, s.targetClosure),
               Transition(s, Reverted, at)])
    case _ => Illegal(s)
  }

  // ----- Dispatcher

  /** The pure reducer: sequence check first, then the handler of the source state. */
  function Step(s: HostRolloutState, e: Event, policy: RolloutPolicy): Outcome {
    if e.seqNo <= s.lastEventSeq then Rejected(SeqRegression(e.seqNo, s.lastEventSeq))
    else
      match s.state
      case Pending => FromPending(s, e)
      case Activating => FromActivating(s, e, policy)
      case Deferred => FromDeferred(s, e)
      case Soaking => FromSoaking(s, e)
      case Failed => FromFailed(s, e)
      case Converged => Illegal(s)
      case Reverted => Illegal(s)
  }
}
