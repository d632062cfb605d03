/**
 The host machine read column by column: for every field of a record, which accepted events write it and what
 they write, and for every kind of effect, when it is emitted. The handlers go the other way, state by state.
 */
module HostFields {
  import opened Wrappers
  import opened HostMachine
  import opened HostRuns
  import opened Mirror

  // ----- What the twelve kinds of event are, whichever side they come from

  predicate IsAck(e: Event) { e.LocalActivate? || e.RemoteDispatchAck? }
  predicate IsStart(e: Event) { e.LocalActivationStarted? || e.RemoteActivationStarted? }
  predicate IsCompletion(e: Event) { e.LocalActivationCompleted? || e.RemoteActivationCompleted? }
  predicate IsDeferral(e: Event) { e.LocalActivationDeferred? || e.RemoteActivationDeferred? }
  predicate IsActivationFailure(e: Event) { e.LocalActivationFailed? || e.RemoteActivationFailed? }
  predicate IsFirstObservation(e: Event) { e.LocalProbeObservedFirst? || e.RemoteProbeObservedFirst? }
  predicate IsResult(e: Event) { e.LocalProbeResult? || e.RemoteProbeResult? }
  predicate IsFirstFailure(e: Event) { e.LocalProbeFailureFirst? || e.RemoteProbeFailureFirst? }
  predicate IsSustainedFailure(e: Event) { e.LocalSustainedFailureCrossed? || e.RemoteFailed? }
  predicate IsConvergence(e: Event) { e.LocalConvergedReached? || e.RemoteConverged? }
  predicate IsRollback(e: Event) { e.LocalRollbackCompleted? || e.RemoteRollbackComplete? }

  // ----- Fields

  /** The event's own mark on the record: `s` before, `t` after. */
  predicate States(s: HostRolloutState, e: Event, t: HostRolloutState) {
    t.state ==
      if IsAck(e) then Activating
      else if IsCompletion(e) then Soaking
      else if IsDeferral(e) then Deferred
      else if IsActivationFailure(e) || IsSustainedFailure(e) then Failed
      else if IsConvergence(e) then Converged
      else if IsRollback(e) then Reverted
      else s.state
  }

  predicate Closures(s: HostRolloutState, e: Event, t: HostRolloutState) {
    && t.currentClosureAtDispatch == (if IsAck(e) then Some(e.currentClosureAtDispatch) else s.currentClosureAtDispatch)
    && t.currentClosure == (if IsCompletion(e) then Some(e.observedCurrentClosure)
                            else if IsConvergence(e) then Some(e.currentClosure)
                            else if IsRollback(e) then Some(e.revertedToClosure)
                            else s.currentClosure)
    && t.revertedTo == (if IsRollback(e) then Some(e.revertedToClosure) else s.revertedTo)
  }

  predicate ActivationTimes(s: HostRolloutState, e: Event, t: HostRolloutState) {
    && t.dispatchAckedAt == (if IsAck(e) then Some(e.receivedAt) else s.dispatchAckedAt)
    && t.activationStartedAt == (if IsStart(e) then Some(e.startedAt) else s.activationStartedAt)
    && t.activationCompletedAt == (if IsCompletion(e) then Some(e.completedAt) else s.activationCompletedAt)
    && t.activationFailedAt == (if IsActivationFailure(e) then Some(e.failedAt) else s.activationFailedAt)
  }

  predicate VerdictTimes(s: HostRolloutState, e: Event, t: HostRolloutState) {
    && t.convergedAt == (if IsConvergence(e) then Some(e.convergedAt) else s.convergedAt)
    && t.failedAt == (if IsActivationFailure(e) || IsSustainedFailure(e) then Some(e.failedAt) else s.failedAt)
    && t.revertedAt == (if IsRollback(e) then Some(e.completedAt) else s.revertedAt)
  }

  /** The first observation and the first failure are kept; later ones do not move the clocks. */
  predicate ProbeClocks(s: HostRolloutState, e: Event, t: HostRolloutState) {
    && t.probeObservedFirstAt ==
       (if IsFirstObservation(e) && s.probeObservedFirstAt.None? then Some(e.observedAt) else s.probeObservedFirstAt)
    && t.probeFailureFirstAt ==
       (if IsFirstFailure(e) && s.probeFailureFirstAt.None? then Some(e.firstFailedAt) else s.probeFailureFirstAt)
  }

  /** A deferred activation that fails records no policy. */
  predicate PolicyRecorded(s: HostRolloutState, e: Event, policy: RolloutPolicy, t: HostRolloutState) {
    t.policyApplied ==
      if IsActivationFailure(e) && s.state.Activating? then Some(policy.onHealthFailure)
      else if IsSustainedFailure(e) then Some(e.policyApplied)
      else s.policyApplied
  }

  /** What an accepted result stores under its name. */
  predicate ResultStored(before: map<string, ProbeRecord>, e: Event, after: map<string, ProbeRecord>)
    requires IsResult(e)
  {
    && after.Keys == before.Keys + {e.probeName}
    && (forall other :: other in before && other != e.probeName ==> after[other] == before[other])
    && var r := after[e.probeName];
       && r.status == e.status && r.mode == e.mode && r.lastObservedAt == e.observedAt
       && (e.status.Fail? ==> r.failureReason == e.failureReason)
       && (e.status.Pass? ==> r.failureReason == None)
       && r.lastPassAt == (if e.status.Pass? then Some(e.observedAt)
                           else if e.probeName in before then before[e.probeName].lastPassAt else None)
  }

  /** Probes are forgotten when an activation completes and otherwise written by results alone. */
  predicate Probes(s: HostRolloutState, e: Event, t: HostRolloutState) {
    if IsCompletion(e) then t.probes == map[]
    else if IsResult(e) then ResultStored(s.probes, e, t.probes)
    else t.probes == s.probes
  }

  predicate EveryField(s: HostRolloutState, e: Event, policy: RolloutPolicy, t: HostRolloutState) {
    && SameIdentity(s, t) && t.lastEventSeq == e.seqNo
    && States(s, e, t) && Closures(s, e, t) && ActivationTimes(s, e, t) && VerdictTimes(s, e, t)
    && ProbeClocks(s, e, t) && PolicyRecorded(s, e, policy, t) && Probes(s, e, t)
  }

  lemma PendingFields(s: HostRolloutState, e: Event, policy: RolloutPolicy)
    requires s.state.Pending? && FromPending(s, e).Stepped?
    ensures EveryField(s, e, policy, FromPending(s, e).next)
  {}

  lemma LocalActivatingFields(s: HostRolloutState, e: Event, policy: RolloutPolicy)
    requires e.IsLocal() && s.state.Activating? && FromActivating(s, e, policy).Stepped?
    ensures EveryField(s, e, policy, FromActivating(s, e, policy).next)
  {}

  lemma RemoteActivatingFields(s: HostRolloutState, e: Event, policy: RolloutPolicy)
    requires !e.IsLocal() && s.state.Activating? && FromActivating(s, e, policy).Stepped?
    ensures EveryField(s, e, policy, FromActivating(s, e, policy).next)
  {}

  lemma ActivatingFields(s: HostRolloutState, e: Event, policy: RolloutPolicy)
    requires s.state.Activating? && FromActivating(s, e, policy).Stepped?
    ensures EveryField(s, e, policy, FromActivating(s, e, policy).next)
  {
    if e.IsLocal() { LocalActivatingFields(s, e, policy); } else { RemoteActivatingFields(s, e, policy); }
  }

  lemma LocalDeferredFields(s: HostRolloutState, e: Event, policy: RolloutPolicy)
    requires e.IsLocal() && s.state.Deferred? && FromDeferred(s, e).Stepped?
    ensures EveryField(s, e, policy, FromDeferred(s, e).next)
  {}

  lemma RemoteDeferredFields(s: HostRolloutState, e: Event, policy: RolloutPolicy)
    requires !e.IsLocal() && s.state.Deferred? && FromDeferred(s, e).Stepped?
    ensures EveryField(s, e, policy, FromDeferred(s, e).next)
  {}

  lemma DeferredFields(s: HostRolloutState, e: Event, policy: RolloutPolicy)
    requires s.state.Deferred? && FromDeferred(s, e).Stepped?
    ensures EveryField(s, e, policy, FromDeferred(s, e).next)
  {
    if e.IsLocal() { LocalDeferredFields(s, e, policy); } else { RemoteDeferredFields(s, e, policy); }
  }

  lemma ResultFields(s: HostRolloutState, e: Event, policy: RolloutPolicy)
    requires IsResult(e) && s.state.Soaking?
    ensures FromSoaking(s, e).Stepped? && EveryField(s, e, policy, FromSoaking(s, e).next)
  {}

  lemma LocalSoakingFields(s: HostRolloutState, e: Event, policy: RolloutPolicy)
    requires e.IsLocal() && !IsResult(e) && s.state.Soaking? && FromSoaking(s, e).Stepped?
    ensures EveryField(s, e, policy, FromSoaking(s, e).next)
  {}

  lemma RemoteSoakingFields(s: HostRolloutState, e: Event, policy: RolloutPolicy)
    requires !e.IsLocal() && !IsResult(e) && s.state.Soaking? && FromSoaking(s, e).Stepped?
    ensures EveryField(s, e, policy, FromSoaking(s, e).next)
  {}

  lemma SoakingFields(s: HostRolloutState, e: Event, policy: RolloutPolicy)
    requires s.state.Soaking? && FromSoaking(s, e).Stepped?
    ensures EveryField(s, e, policy, FromSoaking(s, e).next)
  {
    if IsResult(e) { ResultFields(s, e, policy); }
    else if e.IsLocal() { LocalSoakingFields(s, e, policy); }
    else { RemoteSoakingFields(s, e, policy); }
  }

  lemma FailedFields(s: HostRolloutState, e: Event, policy: RolloutPolicy)
    requires s.state.Failed? && FromFailed(s, e).Stepped?
    ensures EveryField(s, e, policy, FromFailed(s, e).next)
  {}

  /** Every field of the record after an accepted event, given by the event and the field before. */
  lemma StepByField(s: HostRolloutState, e: Event, policy: RolloutPolicy)
    requires Step(s, e, policy).Stepped?
    ensures EveryField(s, e, policy, Step(s, e, policy).next)
  {
    match s.state
    case Pending => PendingFields(s, e, policy);
    case Activating => ActivatingFields(s, e, policy);
    case Deferred => DeferredFields(s, e, policy);
    case Soaking => SoakingFields(s, e, policy);
    case Failed => FailedFields(s, e, policy);
    case _ =>
  }

  /** A record nothing has happened to yet. */
  predicate Untouched(s: HostRolloutState, rolloutId: string, host: string, channel: string, target: string,
                      dispatchedAt: Instant, soakDueAt: Instant)
  {
    && s.rolloutId == rolloutId && s.hostname == host && s.channel == channel && s.state.Pending?
    && s.targetClosure == target && s.dispatchedAt == dispatchedAt && s.soakDueAt == Some(soakDueAt)
    && s.lastEventSeq == 0 && s.probes == map[]
    && s.currentClosureAtDispatch.None? && s.currentClosure.None? && s.revertedTo.None?
    && s.dispatchAckedAt.None? && s.activationStartedAt.None? && s.activationCompletedAt.None?
    && s.activationFailedAt.None? && s.probeObservedFirstAt.None? && s.probeFailureFirstAt.None?
    && s.convergedAt.None? && s.failedAt.None? && s.policyApplied.None? && s.revertedAt.None?
  }

  lemma NewIsUntouched(rolloutId: string, host: string, channel: string, target: string, at: Instant, soak: Instant)
    ensures Untouched(NewPending(rolloutId, host, channel, target, at, soak), rolloutId, host, channel, target, at, soak)
  {}

  // ----- Effects

  /** The event's own time. */
  function TimeOf(e: Event): Instant {
    if IsAck(e) then e.receivedAt
    else if IsStart(e) then e.startedAt
    else if IsCompletion(e) || IsRollback(e) then e.completedAt
    else if IsDeferral(e) then e.deferredAt
    else if IsActivationFailure(e) || IsSustainedFailure(e) then e.failedAt
    else if IsFirstObservation(e) || IsResult(e) then e.observedAt
    else if IsFirstFailure(e) then e.firstFailedAt
    else if IsConvergence(e) then e.convergedAt
    else if e.LocalProbeTopologyDeclared? then e.declaredAt
    else if e.RemoteProbeTopologyDeclared? then e.declaredAt
    else 0
  }

  /** A change of state is recorded once, with the event's time. */
  function TransitionEffects(s: HostRolloutState, e: Event, t: HostRolloutState): seq<Effect> {
    if s.state == t.state then [] else [RecordTransition(s.hostname, s.rolloutId, s.state, t.state, TimeOf(e))]
  }

  /** The agent reports every accepted event; probe chatter is the part it may lose. */
  function ReportEffects(s: HostRolloutState, e: Event): seq<Effect> {
    if e.IsLocal()
    then [LocalEmitEvent(s.rolloutId, ReportOf(e), !IsFirstObservation(e) && !IsResult(e) && !IsFirstFailure(e))]
    else []
  }

  /** The report of a local event says everything the event says, and nothing else. */
  lemma ReportSaysAll(e: Event)
    requires e.IsLocal()
    ensures var r := ToRemote(ReportOf(e));
            && !r.IsLocal() && r.seqNo == e.seqNo && TimeOf(r) == TimeOf(e)
            && (IsAck(e) ==> IsAck(r) && r.currentClosureAtDispatch == e.currentClosureAtDispatch)
            && (IsStart(e) ==> IsStart(r) && r.switchMethod == e.switchMethod)
            && (IsCompletion(e) ==>
                  IsCompletion(r) && r.observedCurrentClosure == e.observedCurrentClosure && r.exitCode == e.exitCode)
            && (IsDeferral(e) ==> IsDeferral(r) && r.component == e.component)
            && (IsActivationFailure(e) ==>
                  IsActivationFailure(r) && r.exitCode == e.exitCode && r.stderrTail == e.stderrTail)
            && (e.LocalProbeTopologyDeclared? ==> r.RemoteProbeTopologyDeclared? && r.probes == e.probes)
            && (IsFirstObservation(e) ==> IsFirstObservation(r) && r.probeName == e.probeName && r.mode == e.mode)
            && (IsResult(e) ==>
                  IsResult(r) && r.probeName == e.probeName && r.mode == e.mode && r.status == e.status
                  && r.failureReason == e.failureReason && r.subResults == e.subResults)
            && (IsFirstFailure(e) ==> IsFirstFailure(r) && r.probeName == e.probeName && r.mode == e.mode)
            && (IsSustainedFailure(e) ==>
                  IsSustainedFailure(r) && r.sustainedDurationSecs == e.sustainedDurationSecs
                  && r.failingProbes == e.failingProbes && r.policyApplied == e.policyApplied)
            && (IsRollback(e) ==>
                  IsRollback(r) && r.revertedToClosure == e.revertedToClosure && r.exitCode == e.exitCode)
            && (IsConvergence(e) ==> IsConvergence(r) && r.currentClosure == e.currentClosure)
  {}

  /** The switch is fired on dispatch, to the record's own target. */
  function SwitchEffects(s: HostRolloutState, e: Event): seq<Effect> {
    if e.LocalActivate? then [LocalFireSwitch(s.rolloutId, s.targetClosure)] else []
  }

  /** The agent rolls back on a failure when the policy says so and it knows where to. */
  function RolledBack(s: HostRolloutState, e: Event, policy: RolloutPolicy): seq<Effect> {
    var asked := (e.LocalActivationFailed? && s.state.Activating? && policy.onHealthFailure.RollbackAndHalt?)
                 || (e.LocalSustainedFailureCrossed? && e.policyApplied.RollbackAndHalt?);
    if asked && s.currentClosureAtDispatch.Some?
    then [LocalFireRollbackTo(s.rolloutId, s.currentClosureAtDispatch.value)]
    else []
  }

  function ResetEffects(s: HostRolloutState, e: Event): seq<Effect> {
    if e.LocalActivationCompleted? then [LocalResetProbeCache(s.rolloutId)] else []
  }

  /** A completed rollback quarantines the closure that failed, on the control plane. */
  function QuarantineEffects(s: HostRolloutState, e: Event): seq<Effect> {
    if e.RemoteRollbackComplete? then [RemoteInsertQuarantine(s.channel, s.targetClosure)] else []
  }

  /** The report a remote event stands for. */
  function PayloadOf(e: Event): OutboundAgentEvent
    requires !e.IsLocal()
    ensures ToRemote(PayloadOf(e)) == e
  {
    match e
    case RemoteDispatchAck(prior, at, n) => DispatchAck(prior, at, n)
    case RemoteActivationStarted(at, switchMethod, n) => ActivationStarted(at, switchMethod, n)
    case RemoteActivationCompleted(closure, exit, at, n) => ActivationCompleted(closure, exit, at, n)
    case RemoteActivationDeferred(component, at, n) => ActivationDeferred(component, at, n)
    case RemoteActivationFailed(exit, tail, at, n) => ActivationFailed(exit, tail, at, n)
    case RemoteProbeTopologyDeclared(probes, at, n) => ProbeTopologyDeclared(probes, at, n)
    case RemoteProbeObservedFirst(name, mode, at, n) => ProbeObservedFirst(name, mode, at, n)
    case RemoteProbeResult(name, mode, status, at, reason, subs, n) =>
      ProbeResult(name, mode, status, at, reason, subs, n)
    case RemoteProbeFailureFirst(name, mode, at, n) => ProbeFailureFirst(name, mode, at, n)
    case RemoteFailed(at, secs, failing, applied, n) => FailedReport(at, secs, failing, applied, n)
    case RemoteRollbackComplete(closure, exit, at, n) => RollbackComplete(closure, exit, at, n)
    case RemoteConverged(at, closure, n) => ConvergedReport(at, closure, n)
  }

  /** The control plane logs every accepted report, as it came. */
  function LogEffects(s: HostRolloutState, e: Event): seq<Effect> {
    if e.IsLocal() then [] else [RemoteAppendEventLog(s.hostname, s.rolloutId, PayloadOf(e))]
  }

  /** All effects, in order: a dispatch records the transition before it reports, every other event after. */
  function EveryEffect(s: HostRolloutState, e: Event, policy: RolloutPolicy, t: HostRolloutState): seq<Effect> {
    if e.LocalActivate? then TransitionEffects(s, e, t) + ReportEffects(s, e) + SwitchEffects(s, e)
    else ResetEffects(s, e) + ReportEffects(s, e) + LogEffects(s, e) + QuarantineEffects(s, e)
         + TransitionEffects(s, e, t) + RolledBack(s, e, policy)
  }

  lemma PendingEffects(s: HostRolloutState, e: Event, policy: RolloutPolicy)
    requires s.state.Pending? && FromPending(s, e).Stepped?
    ensures FromPending(s, e).effects == EveryEffect(s, e, policy, FromPending(s, e).next)
  {}

  lemma LocalActivatingEffects(s: HostRolloutState, e: Event, policy: RolloutPolicy)
    requires e.IsLocal() && s.state.Activating? && FromActivating(s, e, policy).Stepped?
    ensures FromActivating(s, e, policy).effects == EveryEffect(s, e, policy, FromActivating(s, e, policy).next)
  {}

  lemma RemoteActivatingEffects(s: HostRolloutState, e: Event, policy: RolloutPolicy)
    requires !e.IsLocal() && s.state.Activating? && FromActivating(s, e, policy).Stepped?
    ensures FromActivating(s, e, policy).effects == EveryEffect(s, e, policy, FromActivating(s, e, policy).next)
  {}

  lemma ActivatingEffects(s: HostRolloutState, e: Event, policy: RolloutPolicy)
    requires s.state.Activating? && FromActivating(s, e, policy).Stepped?
    ensures FromActivating(s, e, policy).effects == EveryEffect(s, e, policy, FromActivating(s, e, policy).next)
  {
    if e.IsLocal() { LocalActivatingEffects(s, e, policy); } else { RemoteActivatingEffects(s, e, policy); }
  }

  lemma LocalDeferredEffects(s: HostRolloutState, e: Event, policy: RolloutPolicy)
    requires e.IsLocal() && s.state.Deferred? && FromDeferred(s, e).Stepped?
    ensures FromDeferred(s, e).effects == EveryEffect(s, e, policy, FromDeferred(s, e).next)
  {}

  lemma RemoteDeferredEffects(s: HostRolloutState, e: Event, policy: RolloutPolicy)
    requires !e.IsLocal() && s.state.Deferred? && FromDeferred(s, e).Stepped?
    ensures FromDeferred(s, e).effects == EveryEffect(s, e, policy, FromDeferred(s, e).next)
  {}

  lemma DeferredEffects(s: HostRolloutState, e: Event, policy: RolloutPolicy)
    requires s.state.Deferred? && FromDeferred(s, e).Stepped?
    ensures FromDeferred(s, e).effects == EveryEffect(s, e, policy, FromDeferred(s, e).next)
  {
    if e.IsLocal() { LocalDeferredEffects(s, e, policy); } else { RemoteDeferredEffects(s, e, policy); }
  }

  lemma LocalSoakingEffects(s: HostRolloutState, e: Event, policy: RolloutPolicy)
    requires e.IsLocal() && s.state.Soaking? && FromSoaking(s, e).Stepped?
    ensures FromSoaking(s, e).effects == EveryEffect(s, e, policy, FromSoaking(s, e).next)
  {}

  lemma RemoteSoakingEffects(s: HostRolloutState, e: Event, policy: RolloutPolicy)
    requires !e.IsLocal() && s.state.Soaking? && FromSoaking(s, e).Stepped?
    ensures FromSoaking(s, e).effects == EveryEffect(s, e, policy, FromSoaking(s, e).next)
  {}

  lemma SoakingEffects(s: HostRolloutState, e: Event, policy: RolloutPolicy)
    requires s.state.Soaking? && FromSoaking(s, e).Stepped?
    ensures FromSoaking(s, e).effects == EveryEffect(s, e, policy, FromSoaking(s, e).next)
  {
    if e.IsLocal() { LocalSoakingEffects(s, e, policy); } else { RemoteSoakingEffects(s, e, policy); }
  }

  lemma FailedEffects(s: HostRolloutState, e: Event, policy: RolloutPolicy)
    requires s.state.Failed? && FromFailed(s, e).Stepped?
    ensures FromFailed(s, e).effects == EveryEffect(s, e, policy, FromFailed(s, e).next)
  {}

  /** Exactly which effects an accepted event has. */
  lemma StepByEffect(s: HostRolloutState, e: Event, policy: RolloutPolicy)
    requires Step(s, e, policy).Stepped?
    ensures Step(s, e, policy).effects == EveryEffect(s, e, policy, Step(s, e, policy).next)
  {
    match s.state
    case Pending => PendingEffects(s, e, policy);
    case Activating => ActivatingEffects(s, e, policy);
    case Deferred => DeferredEffects(s, e, policy);
    case Soaking => SoakingEffects(s, e, policy);
    case Failed => FailedEffects(s, e, policy);
    case _ =>
  }

  // ----- What a converged host has been told about its probes

  lemma {:induction false} RunOneMore(s: HostRolloutState, inputs: seq<Input>, last: Input)
    ensures RunState(s, inputs + [last]) == Advance(RunState(s, inputs), last)
    decreases |inputs|
  {
    if inputs == [] {
      assert inputs + [last] == [last];
      assert RunState(s, [last]) == RunState(Advance(s, last), [last][1..]);
    } else {
      ConcatHead(inputs, [last]);
      RunOneMore(Advance(s, inputs[0]), inputs[1..], last);
    }
  }

  /** The run accepts input `k`. */
  predicate AcceptedAt(s: HostRolloutState, inputs: seq<Input>, k: nat)
    requires k < |inputs|
  {
    Step(RunState(s, inputs[..k]), inputs[k].event, inputs[k].policy).Stepped?
  }

  /** Input `k` is an accepted result of the probe, and none of it, nor an activation, is accepted later. */
  predicate LastResult(s: HostRolloutState, inputs: seq<Input>, name: string, k: nat)
    requires k < |inputs|
  {
    && AcceptedAt(s, inputs, k) && IsResult(inputs[k].event) && inputs[k].event.probeName == name
    && forall j :: k < j < |inputs| && AcceptedAt(s, inputs, j) ==>
         !IsCompletion(inputs[j].event) && !(IsResult(inputs[j].event) && inputs[j].event.probeName == name)
  }

  lemma LastResultEarlier(s: HostRolloutState, inputs: seq<Input>, name: string, k: nat)
    requires k < |inputs| - 1 && LastResult(s, inputs, name, k)
    ensures LastResult(s, inputs[..|inputs| - 1], name, k)
    ensures var last := inputs[|inputs| - 1];
            Step(RunState(s, inputs[..|inputs| - 1]), last.event, last.policy).Stepped? ==>
              !IsCompletion(last.event) && !(IsResult(last.event) && last.event.probeName == name)
  {
    var front := inputs[..|inputs| - 1];
    assert front[..k] == inputs[..k];
    assert AcceptedAt(s, inputs, |inputs| - 1) <==>
           Step(RunState(s, front), inputs[|inputs| - 1].event, inputs[|inputs| - 1].policy).Stepped?;
    forall j | k < j < |front| && AcceptedAt(s, front, j)
      ensures !IsCompletion(front[j].event) && !(IsResult(front[j].event) && front[j].event.probeName == name)
    {
      assert front[..j] == inputs[..j] && AcceptedAt(s, inputs, j);
    }
  }

  /** The record holds this result of the probe. */
  predicate Holds(t: HostRolloutState, name: string, result: Event)
    requires IsResult(result)
  {
    name in t.probes && t.probes[name].status == result.status && t.probes[name].mode == result.mode
  }

  lemma ResultHolds(s: HostRolloutState, i: Input, name: string)
    requires Step(s, i.event, i.policy).Stepped? && IsResult(i.event) && i.event.probeName == name
    ensures Holds(Advance(s, i), name, i.event)
  {
    StepByField(s, i.event, i.policy);
  }

  lemma OtherEventKeeps(s: HostRolloutState, i: Input, name: string, result: Event)
    requires IsResult(result) && Holds(s, name, result)
    requires Step(s, i.event, i.policy).Stepped? ==>
               !IsCompletion(i.event) && !(IsResult(i.event) && i.event.probeName == name)
    ensures Holds(Advance(s, i), name, result)
  {
    if Step(s, i.event, i.policy).Stepped? { StepByField(s, i.event, i.policy); }
  }

  /** The record of a probe is its last accepted result. */
  lemma {:induction false} LastResultStands(s: HostRolloutState, inputs: seq<Input>, name: string, k: nat)
    requires k < |inputs| && LastResult(s, inputs, name, k)
    ensures Holds(RunState(s, inputs), name, inputs[k].event)
    decreases |inputs|
  {
    var front, last := inputs[..|inputs| - 1], inputs[|inputs| - 1];
    assert inputs == front + [last];
    RunOneMore(s, front, last);
    if k < |front| {
      LastResultEarlier(s, inputs, name, k);
      LastResultStands(s, front, name, k);
      OtherEventKeeps(RunState(s, front), last, name, inputs[k].event);
    } else {
      ResultHolds(RunState(s, front), last, name);
    }
  }

  /**
   Convergence is earned from what was observed: in every run of a fresh record that ends Converged, the last
   accepted result of each enforce probe since the activation is Pass.
   */
  lemma ConvergedWasObserved(rolloutId: string, host: string, channel: string, target: string,
                             at: Instant, soak: Instant, inputs: seq<Input>, name: string, k: nat)
    requires k < |inputs|
    requires var s := NewPending(rolloutId, host, channel, target, at, soak);
             RunState(s, inputs).state.Converged? && LastResult(s, inputs, name, k)
    ensures inputs[k].event.mode.Enforce? ==> inputs[k].event.status.Pass?
  {
    var s := NewPending(rolloutId, host, channel, target, at, soak);
    ConvergedIsEarned(rolloutId, host, channel, target, at, soak, inputs);
    LastResultStands(s, inputs, name, k);
    assert AllEnforcePass(RunState(s, inputs).probes);
  }
}
