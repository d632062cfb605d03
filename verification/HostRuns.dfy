/**
 What every run of the host state machine keeps: legality, coherent records, a transition log that
 re-derives the state, and at most one rollback.
 */
module HostRuns {
  import opened Wrappers
  import opened HostMachine

  /** The (state, event) pairs the rollout graph permits, written as a table. */
  predicate Legal(state: HostState, e: Event) {
    match state
    case Pending => e.LocalActivate? || e.RemoteDispatchAck?
    case Activating =>
      || e.LocalActivationStarted? || e.RemoteActivationStarted?
      || e.LocalActivationCompleted? || e.RemoteActivationCompleted?
      || e.LocalActivationDeferred? || e.RemoteActivationDeferred?
      || e.LocalActivationFailed? || e.RemoteActivationFailed?
    case Deferred =>
      || e.LocalActivationCompleted? || e.RemoteActivationCompleted?
      || e.LocalActivationFailed? || e.RemoteActivationFailed?
    case Soaking =>
      || e.LocalProbeTopologyDeclared? || e.RemoteProbeTopologyDeclared?
      || e.LocalProbeObservedFirst? || e.RemoteProbeObservedFirst?
      || e.LocalProbeResult? || e.RemoteProbeResult?
      || e.LocalProbeFailureFirst? || e.RemoteProbeFailureFirst?
      || e.LocalSustainedFailureCrossed? || e.RemoteFailed?
      || e.LocalConvergedReached? || e.RemoteConverged?
    case Failed => e.LocalRollbackCompleted? || e.RemoteRollbackComplete?
    case Converged => false
    case Reverted => false
  }

  /** What a converged claim must show: the declared closure is live, the soak elapsed, probes pass. */
  predicate ConvergedGuard(s: HostRolloutState, e: Event) {
    (e.LocalConvergedReached? || e.RemoteConverged?) ==>
      && e.currentClosure == s.targetClosure
      && (s.soakDueAt.Some? ==> s.soakDueAt.value <= e.convergedAt)
      && AllEnforcePass(s.probes)
  }

  /** Exactly when an event is accepted. */
  lemma StepAcceptsIff(s: HostRolloutState, e: Event, policy: RolloutPolicy)
    ensures Step(s, e, policy).Stepped? <==>
              s.lastEventSeq < e.seqNo && Legal(s.state, e) && ConvergedGuard(s, e)
  {
    if s.state.Soaking? { SoakingAcceptsIff(s, e); }
  }

  lemma SoakingAcceptsIff(s: HostRolloutState, e: Event)
    requires s.state.Soaking?
    ensures FromSoaking(s, e).Stepped? <==> Legal(s.state, e) && ConvergedGuard(s, e)
    ensures FromSoaking(s, e).Rejected? ==>
              && (FromSoaking(s, e).error.Invariant? <==> Legal(s.state, e) && !ConvergedGuard(s, e))
              && (FromSoaking(s, e).error.IllegalForState? <==> !Legal(s.state, e))
  {
  }

  /** Which of the three rejections a refused event gets. */
  lemma RejectionKind(s: HostRolloutState, e: Event, policy: RolloutPolicy)
    requires Step(s, e, policy).Rejected?
    ensures var err := Step(s, e, policy).error;
            && (err.SeqRegression? <==> e.seqNo <= s.lastEventSeq)
            && (err.IllegalForState? <==> s.lastEventSeq < e.seqNo && !Legal(s.state, e))
            && (err.Invariant? <==> s.lastEventSeq < e.seqNo && Legal(s.state, e) && !ConvergedGuard(s, e))
  {
    if s.state.Soaking? { SoakingAcceptsIff(s, e); }
  }

  // ----- Runs

  datatype Input = Input(event: Event, policy: RolloutPolicy)

  /** A rejected event is logged and dropped: the record stays as it is. */
  function Advance(s: HostRolloutState, i: Input): HostRolloutState {
    match Step(s, i.event, i.policy)
    case Stepped(next, _) => next
    case Rejected(_) => s
  }

  function StepEffects(s: HostRolloutState, i: Input): seq<Effect> {
    match Step(s, i.event, i.policy)
    case Stepped(_, effects) => effects
    case Rejected(_) => []
  }

  function RunState(s: HostRolloutState, inputs: seq<Input>): HostRolloutState
    decreases |inputs|
  {
    if inputs == [] then s else RunState(Advance(s, inputs[0]), inputs[1..])
  }

  function RunEffects(s: HostRolloutState, inputs: seq<Input>): seq<Effect>
    decreases |inputs|
  {
    if inputs == [] then [] else StepEffects(s, inputs[0]) + RunEffects(Advance(s, inputs[0]), inputs[1..])
  }

  // ----- Coherence of the record

  predicate FailedFamily(state: HostState) {
    state.Failed? || state.Reverted?
  }

  /** The timestamps and closures of a record agree with its state. */
  predicate Coherent(s: HostRolloutState) {
    && (s.state.Pending? <==> s.dispatchAckedAt.None?)
    && (s.state.Pending? <==> s.currentClosureAtDispatch.None?)
    && (s.state.Pending? || s.state.Activating? || s.state.Deferred? ==>
          s.currentClosure.None? && s.activationCompletedAt.None? && s.probes == map[])
    && (s.state.Soaking? || s.state.Converged? ==> s.activationCompletedAt.Some? && s.currentClosure.Some?)
    && (s.state.Converged? <==> s.convergedAt.Some?)
    && (s.state.Converged? ==>
          && s.currentClosure == Some(s.targetClosure)
          && (s.soakDueAt.Some? ==> s.soakDueAt.value <= s.convergedAt.value)
          && AllEnforcePass(s.probes))
    && (FailedFamily(s.state) <==> s.failedAt.Some?)
    && (s.activationFailedAt.Some? || s.policyApplied.Some? ==> FailedFamily(s.state))
    && (FailedFamily(s.state) && s.activationCompletedAt.Some? ==> s.policyApplied.Some?)
    && (s.state.Reverted? <==> s.revertedAt.Some?)
    && (s.state.Reverted? <==> s.revertedTo.Some?)
    && (s.state.Reverted? ==> s.currentClosure == s.revertedTo)
  }

  /** The fields no event may touch. */
  predicate SameIdentity(s: HostRolloutState, t: HostRolloutState) {
    && s.rolloutId == t.rolloutId && s.hostname == t.hostname && s.channel == t.channel
    && s.targetClosure == t.targetClosure && s.dispatchedAt == t.dispatchedAt && s.soakDueAt == t.soakDueAt
  }

  lemma ActivatingKeepsCoherent(s: HostRolloutState, i: Input)
    requires Coherent(s) && s.state.Activating?
    ensures Coherent(Advance(s, i)) && SameIdentity(s, Advance(s, i))
  {
  }

  lemma SoakingKeepsCoherent(s: HostRolloutState, i: Input)
    requires Coherent(s) && s.state.Soaking?
    ensures Coherent(Advance(s, i)) && SameIdentity(s, Advance(s, i))
  {
  }

  lemma StepKeepsCoherent(s: HostRolloutState, i: Input)
    requires Coherent(s)
    ensures Coherent(Advance(s, i)) && SameIdentity(s, Advance(s, i))
  {
    if s.state.Soaking? { SoakingKeepsCoherent(s, i); }
    if s.state.Activating? { ActivatingKeepsCoherent(s, i); }
  }

  /** The sequence counter moves exactly when an event is accepted, and then to that event's number. */
  lemma StepAdvancesSeq(s: HostRolloutState, i: Input)
    ensures if Step(s, i.event, i.policy).Stepped?
            then s.lastEventSeq < i.event.seqNo == Advance(s, i).lastEventSeq
            else Advance(s, i) == s
  {
  }

  lemma {:induction false} RunKeepsCoherent(s: HostRolloutState, inputs: seq<Input>)
    requires Coherent(s)
    ensures Coherent(RunState(s, inputs)) && SameIdentity(s, RunState(s, inputs))
    ensures s.lastEventSeq <= RunState(s, inputs).lastEventSeq
    decreases |inputs|
  {
    if inputs != [] {
      StepKeepsCoherent(s, inputs[0]);
      StepAdvancesSeq(s, inputs[0]);
      RunKeepsCoherent(Advance(s, inputs[0]), inputs[1..]);
    }
  }

  /** Safety of convergence over every run of a fresh record, whatever events and policies arrive. */
  lemma ConvergedIsEarned(rolloutId: string, host: string, channel: string, target: string,
                          at: Instant, soak: Instant, inputs: seq<Input>)
    ensures var s := RunState(NewPending(rolloutId, host, channel, target, at, soak), inputs);
            && Coherent(s)
            && (s.state.Converged? ==>
                  && s.currentClosure == Some(target)
                  && s.convergedAt.Some? && soak <= s.convergedAt.value
                  && AllEnforcePass(s.probes))
            && (s.state.Reverted? ==> s.failedAt.Some? && s.currentClosure == s.revertedTo)
  {
    RunKeepsCoherent(NewPending(rolloutId, host, channel, target, at, soak), inputs);
  }

  // ----- The transition log

  function Rank(state: HostState): nat {
    match state
    case Pending => 0
    case Activating => 1
    case Deferred => 2
    case Soaking => 3
    case Converged => 4
    case Failed => 4
    case Reverted => 5
  }

  datatype EffectKind = OfTransition | OfRollback

  predicate IsKind(kind: EffectKind, e: Effect) {
    match kind
    case OfTransition => e.RecordTransition?
    case OfRollback => e.LocalFireRollbackTo?
  }

  function Select(kind: EffectKind, effects: seq<Effect>): seq<Effect> {
    if effects == [] then []
    else (if IsKind(kind, effects[0]) then [effects[0]] else []) + Select(kind, effects[1..])
  }

  lemma {:induction false} SelectAppend(kind: EffectKind, a: seq<Effect>, b: seq<Effect>)
    ensures Select(kind, a + b) == Select(kind, a) + Select(kind, b)
  {
    if a == [] {
      assert a + b == b;
    } else {
      ConcatHead(a, b);
      SelectAppend(kind, a[1..], b);
      var head := if IsKind(kind, a[0]) then [a[0]] else [];
      ConcatAssociative(head, Select(kind, a[1..]), Select(kind, b));
    }
  }

  /** Unrolls `Select` for the short effect lists of a single step. */
  lemma SelectShort(kind: EffectKind, effects: seq<Effect>)
    requires |effects| <= 3
    ensures Select(kind, effects) ==
              (if |effects| > 0 && IsKind(kind, effects[0]) then [effects[0]] else [])
              + (if |effects| > 1 && IsKind(kind, effects[1]) then [effects[1]] else [])
              + (if |effects| > 2 && IsKind(kind, effects[2]) then [effects[2]] else [])
  {
    if |effects| > 1 {
      var rest := effects[1..];
      assert Select(kind, rest) == (if IsKind(kind, rest[0]) then [rest[0]] else []) + Select(kind, rest[1..]);
      if |effects| > 2 { assert rest[1..] == [effects[2]]; }
    }
  }

  function Transitions(effects: seq<Effect>): seq<Effect> {
    Select(OfTransition, effects)
  }

  /** `log` walks from one state to the other, each entry changing the state and raising the rank. */
  predicate IsPath(from: HostState, log: seq<Effect>, to: HostState)
    decreases |log|
  {
    if log == [] then from == to
    else
      && log[0].RecordTransition?
      && log[0].from == from
      && Rank(from) < Rank(log[0].to)
      && IsPath(log[0].to, log[1..], to)
  }

  /** `effects` record exactly the change from one state to another, if there is one. */
  predicate RecordsChange(from: HostState, effects: seq<Effect>, to: HostState) {
    var log := Transitions(effects);
    if from == to then log == []
    else |log| == 1 && log[0].RecordTransition? && log[0].from == from && log[0].to == to && Rank(from) < Rank(to)
  }

  lemma SoakingRecordsChange(s: HostRolloutState, e: Event)
    requires s.state.Soaking? && FromSoaking(s, e).Stepped?
    ensures RecordsChange(s.state, FromSoaking(s, e).effects, FromSoaking(s, e).next.state)
  {
    SelectShort(OfTransition, FromSoaking(s, e).effects);
  }

  lemma ActivatingRecordsChange(s: HostRolloutState, e: Event, policy: RolloutPolicy)
    requires s.state.Activating? && FromActivating(s, e, policy).Stepped?
    ensures RecordsChange(s.state, FromActivating(s, e, policy).effects, FromActivating(s, e, policy).next.state)
  {
    SelectShort(OfTransition, FromActivating(s, e, policy).effects);
  }

  lemma PendingRecordsChange(s: HostRolloutState, e: Event)
    requires s.state.Pending? && FromPending(s, e).Stepped?
    ensures RecordsChange(s.state, FromPending(s, e).effects, FromPending(s, e).next.state)
  {
    SelectShort(OfTransition, FromPending(s, e).effects);
  }

  lemma DeferredRecordsChange(s: HostRolloutState, e: Event)
    requires s.state.Deferred? && FromDeferred(s, e).Stepped?
    ensures RecordsChange(s.state, FromDeferred(s, e).effects, FromDeferred(s, e).next.state)
  {
    SelectShort(OfTransition, FromDeferred(s, e).effects);
  }

  lemma FailedRecordsChange(s: HostRolloutState, e: Event)
    requires s.state.Failed? && FromFailed(s, e).Stepped?
    ensures RecordsChange(s.state, FromFailed(s, e).effects, FromFailed(s, e).next.state)
  {
    SelectShort(OfTransition, FromFailed(s, e).effects);
  }

  lemma StepTransitions(s: HostRolloutState, i: Input)
    ensures RecordsChange(s.state, StepEffects(s, i), Advance(s, i).state)
  {
    if Step(s, i.event, i.policy).Stepped? {
      match s.state
      case Pending => PendingRecordsChange(s, i.event);
      case Activating => ActivatingRecordsChange(s, i.event, i.policy);
      case Deferred => DeferredRecordsChange(s, i.event);
      case Soaking => SoakingRecordsChange(s, i.event);
      case Failed => FailedRecordsChange(s, i.event);
      case _ =>
    }
  }

  lemma {:induction false} PathAppend(a: HostState, log: seq<Effect>, b: HostState, rest: seq<Effect>, c: HostState)
    requires IsPath(a, log, b) && IsPath(b, rest, c)
    ensures IsPath(a, log + rest, c)
    decreases |log|
  {
    if log == [] {
      assert log + rest == rest;
    } else {
      assert (log + rest)[1..] == log[1..] + rest;
      PathAppend(log[0].to, log[1..], b, rest, c);
    }
  }

  lemma {:induction false} PathIsShort(from: HostState, log: seq<Effect>, to: HostState)
    requires IsPath(from, log, to)
    ensures |log| <= Rank(to) - Rank(from) <= 5
    decreases |log|
  {
    if log != [] { PathIsShort(log[0].to, log[1..], to); }
  }

  /**
   The recorded transitions re-derive the state: over any run they form a path from the first state to
   the last, each step is recorded once, and there are never more than five.
   */
  lemma {:induction false} LogRederivesState(s: HostRolloutState, inputs: seq<Input>)
    ensures var log := Transitions(RunEffects(s, inputs));
            IsPath(s.state, log, RunState(s, inputs).state) && |log| <= 5
    decreases |inputs|
  {
    if inputs != [] {
      var next := Advance(s, inputs[0]);
      StepTransitions(s, inputs[0]);
      LogRederivesState(next, inputs[1..]);
      SelectAppend(OfTransition, StepEffects(s, inputs[0]), RunEffects(next, inputs[1..]));
      var log := Transitions(StepEffects(s, inputs[0]));
      if log != [] { assert log[1..] == []; }
      PathAppend(s.state, log, next.state, Transitions(RunEffects(next, inputs[1..])), RunState(s, inputs).state);
    }
    PathIsShort(s.state, Transitions(RunEffects(s, inputs)), RunState(s, inputs).state);
  }

  /** A converged or reverted record is history: no run changes it or has any effect. */
  lemma {:induction false} TerminalIsAbsorbing(s: HostRolloutState, inputs: seq<Input>)
    requires s.state.Converged? || s.state.Reverted?
    ensures RunState(s, inputs) == s && RunEffects(s, inputs) == []
    decreases |inputs|
  {
    if inputs != [] { TerminalIsAbsorbing(s, inputs[1..]); }
  }

  // ----- Rollbacks

  function Rollbacks(effects: seq<Effect>): seq<Effect> {
    Select(OfRollback, effects)
  }

  /** What the rollbacks of one step mean for the record before and after it. */
  predicate RollbackRule(s: HostRolloutState, effects: seq<Effect>, next: HostRolloutState) {
    var fired := Rollbacks(effects);
    && |fired| <= 1
    && (fired != [] ==>
          && s.currentClosureAtDispatch.Some?
          && fired[0] == LocalFireRollbackTo(s.rolloutId, s.currentClosureAtDispatch.value)
          && !FailedFamily(s.state) && next.state.Failed?
          && next.policyApplied == Some(RollbackAndHalt))
    && (!s.state.Pending? ==> next.currentClosureAtDispatch == s.currentClosureAtDispatch)
    && (FailedFamily(s.state) ==> FailedFamily(next.state) && fired == [] && next.policyApplied == s.policyApplied)
  }

  /** Of the rollback effects of a step on a soaking record, none unless it failed the record. */
  lemma SoakingFires(s: HostRolloutState, e: Event)
    requires s.state.Soaking? && FromSoaking(s, e).Stepped?
    ensures var fired := Rollbacks(FromSoaking(s, e).effects);
            if e.LocalSustainedFailureCrossed? then fired == RollbackEffects(s, e.policyApplied) else fired == []
  {
    SelectShort(OfRollback, FromSoaking(s, e).effects);
  }

  lemma SoakingRollbacks(s: HostRolloutState, e: Event)
    requires s.state.Soaking? && FromSoaking(s, e).Stepped?
    ensures RollbackRule(s, FromSoaking(s, e).effects, FromSoaking(s, e).next)
  {
    SoakingFires(s, e);
  }

  lemma StepRollbacks(s: HostRolloutState, i: Input)
    ensures RollbackRule(s, StepEffects(s, i), Advance(s, i))
  {
    if Step(s, i.event, i.policy).Stepped? {
      if s.state.Soaking? { SoakingRollbacks(s, i.event); }
      else { SelectShort(OfRollback, StepEffects(s, i)); }
    }
  }

  lemma {:induction false} FailedNeverFiresAgain(s: HostRolloutState, inputs: seq<Input>)
    requires Coherent(s) && FailedFamily(s.state)
    ensures Rollbacks(RunEffects(s, inputs)) == []
    ensures var t := RunState(s, inputs);
            FailedFamily(t.state) && t.policyApplied == s.policyApplied
            && t.currentClosureAtDispatch == s.currentClosureAtDispatch
    decreases |inputs|
  {
    if inputs != [] {
      var next := Advance(s, inputs[0]);
      StepRollbacks(s, inputs[0]);
      StepKeepsCoherent(s, inputs[0]);
      FailedNeverFiresAgain(next, inputs[1..]);
      SelectAppend(OfRollback, StepEffects(s, inputs[0]), RunEffects(next, inputs[1..]));
    }
  }

  /**
   A run fires at most one rollback, only under rollback-and-halt, and always to the closure that was
   recorded when the dispatch was acknowledged.
   */
  lemma {:induction false} AtMostOneRollback(s: HostRolloutState, inputs: seq<Input>)
    requires Coherent(s)
    ensures var fired := Rollbacks(RunEffects(s, inputs));
            var t := RunState(s, inputs);
            && |fired| <= 1
            && (fired != [] ==>
                  && t.currentClosureAtDispatch.Some?
                  && fired[0] == LocalFireRollbackTo(s.rolloutId, t.currentClosureAtDispatch.value)
                  && FailedFamily(t.state) && t.policyApplied == Some(RollbackAndHalt))
    decreases |inputs|
  {
    if inputs != [] {
      var next := Advance(s, inputs[0]);
      StepRollbacks(s, inputs[0]);
      StepKeepsCoherent(s, inputs[0]);
      SelectAppend(OfRollback, StepEffects(s, inputs[0]), RunEffects(next, inputs[1..]));
      if FailedFamily(next.state) {
        FailedNeverFiresAgain(next, inputs[1..]);
      } else {
        AtMostOneRollback(next, inputs[1..]);
      }
    }
  }
}
