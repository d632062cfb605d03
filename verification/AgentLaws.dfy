/** What the agent reducer promises over runs: merges, the failure timer, numbering, and bootstrap. */
module AgentLaws {
  import opened Wrappers
  import opened HostMachine
  import opened HostRuns
  import opened AgentReducer
  import opened Mirror
  import RolloutIds

  // ----- Snapshot merge

  /** Merging is absorbing: only the last snapshot shows, over whatever local entry there was. */
  lemma MergeAbsorbs(existing: Option<HostRolloutState>, s1: Snapshot, s2: Snapshot)
    ensures MergeSnapshot(Some(MergeSnapshot(existing, s1)), s2) == MergeSnapshot(existing, s2)
  {
  }

  /**
   A warm merge is harmless exactly when the snapshot is not behind: it leaves the record alone, up to
   the host name and dispatch time the control plane fills in, iff the mirror is in the agent's state
   on every field a snapshot carries.
   */
  lemma WarmMergeIsIdentityIff(agent: HostRolloutState, cp: HostRolloutState)
    ensures MirrorOf(MergeSnapshot(Some(agent), SnapshotOf(cp)), agent) <==>
              SnapshotOf(cp) == SnapshotOf(agent).(hostname := cp.hostname, dispatchedAt := cp.dispatchedAt)
  {
    var merged := MergeSnapshot(Some(agent), SnapshotOf(cp));
    if MirrorOf(merged, agent) {
      assert agent.lastEventSeq == cp.lastEventSeq && agent.rolloutId == cp.rolloutId;
    }
  }

  /** The event as the agent numbers it once the snapshot has been merged. */
  function AfterMerge(agent: HostRolloutState, snap: Snapshot, e: Event): Event {
    WithSeq(e, NextSeq(MergeSnapshot(Some(agent), snap).lastEventSeq))
  }

  /**
   Merging a snapshot sets the counter to the snapshot's. Short of wrapping, the next event gets a number
   the mirror has not seen exactly when the snapshot is not behind the agent; otherwise its report is
   ignored under any policy.
   */
  lemma NextIsNewIff(agent: HostRolloutState, cp: HostRolloutState, snap: Snapshot, e: Event)
    requires agent.lastEventSeq == cp.lastEventSeq && snap.lastEventSeq + 1 < U64_LIMIT
    requires e.IsLocal() && !e.LocalActivationDeferred?
    ensures var next := AfterMerge(agent, snap, e);
            && next.IsLocal()
            && (cp.lastEventSeq < ReportOf(next).seqNo <==> agent.lastEventSeq <= snap.lastEventSeq)
            && (snap.lastEventSeq < agent.lastEventSeq ==>
                  forall policy :: Advance(cp, Input(ToRemote(ReportOf(next)), policy)) == cp)
  {
    WithSeqNumbers(e, snap.lastEventSeq + 1);
    var next := AfterMerge(agent, snap, e);
    assert ReportOf(next).seqNo == snap.lastEventSeq + 1;
    if snap.lastEventSeq < agent.lastEventSeq {
      forall policy ensures Advance(cp, Input(ToRemote(ReportOf(next)), policy)) == cp {
        RepeatIsIgnored(cp, ReportOf(next), policy);
      }
    }
  }

  /** A run without reports changes nothing; one with reports moves the counter. */
  lemma {:induction false} RunMovesCounter(agent: HostRolloutState, inputs: seq<Input>)
    requires AllLocal(inputs)
    ensures if RunReports(agent, inputs) == [] then RunState(agent, inputs) == agent
            else agent.lastEventSeq < RunState(agent, inputs).lastEventSeq
    decreases |inputs|
  {
    if inputs != [] {
      FirstReport(agent, inputs);
      StepAdvancesSeq(agent, inputs[0]);
      RunMovesCounter(Advance(agent, inputs[0]), inputs[1..]);
    }
  }

  /**
   A snapshot taken from the mirror reaches the agent after a run whose reports the mirror has heard since.
   The mirror accepts the report of the agent's next accepted event exactly when that run reported nothing:
   any report in flight while the snapshot travelled costs the next one.
   */
  lemma NextIsHeardIff(agent: HostRolloutState, cp: HostRolloutState, inputs: seq<Input>, heard: seq<Heard>,
                       e: Event, agentPolicy: RolloutPolicy, cpPolicy: RolloutPolicy)
    requires MirrorOf(agent, cp) && AllLocal(inputs) && Payloads(heard) == RunReports(agent, inputs)
    requires cp.lastEventSeq + 1 < U64_LIMIT && e.IsLocal() && !e.LocalActivationDeferred?
    requires var later := RunState(agent, inputs);
             Step(MergeSnapshot(Some(later), SnapshotOf(cp)), AfterMerge(later, SnapshotOf(cp), e), agentPolicy).Stepped?
    ensures var next := AfterMerge(RunState(agent, inputs), SnapshotOf(cp), e);
            && next.IsLocal()
            && (Step(Hear(cp, heard), ToRemote(ReportOf(next)), cpPolicy).Stepped? <==> RunReports(agent, inputs) == [])
  {
    var later, mirror, snap := RunState(agent, inputs), Hear(cp, heard), SnapshotOf(cp);
    RunIsHeard(agent, cp, inputs, heard);
    RunMovesCounter(agent, inputs);
    NextIsNewIff(later, mirror, snap, e);
    var next := AfterMerge(later, snap, e);
    if RunReports(agent, inputs) == [] {
      assert heard == [];
      MergeOfMirror(agent, cp);
      LockstepIff(cp, cp, next, agentPolicy, cpPolicy);
    } else {
      StepAdvancesSeq(mirror, Input(ToRemote(ReportOf(next)), cpPolicy));
    }
  }

  /** Merging the mirror's own snapshot while in step gives the mirror's record. */
  lemma MergeOfMirror(agent: HostRolloutState, cp: HostRolloutState)
    requires MirrorOf(agent, cp)
    ensures MergeSnapshot(Some(agent), SnapshotOf(cp)) == cp
  {
  }

  // ----- The sustained-failure timer

  /** What can reach a soaking rollout between two of its own events. */
  datatype Quiet = WarmSnapshot(snap: Snapshot) | NewManifests(m: Manifests) | Tick(now: Instant)

  datatype View = View(record: HostRolloutState, manifests: Option<Manifests>)

  function QuietStep(v: View, q: Quiet): View {
    match q
    case WarmSnapshot(snap) => v.(record := MergeSnapshot(Some(v.record), snap))
    case NewManifests(m) => v.(manifests := Some(m))
    case Tick(now) => v.(record := Ticked(v.record, v.manifests, now))
  }

  function QuietRun(v: View, qs: seq<Quiet>): View
    decreases |qs|
  {
    if qs == [] then v else QuietRun(QuietStep(v, qs[0]), qs[1..])
  }

  /** The threshold in nanoseconds: whole-second truncation does not move it. */
  lemma ThresholdIsExact(now: Instant, f: Instant)
    ensures NumSeconds(now - f) >= SUSTAINED_FAILURE_THRESHOLD_SECS <==> f + 120 * NANOS_PER_SEC <= now
  {
  }

  /** A soaking record whose failure clock started at `f` and whose enforce probes are not all passing. */
  predicate Failing(s: HostRolloutState, f: Instant) {
    s.state.Soaking? && s.probeFailureFirstAt == Some(f) && FailingSet(s.probes) != {}
  }

  /** The input leaves the rollout soaking and, if it is a tick, comes before the deadline. */
  predicate BeforeDeadline(q: Quiet, f: Instant) {
    match q
    case WarmSnapshot(snap) => snap.state.Soaking?
    case NewManifests(_) => true
    case Tick(now) => now < f + 120 * NANOS_PER_SEC
  }

  lemma {:induction false} TimerSurvives(v: View, f: Instant, qs: seq<Quiet>)
    requires Failing(v.record, f)
    requires forall q :: q in qs ==> BeforeDeadline(q, f)
    ensures Failing(QuietRun(v, qs).record, f)
    ensures QuietRun(v, qs).record.probes == v.record.probes
    decreases |qs|
  {
    if qs != [] {
      FailingSetEmptyIff(v.record.probes);
      assert BeforeDeadline(qs[0], f);
      match qs[0] {
        case Tick(now) => ThresholdIsExact(now, f);
        case _ =>
      }
      TimerSurvives(QuietStep(v, qs[0]), f, qs[1..]);
    }
  }

  /**
   The failure timer cannot be starved. Whatever snapshots and manifest refreshes come in between, ticks
   before the deadline synthesise nothing for the failing rollout, and the first tick at or after it
   synthesises the sustained failure with the full elapsed time; with a policy in the cache the rollout
   is then Failed.
   */
  lemma TimerCannotBeStarved(v: View, f: Instant, qs: seq<Quiet>, now: Instant)
    requires Failing(v.record, f)
    requires forall q :: q in qs ==> BeforeDeadline(q, f)
    ensures var u := QuietRun(v, qs);
            if now < f + 120 * NANOS_PER_SEC then !Gated(u.record, now)
            else
              && FailGate(u.record, now) && !PassGate(u.record, now)
              && (forall e :: SynthEvent(u.record, u.manifests, now, e) ==>
                    && e.LocalSustainedFailureCrossed?
                    && e.failedAt == now
                    && e.sustainedDurationSecs == (now - f) / NANOS_PER_SEC
                    && (set name | name in e.failingProbes) == FailingSet(v.record.probes))
              && (ResolvePolicy(u.manifests, u.record.channel).Some? && u.record.lastEventSeq + 1 < U64_LIMIT ==>
                    var after := Ticked(u.record, u.manifests, now);
                    after.state.Failed? && after.failedAt == Some(now)
                    && after.policyApplied ==
                       Some(ResolvePolicy(u.manifests, u.record.channel).value.onHealthFailure))
  {
    TimerSurvives(v, f, qs);
    var u := QuietRun(v, qs);
    FailingSetEmptyIff(u.record.probes);
    ThresholdIsExact(now, f);
  }

  // ----- Numbering

  /** Every local event but one is renumbered, and nothing else about it changes. */
  lemma WithSeqNumbers(e: Event, n: u64)
    requires e.IsLocal()
    ensures WithSeq(e, n).IsLocal()
    ensures if e.LocalActivationDeferred? then WithSeq(e, n) == e
            else WithSeq(e, n).seqNo == n && WithSeq(WithSeq(e, n), e.seqNo) == e
  {
  }

  /**
   A deferred activation is accepted exactly when its own number beats the counter. The worker numbers it
   0, so it never is: no effect, no state change, whatever the record.
   */
  lemma DeferralAcceptedIff(states: HostStates, m: Option<Manifests>, now: Instant, id: string,
                            component: string, at: Instant, n: u64)
    ensures HandleEvent(states, m, now, id, LocalActivationDeferred(component, at, n)).effects != [] <==>
              && id in states && states[id].state.Activating?
              && ResolvePolicy(m, states[id].channel).Some?
              && states[id].lastEventSeq < n
    ensures HandleEvent(states, m, now, id, LocalActivationDeferred(component, at, 0)) == Handled(states, [])
  {
  }

  /** No record is Deferred. */
  predicate NoneDeferred(states: HostStates) {
    forall id :: id in states ==> !states[id].state.Deferred?
  }

  /** So the agent's own events never bring a record into Deferred, although the machine has such a state. */
  lemma DeferredIsUnreachable(states: HostStates, m: Option<Manifests>, now: Instant, id: string, e: Event)
    requires NoneDeferred(states) && e.IsLocal()
    requires e.LocalActivationDeferred? ==> e.seqNo == 0
    ensures NoneDeferred(HandleEvent(states, m, now, id, e).states)
  {
    if e.LocalActivationDeferred? {
      DeferralAcceptedIff(states, m, now, id, e.component, e.deferredAt, 0);
    } else if id in states {
      NotDeferredAfter(states[id], WithSeq(e, NextSeq(states[id].lastEventSeq)), ResolvePolicy(m, states[id].channel));
    } else if e.LocalActivate? {
      var s := BootstrapPending(id, e.targetClosure, e.soakDueAt, now);
      NotDeferredAfter(s, WithSeq(e, NextSeq(s.lastEventSeq)), ResolvePolicy(m, s.channel));
    }
  }

  lemma NotDeferredAfter(s: HostRolloutState, e: Event, policy: Option<RolloutPolicy>)
    requires !s.state.Deferred? && e.IsLocal() && !e.LocalActivationDeferred?
    ensures policy.Some? && Step(s, e, policy.value).Stepped? ==> !Step(s, e, policy.value).next.state.Deferred?
  {
  }

  /** An event that is accepted takes the next number, so the counter has no gaps and never repeats. */
  lemma AcceptedTakesNext(states: HostStates, m: Option<Manifests>, now: Instant, id: string, e: Event)
    requires id in states && e.IsLocal() && !e.LocalActivationDeferred?
    ensures var after := HandleEvent(states, m, now, id, e);
            if after.effects != []
            then id in after.states && after.states[id].lastEventSeq == states[id].lastEventSeq + 1
            else after.states == states
  {
    WithSeqNumbers(e, NextSeq(states[id].lastEventSeq));
    var policy := ResolvePolicy(m, states[id].channel);
    if policy.Some? {
      var i := Input(WithSeq(e, NextSeq(states[id].lastEventSeq)), policy.value);
      StepAdvancesSeq(states[id], i);
      if Step(states[id], i.event, i.policy).Stepped? { OneReport(states[id], i.event, i.policy); }
    }
  }

  // ----- Bootstrap

  /**
   The two sides start in step: when a dispatch carries the target and soak deadline of the control
   plane's pending record, the record the agent bootstraps from it is mirrored by that record.
   */
  lemma BootstrapMirrors(channel: string, channelRef: string, host: string, target: string,
                         dispatchedAt: Instant, soakDueAt: Instant, now: Instant)
    ensures var id := RolloutIds.New(channel, channelRef);
            var agent := BootstrapPending(id, target, soakDueAt, now);
            var cp := NewPending(id, host, channel, target, dispatchedAt, soakDueAt);
            MirrorOf(agent, cp) <==> '@' !in channel
  {
    RolloutIds.RoundTripIff(channel, channelRef);
  }
}
