/**
 Same machine on both sides. The agent steps on local events and reports each accepted one; the control
 plane steps its mirror on the reports. The mirror follows in lockstep, and retransmissions do no harm.
 */
module Mirror {
  import opened Wrappers
  import opened HostMachine
  import opened HostRuns

  /** The projection of a report onto the control plane's event. */
  function ToRemote(p: OutboundAgentEvent): Event {
    match p
    case DispatchAck(prior, at, n) => RemoteDispatchAck(prior, at, n)
    case ActivationStarted(at, switchMethod, n) => RemoteActivationStarted(at, switchMethod, n)
    case ActivationCompleted(closure, exit, at, n) => RemoteActivationCompleted(closure, exit, at, n)
    case ActivationDeferred(component, at, n) => RemoteActivationDeferred(component, at, n)
    case ActivationFailed(exit, tail, at, n) => RemoteActivationFailed(exit, tail, at, n)
    case ProbeTopologyDeclared(probes, at, n) => RemoteProbeTopologyDeclared(probes, at, n)
    case ProbeObservedFirst(name, mode, at, n) => RemoteProbeObservedFirst(name, mode, at, n)
    case ProbeResult(name, mode, status, at, reason, subs, n) =>
      RemoteProbeResult(name, mode, status, at, reason, subs, n)
    case ProbeFailureFirst(name, mode, at, n) => RemoteProbeFailureFirst(name, mode, at, n)
    case FailedReport(at, secs, failing, applied, n) => RemoteFailed(at, secs, failing, applied, n)
    case RollbackComplete(closure, exit, at, n) => RemoteRollbackComplete(closure, exit, at, n)
    case ConvergedReport(at, closure, n) => RemoteConverged(at, closure, n)
  }

  /**
   The control plane's record agrees with the agent's on everything but the two fields each side fills
   in for itself: the host name (the agent uses a placeholder) and the dispatch time.
   */
  predicate MirrorOf(agent: HostRolloutState, cp: HostRolloutState) {
    cp == agent.(hostname := cp.hostname, dispatchedAt := cp.dispatchedAt)
  }

  /** The reports among the effects of a step. */
  function Reports(effects: seq<Effect>): seq<OutboundAgentEvent> {
    if effects == [] then []
    else (if effects[0].LocalEmitEvent? then [effects[0].payload] else []) + Reports(effects[1..])
  }

  /** Unrolls `Reports` for the short effect lists of a single step. */
  lemma ReportsShort(effects: seq<Effect>)
    requires |effects| <= 3
    ensures Reports(effects) ==
              (if |effects| > 0 && effects[0].LocalEmitEvent? then [effects[0].payload] else [])
              + (if |effects| > 1 && effects[1].LocalEmitEvent? then [effects[1].payload] else [])
              + (if |effects| > 2 && effects[2].LocalEmitEvent? then [effects[2].payload] else [])
  {
    if |effects| > 1 {
      var rest := effects[1..];
      assert Reports(rest) == (if rest[0].LocalEmitEvent? then [rest[0].payload] else []) + Reports(rest[1..]);
      if |effects| > 2 { assert rest[1..] == [effects[2]]; }
    }
  }

  /** An accepted local event produces exactly one report, carrying the event's own number. */
  lemma OneReport(agent: HostRolloutState, e: Event, policy: RolloutPolicy)
    requires e.IsLocal() && Step(agent, e, policy).Stepped?
    ensures Reports(Step(agent, e, policy).effects) == [ReportOf(e)] && ReportOf(e).seqNo == e.seqNo
  {
    if agent.state.Soaking? { SoakingReport(agent, e); }
    else { ReportsShort(Step(agent, e, policy).effects); }
  }

  lemma SoakingReport(agent: HostRolloutState, e: Event)
    requires e.IsLocal() && agent.state.Soaking? && FromSoaking(agent, e).Stepped?
    ensures Reports(FromSoaking(agent, e).effects) == [ReportOf(e)] && ReportOf(e).seqNo == e.seqNo
  {
    ReportsShort(FromSoaking(agent, e).effects);
  }

  /** What the agent says about each of its events. */
  function ReportOf(e: Event): OutboundAgentEvent
    requires e.IsLocal()
  {
    match e
    case LocalActivate(prior, _, at, _, n) => DispatchAck(prior, at, n)
    case LocalActivationStarted(at, switchMethod, n) => ActivationStarted(at, switchMethod, n)
    case LocalActivationCompleted(closure, exit, at, n) => ActivationCompleted(closure, exit, at, n)
    case LocalActivationDeferred(component, at, n) => ActivationDeferred(component, at, n)
    case LocalActivationFailed(exit, tail, at, n) => ActivationFailed(exit, tail, at, n)
    case LocalProbeTopologyDeclared(probes, at, n) => ProbeTopologyDeclared(probes, at, n)
    case LocalProbeObservedFirst(name, mode, at, n) => ProbeObservedFirst(name, mode, at, n)
    case LocalProbeResult(name, mode, status, at, reason, subs, n) =>
      ProbeResult(name, mode, status, at, reason, subs, n)
    case LocalProbeFailureFirst(name, mode, at, n) => ProbeFailureFirst(name, mode, at, n)
    case LocalSustainedFailureCrossed(at, secs, failing, applied, n) => FailedReport(at, secs, failing, applied, n)
    case LocalRollbackCompleted(closure, exit, at, n) => RollbackComplete(closure, exit, at, n)
    case LocalConvergedReached(at, closure, n) => ConvergedReport(at, closure, n)
  }

  /** The one place where the mirror consults its own policy instead of the report. */
  predicate PolicyMatters(agent: HostRolloutState, e: Event) {
    agent.state.Activating? && e.LocalActivationFailed?
  }

  lemma SoakingLockstep(agent: HostRolloutState, cp: HostRolloutState, e: Event)
    requires MirrorOf(agent, cp) && e.IsLocal() && agent.state.Soaking?
    requires FromSoaking(agent, e).Stepped?
    ensures FromSoaking(cp, ToRemote(ReportOf(e))).Stepped?
    ensures MirrorOf(FromSoaking(agent, e).next, FromSoaking(cp, ToRemote(ReportOf(e))).next)
  {
  }

  lemma ActivatingLockstep(agent: HostRolloutState, cp: HostRolloutState, e: Event,
                           agentPolicy: RolloutPolicy, cpPolicy: RolloutPolicy)
    requires MirrorOf(agent, cp) && e.IsLocal() && agent.state.Activating?
    requires FromActivating(agent, e, agentPolicy).Stepped?
    ensures FromActivating(cp, ToRemote(ReportOf(e)), cpPolicy).Stepped?
    ensures MirrorOf(FromActivating(agent, e, agentPolicy).next,
                     FromActivating(cp, ToRemote(ReportOf(e)), cpPolicy).next) <==>
              !e.LocalActivationFailed? || agentPolicy.onHealthFailure == cpPolicy.onHealthFailure
  {
  }

  lemma PendingLockstep(agent: HostRolloutState, cp: HostRolloutState, e: Event)
    requires MirrorOf(agent, cp) && e.IsLocal() && agent.state.Pending? && FromPending(agent, e).Stepped?
    ensures FromPending(cp, ToRemote(ReportOf(e))).Stepped?
    ensures MirrorOf(FromPending(agent, e).next, FromPending(cp, ToRemote(ReportOf(e))).next)
  {
  }

  lemma DeferredLockstep(agent: HostRolloutState, cp: HostRolloutState, e: Event)
    requires MirrorOf(agent, cp) && e.IsLocal() && agent.state.Deferred? && FromDeferred(agent, e).Stepped?
    ensures FromDeferred(cp, ToRemote(ReportOf(e))).Stepped?
    ensures MirrorOf(FromDeferred(agent, e).next, FromDeferred(cp, ToRemote(ReportOf(e))).next)
  {
  }

  lemma FailedLockstep(agent: HostRolloutState, cp: HostRolloutState, e: Event)
    requires MirrorOf(agent, cp) && e.IsLocal() && agent.state.Failed? && FromFailed(agent, e).Stepped?
    ensures FromFailed(cp, ToRemote(ReportOf(e))).Stepped?
    ensures MirrorOf(FromFailed(agent, e).next, FromFailed(cp, ToRemote(ReportOf(e))).next)
  {
  }

  lemma ElsewhereLockstep(agent: HostRolloutState, cp: HostRolloutState, e: Event,
                          agentPolicy: RolloutPolicy, cpPolicy: RolloutPolicy)
    requires MirrorOf(agent, cp) && e.IsLocal() && !agent.state.Activating?
    requires Step(agent, e, agentPolicy).Stepped?
    ensures Step(cp, ToRemote(ReportOf(e)), cpPolicy).Stepped?
    ensures MirrorOf(Step(agent, e, agentPolicy).next, Step(cp, ToRemote(ReportOf(e)), cpPolicy).next)
  {
    assert ToRemote(ReportOf(e)).seqNo == e.seqNo;
    match agent.state
    case Pending => PendingLockstep(agent, cp, e);
    case Deferred => DeferredLockstep(agent, cp, e);
    case Soaking => SoakingLockstep(agent, cp, e);
    case Failed => FailedLockstep(agent, cp, e);
    case _ =>
  }

  /**
   One step of lockstep. The mirror always accepts the report of an accepted event, and it ends in the
   agent's state exactly when the two sides hold the same health-failure policy or the event is not a
   failed activation.
   */
  lemma LockstepIff(agent: HostRolloutState, cp: HostRolloutState, e: Event,
                    agentPolicy: RolloutPolicy, cpPolicy: RolloutPolicy)
    requires MirrorOf(agent, cp) && e.IsLocal()
    requires Step(agent, e, agentPolicy).Stepped?
    ensures Step(cp, ToRemote(ReportOf(e)), cpPolicy).Stepped?
    ensures MirrorOf(Step(agent, e, agentPolicy).next, Step(cp, ToRemote(ReportOf(e)), cpPolicy).next) <==>
              !PolicyMatters(agent, e) || agentPolicy.onHealthFailure == cpPolicy.onHealthFailure
  {
    if agent.state.Activating? {
      assert ToRemote(ReportOf(e)).seqNo == e.seqNo;
      ActivatingLockstep(agent, cp, e, agentPolicy, cpPolicy);
    } else {
      ElsewhereLockstep(agent, cp, e, agentPolicy, cpPolicy);
    }
  }

  // ----- Runs

  /** All reports of an agent run, in order; each event is handled under the policy of that moment. */
  function RunReports(agent: HostRolloutState, inputs: seq<Input>): seq<OutboundAgentEvent>
    decreases |inputs|
  {
    if inputs == [] then []
    else Reports(StepEffects(agent, inputs[0])) + RunReports(Advance(agent, inputs[0]), inputs[1..])
  }

  predicate AllLocal(inputs: seq<Input>) {
    forall i :: 0 <= i < |inputs| ==> inputs[i].event.IsLocal()
  }

  /** A report as it arrives, with the policy the control plane resolves for it. */
  datatype Heard = Heard(report: OutboundAgentEvent, policy: RolloutPolicy)

  function AsInput(h: Heard): Input {
    Input(ToRemote(h.report), h.policy)
  }

  function Payloads(heard: seq<Heard>): (r: seq<OutboundAgentEvent>)
    ensures |r| == |heard| && forall i :: 0 <= i < |r| ==> r[i] == heard[i].report
  {
    seq(|heard|, i requires 0 <= i < |heard| => heard[i].report)
  }

  /** The mirror after hearing reports in the given order; rejected ones are logged and dropped. */
  function Hear(cp: HostRolloutState, heard: seq<Heard>): HostRolloutState
    decreases |heard|
  {
    if heard == [] then cp else Hear(Advance(cp, AsInput(heard[0])), heard[1..])
  }

  /** Every report is accepted when heard in turn. */
  predicate AllHeard(cp: HostRolloutState, heard: seq<Heard>)
    decreases |heard|
  {
    heard == [] ||
    (Step(cp, ToRemote(heard[0].report), heard[0].policy).Stepped? && AllHeard(Advance(cp, AsInput(heard[0])), heard[1..]))
  }

  /** Report numbers strictly ascend, all above `floor`. */
  predicate NumberedAbove(reports: seq<OutboundAgentEvent>, floor: u64) {
    && (forall i :: 0 <= i < |reports| ==> floor < reports[i].seqNo)
    && (forall i, j :: 0 <= i < j < |reports| ==> reports[i].seqNo < reports[j].seqNo)
  }

  /** The reports of a run are those of its first event, if accepted, and then those of the rest. */
  lemma FirstReport(agent: HostRolloutState, inputs: seq<Input>)
    requires inputs != [] && inputs[0].event.IsLocal()
    ensures var next := Advance(agent, inputs[0]);
            var rest := RunReports(next, inputs[1..]);
            if Step(agent, inputs[0].event, inputs[0].policy).Stepped?
            then RunReports(agent, inputs) == [ReportOf(inputs[0].event)] + rest
            else next == agent && RunReports(agent, inputs) == rest
  {
    var i := inputs[0];
    if Step(agent, i.event, i.policy).Stepped? { OneReport(agent, i.event, i.policy); }
    assert [] + RunReports(Advance(agent, i), inputs[1..]) == RunReports(Advance(agent, i), inputs[1..]);
  }

  lemma {:induction false} ReportsAscend(agent: HostRolloutState, inputs: seq<Input>)
    requires AllLocal(inputs)
    ensures NumberedAbove(RunReports(agent, inputs), agent.lastEventSeq)
    decreases |inputs|
  {
    if inputs != [] {
      FirstReport(agent, inputs);
      StepAdvancesSeq(agent, inputs[0]);
      if Step(agent, inputs[0].event, inputs[0].policy).Stepped? { OneReport(agent, inputs[0].event, inputs[0].policy); }
      ReportsAscend(Advance(agent, inputs[0]), inputs[1..]);
    }
  }

  // ----- Two policies

  /** In step on everything but, possibly, the policy recorded at a failure. */
  predicate MirrorButPolicy(agent: HostRolloutState, cp: HostRolloutState) {
    cp == agent.(hostname := cp.hostname, dispatchedAt := cp.dispatchedAt, policyApplied := cp.policyApplied)
  }

  lemma SoakingButPolicy(agent: HostRolloutState, cp: HostRolloutState, e: Event)
    requires MirrorButPolicy(agent, cp) && e.IsLocal() && agent.state.Soaking?
    requires FromSoaking(agent, e).Stepped?
    ensures FromSoaking(cp, ToRemote(ReportOf(e))).Stepped?
    ensures MirrorButPolicy(FromSoaking(agent, e).next, FromSoaking(cp, ToRemote(ReportOf(e))).next)
  {
  }

  lemma ActivatingButPolicy(agent: HostRolloutState, cp: HostRolloutState, e: Event,
                            agentPolicy: RolloutPolicy, cpPolicy: RolloutPolicy)
    requires MirrorButPolicy(agent, cp) && e.IsLocal() && agent.state.Activating?
    requires FromActivating(agent, e, agentPolicy).Stepped?
    ensures FromActivating(cp, ToRemote(ReportOf(e)), cpPolicy).Stepped?
    ensures MirrorButPolicy(FromActivating(agent, e, agentPolicy).next,
                            FromActivating(cp, ToRemote(ReportOf(e)), cpPolicy).next)
  {
  }

  /** Whatever the two policies, the report of an accepted event is accepted and keeps the rest in step. */
  lemma StepButPolicy(agent: HostRolloutState, cp: HostRolloutState, e: Event,
                      agentPolicy: RolloutPolicy, cpPolicy: RolloutPolicy)
    requires MirrorButPolicy(agent, cp) && e.IsLocal() && Step(agent, e, agentPolicy).Stepped?
    ensures Step(cp, ToRemote(ReportOf(e)), cpPolicy).Stepped?
    ensures MirrorButPolicy(Step(agent, e, agentPolicy).next, Step(cp, ToRemote(ReportOf(e)), cpPolicy).next)
  {
    assert ToRemote(ReportOf(e)).seqNo == e.seqNo;
    if agent.state.Soaking? { SoakingButPolicy(agent, cp, e); }
    else if agent.state.Activating? { ActivatingButPolicy(agent, cp, e, agentPolicy, cpPolicy); }
  }

  /** After a failure the recorded policy is never rewritten, on either side. */
  lemma BrokenKeepsPolicy(agent: HostRolloutState, cp: HostRolloutState, e: Event,
                          agentPolicy: RolloutPolicy, cpPolicy: RolloutPolicy)
    requires FailedFamily(agent.state) && MirrorButPolicy(agent, cp) && e.IsLocal()
    requires Step(agent, e, agentPolicy).Stepped?
    ensures var a, c := Step(agent, e, agentPolicy).next, Advance(cp, Input(ToRemote(ReportOf(e)), cpPolicy));
            FailedFamily(a.state) && a.policyApplied == agent.policyApplied && c.policyApplied == cp.policyApplied
  {
  }

  /** The two policies agree on the health-failure action at each failed activation. */
  predicate PoliciesAgree(agent: HostRolloutState, inputs: seq<Input>, heard: seq<Heard>)
    decreases |inputs|
  {
    if inputs == [] then true
    else
      var i := inputs[0];
      if Step(agent, i.event, i.policy).Stepped? then
        && heard != []
        && (PolicyMatters(agent, i.event) ==> i.policy.onHealthFailure == heard[0].policy.onHealthFailure)
        && PoliciesAgree(Advance(agent, i), inputs[1..], heard[1..])
      else PoliciesAgree(agent, inputs[1..], heard)
  }

  lemma PayloadsTail(heard: seq<Heard>)
    requires heard != []
    ensures Payloads(heard)[0] == heard[0].report && Payloads(heard)[1..] == Payloads(heard[1..])
  {
  }

  lemma HeardTail(heard: seq<Heard>, r: OutboundAgentEvent, rest: seq<OutboundAgentEvent>)
    requires Payloads(heard) == [r] + rest
    ensures heard != [] && heard[0].report == r && Payloads(heard[1..]) == rest
  {
    assert |heard| == |[r] + rest|;
    assert Payloads(heard)[0] == r;
    assert Payloads(heard[1..]) == Payloads(heard)[1..] == rest;
  }

  /** Every report of every run is accepted, whatever the policies of the two sides. */
  lemma {:induction false} RunIsHeard(agent: HostRolloutState, cp: HostRolloutState, inputs: seq<Input>, heard: seq<Heard>)
    requires MirrorButPolicy(agent, cp) && AllLocal(inputs) && Payloads(heard) == RunReports(agent, inputs)
    ensures AllHeard(cp, heard) && MirrorButPolicy(RunState(agent, inputs), Hear(cp, heard))
    ensures FailedFamily(agent.state) ==>
              RunState(agent, inputs).policyApplied == agent.policyApplied && Hear(cp, heard).policyApplied == cp.policyApplied
    decreases |inputs|
  {
    if inputs != [] {
      var i := inputs[0];
      FirstReport(agent, inputs);
      if Step(agent, i.event, i.policy).Stepped? {
        HeardTail(heard, ReportOf(i.event), RunReports(Advance(agent, i), inputs[1..]));
        StepButPolicy(agent, cp, i.event, i.policy, heard[0].policy);
        if FailedFamily(agent.state) { BrokenKeepsPolicy(agent, cp, i.event, i.policy, heard[0].policy); }
        RunIsHeard(Advance(agent, i), Advance(cp, AsInput(heard[0])), inputs[1..], heard[1..]);
      } else {
        RunIsHeard(agent, cp, inputs[1..], heard);
      }
    } else {
      assert heard == [];
    }
  }

  /**
   Over every agent run, with policies that change on both sides as they may: the mirror ends in the
   agent's state exactly when the two sides agreed at each failed activation.
   */
  lemma {:induction false} RunLockstepIff(agent: HostRolloutState, cp: HostRolloutState, inputs: seq<Input>, heard: seq<Heard>)
    requires MirrorOf(agent, cp) && AllLocal(inputs) && Payloads(heard) == RunReports(agent, inputs)
    ensures MirrorOf(RunState(agent, inputs), Hear(cp, heard)) <==> PoliciesAgree(agent, inputs, heard)
    decreases |inputs|
  {
    if inputs == [] {
      assert heard == [];
    } else {
      var i := inputs[0];
      FirstReport(agent, inputs);
      if Step(agent, i.event, i.policy).Stepped? {
        HeardTail(heard, ReportOf(i.event), RunReports(Advance(agent, i), inputs[1..]));
        var next, mirrored := Advance(agent, i), Advance(cp, AsInput(heard[0]));
        LockstepIff(agent, cp, i.event, i.policy, heard[0].policy);
        if MirrorOf(next, mirrored) {
          RunLockstepIff(next, mirrored, inputs[1..], heard[1..]);
        } else {
          StepButPolicy(agent, cp, i.event, i.policy, heard[0].policy);
          assert next.state.Failed? && next.policyApplied != mirrored.policyApplied;
          RunIsHeard(next, mirrored, inputs[1..], heard[1..]);
        }
      } else {
        RunLockstepIff(agent, cp, inputs[1..], heard);
      }
    }
  }

  // ----- Retransmission

  /** Everything in `delivery` is either the next new item or a repeat of an earlier one, up to the last item. */
  predicate InOrderWithRepeats<T(==)>(items: seq<T>, count: nat, delivery: seq<T>)
    requires count <= |items|
    decreases |delivery|
  {
    if delivery == [] then count == |items|
    else if count < |items| && delivery[0] == items[count] then InOrderWithRepeats(items, count + 1, delivery[1..])
    else delivery[0] in items[..count] && InOrderWithRepeats(items, count, delivery[1..])
  }

  /** The first hearing of each report from `count` on. */
  function FirstHearings(reports: seq<OutboundAgentEvent>, count: nat, delivery: seq<Heard>): seq<Heard>
    requires count <= |reports|
    decreases |delivery|
  {
    if delivery == [] then []
    else if count < |reports| && delivery[0].report == reports[count] then
      [delivery[0]] + FirstHearings(reports, count + 1, delivery[1..])
    else FirstHearings(reports, count, delivery[1..])
  }

  /** A report numbered at or below what the mirror has seen leaves it alone. */
  lemma RepeatIsIgnored(cp: HostRolloutState, report: OutboundAgentEvent, policy: RolloutPolicy)
    requires report.seqNo <= cp.lastEventSeq
    ensures Advance(cp, Input(ToRemote(report), policy)) == cp
  {
  }

  lemma DeliveryHead(reports: seq<OutboundAgentEvent>, count: nat, delivery: seq<Heard>)
    requires count <= |reports| && delivery != [] && InOrderWithRepeats(reports, count, Payloads(delivery))
    ensures var h, rest := delivery[0], delivery[1..];
            && delivery == [h] + rest
            && if count < |reports| && h.report == reports[count] then
                 && InOrderWithRepeats(reports, count + 1, Payloads(rest))
                 && FirstHearings(reports, count, delivery) == [h] + FirstHearings(reports, count + 1, rest)
                 && reports[..count + 1] == reports[..count] + [h.report]
               else
                 && InOrderWithRepeats(reports, count, Payloads(rest)) && h.report in reports[..count]
                 && FirstHearings(reports, count, delivery) == FirstHearings(reports, count, rest)
  {
    PayloadsTail(delivery);
  }

  lemma PayloadsCons(h: Heard, rest: seq<Heard>)
    ensures Payloads([h] + rest) == [h.report] + Payloads(rest)
  {
  }

  lemma ReportsFrom(reports: seq<OutboundAgentEvent>, count: nat)
    requires count < |reports|
    ensures reports[count..] == [reports[count]] + reports[count + 1..]
  {
  }

  lemma {:induction false} FirstHearingsCover(reports: seq<OutboundAgentEvent>, count: nat, delivery: seq<Heard>)
    requires count <= |reports| && InOrderWithRepeats(reports, count, Payloads(delivery))
    ensures Payloads(FirstHearings(reports, count, delivery)) == reports[count..]
    decreases |delivery|
  {
    if delivery == [] {
      assert Payloads(delivery) == [] == reports[count..];
    } else {
      DeliveryHead(reports, count, delivery);
      var h, rest := delivery[0], delivery[1..];
      if count < |reports| && h.report == reports[count] {
        FirstHearingsCover(reports, count + 1, rest);
        PayloadsCons(h, FirstHearings(reports, count + 1, rest));
        ReportsFrom(reports, count);
      } else {
        FirstHearingsCover(reports, count, rest);
      }
    }
  }

  lemma AcceptedReport(cp: HostRolloutState, h: Heard)
    requires Step(cp, ToRemote(h.report), h.policy).Stepped?
    ensures cp.lastEventSeq < h.report.seqNo == Advance(cp, AsInput(h)).lastEventSeq
  {
    StepAdvancesSeq(cp, AsInput(h));
  }

  lemma HearFirst(cp: HostRolloutState, h: Heard, rest: seq<Heard>)
    ensures Hear(cp, [h] + rest) == Hear(Advance(cp, AsInput(h)), rest)
    ensures AllHeard(cp, [h] + rest) ==>
              Step(cp, ToRemote(h.report), h.policy).Stepped? && AllHeard(Advance(cp, AsInput(h)), rest)
  {
    assert ([h] + rest)[1..] == rest;
  }

  predicate AllSeen(cp: HostRolloutState, reports: seq<OutboundAgentEvent>) {
    forall r :: r in reports ==> r.seqNo <= cp.lastEventSeq
  }

  lemma {:induction false} RepeatsHarmlessFrom(cp: HostRolloutState, reports: seq<OutboundAgentEvent>, count: nat,
                                               delivery: seq<Heard>)
    requires count <= |reports| && InOrderWithRepeats(reports, count, Payloads(delivery))
    requires AllHeard(cp, FirstHearings(reports, count, delivery)) && AllSeen(cp, reports[..count])
    ensures Hear(cp, delivery) == Hear(cp, FirstHearings(reports, count, delivery))
    decreases |delivery|
  {
    if delivery != [] {
      var h, rest := delivery[0], delivery[1..];
      DeliveryHead(reports, count, delivery);
      HearFirst(cp, h, rest);
      if count < |reports| && h.report == reports[count] {
        HearFirst(cp, h, FirstHearings(reports, count + 1, rest));
        AcceptedReport(cp, h);
        RepeatsHarmlessFrom(Advance(cp, AsInput(h)), reports, count + 1, rest);
      } else {
        RepeatIsIgnored(cp, h.report, h.policy);
        RepeatsHarmlessFrom(cp, reports, count, rest);
      }
    }
  }

  /**
   At-least-once delivery in order is as good as exactly once: however often earlier reports are repeated,
   and under whatever policies, only the first hearing of each report matters.
   */
  lemma RepeatsAreHarmless(agent: HostRolloutState, cp: HostRolloutState, inputs: seq<Input>, delivery: seq<Heard>)
    requires MirrorOf(agent, cp) && AllLocal(inputs)
    requires InOrderWithRepeats(RunReports(agent, inputs), 0, Payloads(delivery))
    ensures var heard := FirstHearings(RunReports(agent, inputs), 0, delivery);
            && Hear(cp, delivery) == Hear(cp, heard) && AllHeard(cp, heard)
            && (MirrorOf(RunState(agent, inputs), Hear(cp, delivery)) <==> PoliciesAgree(agent, inputs, heard))
  {
    var reports := RunReports(agent, inputs);
    var heard := FirstHearings(reports, 0, delivery);
    FirstHearingsCover(reports, 0, delivery);
    assert reports[0..] == reports;
    RunIsHeard(agent, cp, inputs, heard);
    RunLockstepIff(agent, cp, inputs, heard);
    ReportsAscend(agent, inputs);
    RepeatsHarmlessFrom(cp, reports, 0, delivery);
  }
}
