/** What a heartbeat with a known closure does to a host's record: the events a lost report would have sent. */
module Recovery {
  import opened Wrappers
  import opened Fleet
  import opened Gates
  import CL = ControlLoop
  import CP = ControlPlane
  import HM = HostMachine
  import HR = HostRuns
  import opened Verdicts

  type Key = CP.Key

  /** Converged no earlier than the soak deadline, whenever the heartbeat came. */
  function ConvergedAt(record: HM.HostRolloutState, at: Instant): Instant {
    if record.soakDueAt.Some? && record.soakDueAt.value > at then record.soakDueAt.value else at
  }

  predicate RoomFor(record: HM.HostRolloutState, n: nat) {
    record.lastEventSeq + n < U64_LIMIT
  }

  function AckEvent(record: HM.HostRolloutState, at: Instant): HM.Event
    requires RoomFor(record, 3)
  {
    HM.RemoteDispatchAck("", at, record.lastEventSeq + 1)
  }

  function CompletedEvent(record: HM.HostRolloutState, current: string, at: Instant, n: nat): HM.Event
    requires RoomFor(record, n)
  {
    HM.RemoteActivationCompleted(current, 0, at, record.lastEventSeq + n)
  }

  function ConvergedEvent(record: HM.HostRolloutState, current: string, at: Instant): HM.Event
    requires RoomFor(record, 3)
  {
    HM.RemoteConverged(ConvergedAt(record, at), current, record.lastEventSeq + 3)
  }

  /** The synthesised chain for a pending host that already runs its target. */
  function PendingChain(cp: CP.Cp, key: Key, current: string, at: Instant, stamp: CP.Stamp,
                        policy: Option<HM.RolloutPolicy>): CP.Cp
    requires key in cp.records && RoomFor(cp.records[key], 3)
  {
    var record := cp.records[key];
    var acked := CP.HostEvent(cp, key, AckEvent(record, at), policy, stamp);
    var soaking := CP.HostEvent(acked, key, CompletedEvent(record, current, at, 2), policy, stamp);
    CP.HostEvent(soaking, key, ConvergedEvent(record, current, at), policy, stamp)
  }

  /** The record once the missed transition has been made up for, with the heartbeat's closure and time. */
  predicate Repaired(record: HM.HostRolloutState, current: string, at: Instant, t: HM.HostRolloutState) {
    match record.state
    case Pending =>
      t.lastEventSeq == record.lastEventSeq + 3
      && t == record.(
           state := HM.Converged, currentClosureAtDispatch := Some(""), dispatchAckedAt := Some(at),
           activationCompletedAt := Some(at), currentClosure := Some(current), probes := map[],
           convergedAt := if record.soakDueAt.Some? && at < record.soakDueAt.value then record.soakDueAt else Some(at),
           lastEventSeq := t.lastEventSeq)
    case Activating => Completed(record, current, at, t)
    case Deferred => Completed(record, current, at, t)
    case Failed =>
      t.lastEventSeq == record.lastEventSeq + 1
      && t == record.(state := HM.Reverted, revertedAt := Some(at), revertedTo := Some(current),
                      currentClosure := Some(current), lastEventSeq := t.lastEventSeq)
    case _ => false
  }

  predicate Completed(record: HM.HostRolloutState, current: string, at: Instant, t: HM.HostRolloutState) {
    t.lastEventSeq == record.lastEventSeq + 1
    && t == record.(state := HM.Soaking, activationCompletedAt := Some(at), currentClosure := Some(current),
                    probes := map[], lastEventSeq := t.lastEventSeq)
  }

  /** The host's own record through the chain, leaving the tables aside. */
  lemma ChainSteps(record: HM.HostRolloutState, at: Instant, policy: HM.RolloutPolicy) returns (end: HM.HostRolloutState)
    requires HR.Coherent(record) && record.state.Pending? && RoomFor(record, 3)
    ensures var first := HM.Step(record, AckEvent(record, at), policy);
            && first.Stepped?
            && var second := HM.Step(first.next, CompletedEvent(record, record.targetClosure, at, 2), policy);
               && second.Stepped?
               && HM.Step(second.next, ConvergedEvent(record, record.targetClosure, at), policy).Stepped?
               && end == HM.Step(second.next, ConvergedEvent(record, record.targetClosure, at), policy).next
    ensures end.state.Converged? && end.currentClosure == Some(record.targetClosure)
    ensures end.lastEventSeq == record.lastEventSeq + 3 && end.probes == map[]
    ensures Repaired(record, record.targetClosure, at, end)
  {
    var first := HM.Step(record, AckEvent(record, at), policy);
    assert first == HM.FromPending(record, AckEvent(record, at));
    var done := CompletedEvent(record, record.targetClosure, at, 2);
    var second := HM.Step(first.next, done, policy);
    assert second == HM.CompleteActivation(first.next, done);
    var last := ConvergedEvent(record, record.targetClosure, at);
    assert HM.VerifyConverged(second.next, record.targetClosure, ConvergedAt(record, at)).None?;
    end := HM.Step(second.next, last, policy).next;
  }

  lemma AcceptedWrites(cp: CP.Cp, key: Key, event: HM.Event, policy: HM.RolloutPolicy, stamp: CP.Stamp,
                       next: HM.HostRolloutState)
    requires key in cp.records && HM.Step(cp.records[key], event, policy).Stepped?
    requires next == HM.Step(cp.records[key], event, policy).next
    ensures CP.HostEvent(cp, key, event, Some(policy), stamp).records == cp.records[key := next]
  {
    HR.StepAdvancesSeq(cp.records[key], HR.Input(event, policy));
  }

  lemma ChainKeepsInv(cp: CP.Cp, key: Key, current: string, at: Instant, stamp: CP.Stamp, policy: HM.RolloutPolicy)
    requires CP.Inv(cp) && key in cp.records && RoomFor(cp.records[key], 3)
    ensures CP.Inv(PendingChain(cp, key, current, at, stamp, Some(policy)))
  {
    var record := cp.records[key];
    CP.HostEventKeeps(cp, key, AckEvent(record, at), Some(policy), stamp);
    var acked := CP.HostEvent(cp, key, AckEvent(record, at), Some(policy), stamp);
    CP.HostEventKeeps(acked, key, CompletedEvent(record, current, at, 2), Some(policy), stamp);
    var soaking := CP.HostEvent(acked, key, CompletedEvent(record, current, at, 2), Some(policy), stamp);
    CP.HostEventKeeps(soaking, key, ConvergedEvent(record, current, at), Some(policy), stamp);
  }

  lemma ChainWrites(cp: CP.Cp, key: Key, at: Instant, stamp: CP.Stamp, policy: HM.RolloutPolicy)
    returns (end: HM.HostRolloutState)
    requires key in cp.records && HR.Coherent(cp.records[key])
    requires cp.records[key].state.Pending? && RoomFor(cp.records[key], 3)
    ensures PendingChain(cp, key, cp.records[key].targetClosure, at, stamp, Some(policy)).records == cp.records[key := end]
    ensures end.state.Converged? && end.lastEventSeq == cp.records[key].lastEventSeq + 3
    ensures Repaired(cp.records[key], cp.records[key].targetClosure, at, end)
  {
    var record := cp.records[key];
    var target := record.targetClosure;
    end := ChainSteps(record, at, policy);
    var ack, done, last := AckEvent(record, at), CompletedEvent(record, target, at, 2), ConvergedEvent(record, target, at);
    var first := HM.Step(record, ack, policy).next;
    AcceptedWrites(cp, key, ack, policy, stamp, first);
    var acked := CP.HostEvent(cp, key, ack, Some(policy), stamp);
    var second := HM.Step(first, done, policy).next;
    AcceptedWrites(acked, key, done, policy, stamp, second);
    var soaking := CP.HostEvent(acked, key, done, Some(policy), stamp);
    AcceptedWrites(soaking, key, last, policy, stamp, end);
  }

  /**
   Recovery after the control plane lost its tables: a pending host that reports its target closure ends
   converged, whatever the time, with the tables still consistent. No probe result is asked for.
   */
  lemma PendingRecovers(cp: CP.Cp, key: Key, at: Instant, stamp: CP.Stamp, policy: HM.RolloutPolicy)
    requires CP.Inv(cp) && key in cp.records && cp.records[key].state.Pending? && RoomFor(cp.records[key], 3)
    ensures var after := PendingChain(cp, key, cp.records[key].targetClosure, at, stamp, Some(policy));
            && CP.Inv(after) && after.records.Keys == cp.records.Keys && after.records[key].state.Converged?
            && Repaired(cp.records[key], cp.records[key].targetClosure, at, after.records[key])
  {
    var end := ChainWrites(cp, key, at, stamp, policy);
    ChainKeepsInv(cp, key, cp.records[key].targetClosure, at, stamp, policy);
  }

  // ----- One record against a heartbeat

  /** A dispatch gate would hold the host now, with nothing else queued in the tick. */
  predicate Held(cp: CP.Cp, m: Option<SignedManifestSet>, outstanding: CL.Outstanding, now: Instant, key: Key)
    requires key in cp.records
  {
    m.Some? && Evaluate(CL.ContextOf(cp, m.value, outstanding, now), key.0, key.1, cp.records[key].targetClosure,
                        cp.records[key].channel, map[]).Some?
  }

  function RollbackEvent(record: HM.HostRolloutState, current: string, at: Instant): HM.Event
    requires RoomFor(record, 1)
  {
    HM.RemoteRollbackComplete(current, 0, at, record.lastEventSeq + 1)
  }

  /** What the control plane synthesises for one active record of a host that reports closure `current`. */
  function Heartbeat(cp: CP.Cp, held: bool, key: Key, current: string, at: Instant, stamp: CP.Stamp,
                     policy: Option<HM.RolloutPolicy>): CP.Cp
    requires key in cp.records && RoomFor(cp.records[key], 3)
  {
    var record := cp.records[key];
    var atTarget := record.targetClosure == current;
    match record.state
    case Activating =>
      if atTarget then CP.HostEvent(cp, key, CompletedEvent(record, current, at, 1), policy, stamp) else cp
    case Deferred =>
      if atTarget then CP.HostEvent(cp, key, CompletedEvent(record, current, at, 1), policy, stamp) else cp
    case Pending => if atTarget && !held then PendingChain(cp, key, current, at, stamp, policy) else cp
    case Failed =>
      if record.currentClosureAtDispatch == Some(current)
      then CP.HostEvent(cp, key, RollbackEvent(record, current, at), policy, stamp)
      else cp
    case _ => cp
  }

  /** The closure the host runs shows a transition that was never heard. */
  predicate Misses(record: HM.HostRolloutState, current: string, held: bool) {
    || (record.state.Pending? && record.targetClosure == current && !held)
    || ((record.state.Activating? || record.state.Deferred?) && record.targetClosure == current)
    || (record.state.Failed? && record.currentClosureAtDispatch == Some(current))
  }

  /** One record has been repaired; no other record is different. */
  ghost predicate RepairedIn(cp: CP.Cp, after: CP.Cp, key: Key, current: string, at: Instant)
    requires key in cp.records
  {
    && CP.Inv(after) && after.records.Keys == cp.records.Keys
    && Repaired(cp.records[key], current, at, after.records[key])
    && forall other :: other in cp.records && other != key ==> after.records[other] == cp.records[other]
  }

  lemma OneWritten(cp: CP.Cp, after: CP.Cp, key: Key, current: string, at: Instant, end: HM.HostRolloutState)
    requires key in cp.records && CP.Inv(after) && after.records == cp.records[key := end]
    requires Repaired(cp.records[key], current, at, end)
    ensures RepairedIn(cp, after, key, current, at)
  {
  }

  lemma EventRepairs(cp: CP.Cp, key: Key, event: HM.Event, policy: HM.RolloutPolicy, stamp: CP.Stamp,
                     current: string, at: Instant)
    requires CP.Inv(cp) && key in cp.records && HM.Step(cp.records[key], event, policy).Stepped?
    requires Repaired(cp.records[key], current, at, HM.Step(cp.records[key], event, policy).next)
    ensures RepairedIn(cp, CP.HostEvent(cp, key, event, Some(policy), stamp), key, current, at)
  {
    var next := HM.Step(cp.records[key], event, policy).next;
    CP.HostEventKeeps(cp, key, event, Some(policy), stamp);
    AcceptedWrites(cp, key, event, policy, stamp, next);
    OneWritten(cp, CP.HostEvent(cp, key, event, Some(policy), stamp), key, current, at, next);
  }

  lemma CompletionSteps(record: HM.HostRolloutState, current: string, at: Instant, policy: HM.RolloutPolicy)
    requires (record.state.Activating? || record.state.Deferred?) && RoomFor(record, 1)
    ensures var out := HM.Step(record, CompletedEvent(record, current, at, 1), policy);
            out.Stepped? && Repaired(record, current, at, out.next)
  {
    var done := CompletedEvent(record, current, at, 1);
    assert HM.Step(record, done, policy) == HM.CompleteActivation(record, done);
  }

  lemma RollbackSteps(record: HM.HostRolloutState, current: string, at: Instant, policy: HM.RolloutPolicy)
    requires record.state.Failed? && RoomFor(record, 1)
    ensures var out := HM.Step(record, RollbackEvent(record, current, at), policy);
            out.Stepped? && Repaired(record, current, at, out.next)
  {
    var done := RollbackEvent(record, current, at);
    assert HM.Step(record, done, policy) == HM.FromFailed(record, done);
  }

  lemma PendingRepaired(cp: CP.Cp, key: Key, at: Instant, stamp: CP.Stamp, policy: HM.RolloutPolicy)
    requires CP.Inv(cp) && key in cp.records && cp.records[key].state.Pending? && RoomFor(cp.records[key], 3)
    ensures RepairedIn(cp, PendingChain(cp, key, cp.records[key].targetClosure, at, stamp, Some(policy)), key,
                       cp.records[key].targetClosure, at)
  {
    var target := cp.records[key].targetClosure;
    var end := ChainWrites(cp, key, at, stamp, policy);
    ChainKeepsInv(cp, key, target, at, stamp, policy);
    OneWritten(cp, PendingChain(cp, key, target, at, stamp, Some(policy)), key, target, at, end);
  }

  lemma HeartbeatRepairs(cp: CP.Cp, held: bool, key: Key, current: string, at: Instant, stamp: CP.Stamp,
                         policy: HM.RolloutPolicy)
    requires CP.Inv(cp) && key in cp.records && RoomFor(cp.records[key], 3) && Misses(cp.records[key], current, held)
    ensures RepairedIn(cp, Heartbeat(cp, held, key, current, at, stamp, Some(policy)), key, current, at)
  {
    var record := cp.records[key];
    if record.state.Pending? {
      PendingRepaired(cp, key, at, stamp, policy);
    } else if record.state.Failed? {
      RollbackSteps(record, current, at, policy);
      EventRepairs(cp, key, RollbackEvent(record, current, at), policy, stamp, current, at);
    } else {
      CompletionSteps(record, current, at, policy);
      EventRepairs(cp, key, CompletedEvent(record, current, at, 1), policy, stamp, current, at);
    }
  }

  lemma HeartbeatIdles(cp: CP.Cp, held: bool, key: Key, current: string, at: Instant, stamp: CP.Stamp,
                       policy: Option<HM.RolloutPolicy>)
    requires key in cp.records && RoomFor(cp.records[key], 3)
    requires !Misses(cp.records[key], current, held) || policy.None?
    ensures Heartbeat(cp, held, key, current, at, stamp, policy) == cp
  {
  }

  ghost function NothingUsed(): Selector -> nat {
    (s: Selector) => 0
  }

  /** A host is held exactly when the dispatch gates, with nothing else queued, would not let it through. */
  lemma HeldIff(cp: CP.Cp, m: Option<SignedManifestSet>, outstanding: CL.Outstanding, now: Instant, key: Key)
    requires key in cp.records
    ensures Held(cp, m, outstanding, now, key) <==>
              m.Some? && !MayDispatch(CL.ContextOf(cp, m.value, outstanding, now), key.0, key.1,
                                      cp.records[key].targetClosure, cp.records[key].channel, NothingUsed())
  {
    if m.Some? {
      var c, r := CL.ContextOf(cp, m.value, outstanding, now), cp.records[key];
      EvaluateIs(c, key.0, key.1, r.targetClosure, r.channel, map[], NothingUsed());
      var verdict := Evaluate(c, key.0, key.1, r.targetClosure, r.channel, map[]);
      if verdict.Some? { RefusedMayNot(c, key.0, key.1, r.targetClosure, r.channel, NothingUsed(), verdict.value); }
    }
  }

  /**
   A heartbeat repairs a record exactly when the closure the host runs shows a missed transition, no dispatch
   gate holds a pending host, and the rollout's policy can be resolved; otherwise it changes nothing at all.
   Either way the tables stay consistent and no other record is touched.
   */
  lemma HeartbeatRecovers(cp: CP.Cp, m: Option<SignedManifestSet>, outstanding: CL.Outstanding, now: Instant, key: Key,
                          current: string, at: Instant, stamp: CP.Stamp, policy: Option<HM.RolloutPolicy>)
    requires CP.Inv(cp) && key in cp.records && RoomFor(cp.records[key], 3)
    ensures var held := Held(cp, m, outstanding, now, key);
            var after := Heartbeat(cp, held, key, current, at, stamp, policy);
            && (after != cp <==> Misses(cp.records[key], current, held) && policy.Some?)
            && CP.Inv(after)
            && (after != cp ==> RepairedIn(cp, after, key, current, at))
  {
    var held := Held(cp, m, outstanding, now, key);
    if Misses(cp.records[key], current, held) && policy.Some? {
      HeartbeatRepairs(cp, held, key, current, at, stamp, policy.value);
    } else {
      HeartbeatIdles(cp, held, key, current, at, stamp, policy);
    }
  }
}
