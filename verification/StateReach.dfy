/** Which rollout states the control plane's tables ever hold: five of the eight, each by a run. */
module StateReach {
  import opened Wrappers
  import opened Fleet
  import CP = ControlPlane
  import HM = HostMachine
  import Recovery
  import RM = RolloutMachine
  import RT = RolloutsTable
  import opened WaveReach
  import opened Waves

  type Key = CP.Key

  ghost predicate InState(cp: CP.Cp, id: string, state: RM.RolloutState) {
    id in cp.rows && cp.rows[id].state == state
  }

  /** Some run stores the state. */
  ghost predicate Stored(state: RM.RolloutState) {
    exists ops, id :: CP.AllowedRun(CP.EMPTY, ops) && InState(CP.Run(CP.EMPTY, ops), id, state)
  }

  lemma {:induction false} WaveRunIsAllowed(cp: CP.Cp, fleet: FleetResolved, id: string, ops: seq<CP.Op>)
    requires WaveRun(cp, fleet, id, ops)
    ensures CP.AllowedRun(cp, ops)
    decreases |ops|
  {
    if ops != [] { WaveRunIsAllowed(CP.Apply(cp, ops[0]), fleet, id, ops[1..]); }
  }

  /** A state found after one open and some reports is stored. */
  lemma StoredAfter(fleet: FleetResolved, id: string, op: CP.Op, ops: seq<CP.Op>, state: RM.RolloutState)
    requires op.OpenOp? && WaveRun(CP.Apply(CP.EMPTY, op), fleet, id, ops)
    requires InState(CP.Run(CP.Apply(CP.EMPTY, op), ops), id, state)
    ensures Stored(state)
  {
    RunOneMore(CP.EMPTY, fleet, id, op, ops);
    WaveRunIsAllowed(CP.EMPTY, fleet, id, [op] + ops);
  }

  lemma OpeningIsStored(fleet: FleetResolved, id: string, channel: string, at: CP.Stamp)
    ensures Stored(RM.Opening)
  {
    var op := CP.OpenOp(id, channel, "", at, []);
    CP.InsertKeeps(CP.EMPTY, id, channel, "", at);
    StoredAfter(fleet, id, op, [], RM.Opening);
  }

  lemma SupersededIsStored(fleet: FleetResolved, id: string, next: string, channel: string, at: CP.Stamp)
    requires id != next
    ensures Stored(RM.Superseded)
  {
    var first, second := CP.OpenOp(id, channel, "", at, []), CP.OpenOp(next, channel, "", at, []);
    var cp := CP.Apply(CP.EMPTY, first);
    CP.InsertKeeps(CP.EMPTY, id, channel, "", at);
    RunOneMore(cp, fleet, id, second, []);
    StoredAfter(fleet, id, first, [second] + [], RM.Superseded);
  }

  /** One open that joins one host. */
  function OneHost(id: string, channel: string, host: string, at: CP.Stamp): CP.Op {
    CP.OpenOp(id, channel, "", at, [CP.Joining(host, 0, "", 0)])
  }

  lemma OneHostOpened(cp: CP.Cp, id: string, channel: string, host: string, at: CP.Stamp)
    requires cp == CP.EMPTY
    ensures OneFresh(CP.Apply(cp, OneHost(id, channel, host, at)), (id, host))
  {
    var hosts := [CP.Joining(host, 0, "", 0)];
    JoinedActive(cp, id, channel, "", hosts, at);
    var inserted := cp.(rows := RT.OpenedOver(cp.rows, id, channel, "", at));
    JoinedFresh(inserted, id, channel, hosts, at);
    CP.JoinAllRecords(inserted, id, channel, at, hosts);
    assert hosts[0].host == host;
  }

  lemma ActiveIsStored(fleet: FleetResolved, id: string, channel: string, host: string, at: CP.Stamp)
    ensures Stored(RM.Active)
  {
    OneHostOpened(CP.EMPTY, id, channel, host, at);
    StoredAfter(fleet, id, OneHost(id, channel, host, at), [], RM.Active);
  }

  /** Tables with one active rollout of one fresh host. */
  ghost predicate OneFresh(cp: CP.Cp, key: Key) {
    && CP.Inv(cp) && key.0 in cp.rows && cp.rows[key.0].state.Active?
    && cp.records.Keys == {key} && Fresh(cp.records, key)
  }

  /** With one record to decide it, the row follows the record. */
  lemma SoleRecordDecides(cp: CP.Cp, records: CP.Records, key: Key, end: HM.HostRolloutState)
    requires CP.Inv(cp) && key.0 in cp.rows && !cp.rows[key.0].state.Superseded?
    requires records.Keys == {key} && cp.records == records[key := end]
    ensures end.state.Converged? ==> InState(cp, key.0, RM.Terminal)
    ensures end.state.Failed? ==> InState(cp, key.0, RM.Failed)
  {
    assert CP.Agrees(cp.rows[key.0].state, cp.records, key.0);
    assert key in cp.records;
  }

  lemma ConvergingEnds(cp: CP.Cp, key: Key, at: CP.Stamp, policy: HM.RolloutPolicy)
    requires OneFresh(cp, key)
    ensures InState(Chain(cp, key, at, policy), key.0, RM.Terminal)
  {
    ChainKeepsRow(cp, key, at, policy);
    var end := Recovery.ChainWrites(cp, key, 0, at, policy);
    SoleRecordDecides(Chain(cp, key, at, policy), cp.records, key, end);
  }

  lemma TerminalIsStored(fleet: FleetResolved, id: string, channel: string, host: string, at: CP.Stamp,
                         policy: HM.RolloutPolicy)
    ensures Stored(RM.Terminal)
  {
    var op := OneHost(id, channel, host, at);
    OneHostOpened(CP.EMPTY, id, channel, host, at);
    var cp := CP.Apply(CP.EMPTY, op);
    var ops := ChainIsRun(cp, fleet, (id, host), at, policy);
    ConvergingEnds(cp, (id, host), at, policy);
    StoredAfter(fleet, id, op, ops, RM.Terminal);
  }

  function FailEvent(): HM.Event {
    HM.RemoteActivationFailed(1, "", 0, 2)
  }

  function Failure(cp: CP.Cp, key: Key, at: CP.Stamp, policy: HM.RolloutPolicy): CP.Cp
    requires Fresh(cp.records, key)
  {
    CP.HostEvent(CP.HostEvent(cp, key, Recovery.AckEvent(cp.records[key], 0), Some(policy), at),
                 key, FailEvent(), Some(policy), at)
  }

  lemma FailureSteps(record: HM.HostRolloutState, policy: HM.RolloutPolicy)
    requires record.state.Pending? && record.lastEventSeq == 0
    ensures var first := HM.Step(record, Recovery.AckEvent(record, 0), policy);
            && first.Stepped?
            && HM.Step(first.next, FailEvent(), policy).Stepped?
            && HM.Step(first.next, FailEvent(), policy).next.state.Failed?
  {
    var ack := Recovery.AckEvent(record, 0);
    var first := HM.Step(record, ack, policy);
    assert first == HM.FromPending(record, ack);
    assert HM.Step(first.next, FailEvent(), policy) == HM.FromActivating(first.next, FailEvent(), policy);
  }

  lemma FailureWrites(cp: CP.Cp, key: Key, at: CP.Stamp, policy: HM.RolloutPolicy) returns (end: HM.HostRolloutState)
    requires Fresh(cp.records, key)
    ensures Failure(cp, key, at, policy).records == cp.records[key := end] && end.state.Failed?
  {
    var ack := Recovery.AckEvent(cp.records[key], 0);
    FailureSteps(cp.records[key], policy);
    var first := HM.Step(cp.records[key], ack, policy).next;
    Recovery.AcceptedWrites(cp, key, ack, policy, at, first);
    end := HM.Step(first, FailEvent(), policy).next;
    Recovery.AcceptedWrites(CP.HostEvent(cp, key, ack, Some(policy), at), key, FailEvent(), policy, at, end);
  }

  lemma FailureIsRun(cp: CP.Cp, fleet: FleetResolved, key: Key, at: CP.Stamp, policy: HM.RolloutPolicy)
    returns (ops: seq<CP.Op>)
    requires Fresh(cp.records, key)
    ensures WaveRun(cp, fleet, key.0, ops) && CP.Run(cp, ops) == Failure(cp, key, at, policy)
  {
    ops := TwoEvents(cp, fleet, key, Recovery.AckEvent(cp.records[key], 0), FailEvent(), at, policy);
  }

  lemma FailingEnds(cp: CP.Cp, key: Key, at: CP.Stamp, policy: HM.RolloutPolicy)
    requires OneFresh(cp, key)
    ensures InState(Failure(cp, key, at, policy), key.0, RM.Failed)
  {
    var ack := Recovery.AckEvent(cp.records[key], 0);
    EventKeepsRow(cp, key, ack, Some(policy), at, key.0);
    EventKeepsRow(CP.HostEvent(cp, key, ack, Some(policy), at), key, FailEvent(), Some(policy), at, key.0);
    var end := FailureWrites(cp, key, at, policy);
    SoleRecordDecides(Failure(cp, key, at, policy), cp.records, key, end);
  }

  lemma FailedIsStored(fleet: FleetResolved, id: string, channel: string, host: string, at: CP.Stamp,
                       policy: HM.RolloutPolicy)
    ensures Stored(RM.Failed)
  {
    var op := OneHost(id, channel, host, at);
    OneHostOpened(CP.EMPTY, id, channel, host, at);
    var cp := CP.Apply(CP.EMPTY, op);
    var ops := FailureIsRun(cp, fleet, (id, host), at, policy);
    FailingEnds(cp, (id, host), at, policy);
    StoredAfter(fleet, id, op, ops, RM.Failed);
  }

  /** Exactly these five states are ever stored. */
  lemma FiveStatesStored(state: RM.RolloutState)
    ensures Stored(state) <==>
              state.Opening? || state.Active? || state.Terminal? || state.Failed? || state.Superseded?
  {
    if Stored(state) {
      var ops, id :| CP.AllowedRun(CP.EMPTY, ops) && InState(CP.Run(CP.EMPTY, ops), id, state);
      CP.ThreeStatesNeverStored(ops, id);
    }
    var fleet := FleetResolved(1, map[], map[], map[], map[], [], [], [], Meta(1, None, None, None));
    var policy := HM.RolloutPolicy(HM.Halt);
    match state
    case Opening => OpeningIsStored(fleet, "a@1", "a", START);
    case Active => ActiveIsStored(fleet, "a@1", "a", "host", START);
    case Terminal => TerminalIsStored(fleet, "a@1", "a", "host", START, policy);
    case Failed => FailedIsStored(fleet, "a@1", "a", "host", START, policy);
    case Superseded => SupersededIsStored(fleet, "a@1", "a@2", "a", START);
    case _ =>
  }
}
