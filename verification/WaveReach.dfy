/**
 How far a wave cursor can get. A rollout is opened with its channel's host set, while a wave may name any
 host of the fleet; a cursor gets past exactly the waves whose hosts all belong to the channel and are built.
 */
module WaveReach {
  import opened Wrappers
  import opened Fleet
  import opened Gates
  import CL = ControlLoop
  import CP = ControlPlane
  import HM = HostMachine
  import HR = HostRuns
  import Manifest
  import Planner
  import PlannerLimits
  import Recovery
  import RM = RolloutMachine
  import RolloutIds
  import RT = RolloutsTable
  import T = Timestamps
  import Text
  import opened Waves

  const START: CP.Stamp := T.Civil(1970, 1, 1, 0, 0, 0, 0)

  // ----- Opens

  /** One joining for each entry of the host set, in order; the soak deadlines are resolved at that moment. */
  predicate Joins(hosts: seq<CP.Joining>, hostSet: seq<HostWave>) {
    |hosts| == |hostSet| &&
    forall i :: 0 <= i < |hosts| ==>
      && hosts[i].host == hostSet[i].hostname && hosts[i].wave == hostSet[i].waveIndex
      && hosts[i].targetClosure == hostSet[i].targetClosure
  }

  /** The fleet yields a manifest under this id. */
  predicate Published(fleet: FleetResolved, id: string) {
    Manifest.Projects(fleet, RolloutIds.Channel(id)) && id == Manifest.IdOf(fleet, RolloutIds.Channel(id))
  }

  /** The rollout is opened from its manifest and joins the manifest's hosts. */
  ghost predicate OpenProjected(fleet: FleetResolved, id: string, op: CP.Op)
    requires op.OpenOp?
  {
    var channel := RolloutIds.Channel(id);
    && Published(fleet, id) && op.channel == channel && op.targetRef == fleet.meta.ciCommit.GetOr("")
    && exists hostSet :: Manifest.IsHostSet(fleet, channel, hostSet) && Joins(op.hosts, hostSet)
  }

  ghost predicate ProjectedOpens(fleet: FleetResolved, id: string, ops: seq<CP.Op>) {
    forall op :: op in ops && op.OpenOp? && op.id == id ==> OpenProjected(fleet, id, op)
  }

  /** Every open the planner plans is one, given projected manifests. */
  lemma PlannedOpenIsProjected(m: SignedManifestSet, c: Context, a: Planner.PlanAction, at: CP.Stamp,
                               hosts: seq<CP.Joining>)
    requires PlannerLimits.Projected(m) && c.manifests == m && a in Planner.OpenSet(c)
    requires a.channel in m.rollouts && Joins(hosts, m.rollouts[a.channel].hostSet)
    ensures OpenProjected(m.fleet, a.rolloutId, CP.OpenOp(a.rolloutId, a.channel, a.targetRef, at, hosts))
  {
    var manifest := m.rollouts[a.channel];
    assert PlannerLimits.IsProjected(m, a.channel);
    RolloutIds.RoundTrip(a.channel, manifest.channelRef);
    assert Manifest.Names(manifest.hostSet)[0] in Manifest.Names(manifest.hostSet);
    assert Manifest.IsHostSet(m.fleet, a.channel, manifest.hostSet) && Joins(hosts, manifest.hostSet);
  }

  // ----- Reachable cursors

  ghost predicate CursorAt(cp: CP.Cp, id: string, cursor: nat) {
    id in cp.rows && cp.rows[id].currentWave == cursor
  }

  ghost predicate Reachable(fleet: FleetResolved, id: string, cursor: nat) {
    exists ops :: WaveRun(CP.EMPTY, fleet, id, ops) && ProjectedOpens(fleet, id, ops)
                  && CursorAt(CP.Run(CP.EMPTY, ops), id, cursor)
  }

  /** The wave has hosts, and each is a host of the channel with a closure. */
  predicate Passable(fleet: FleetResolved, channel: string, wave: Wave) {
    wave.hosts != [] && forall host :: host in wave.hosts ==> Manifest.Carries(fleet, channel, host)
  }

  predicate AllPassable(fleet: FleetResolved, id: string, cursor: nat) {
    var waves := WavesOf(fleet, id);
    cursor > 0 ==>
      cursor < |waves| && forall j :: 0 <= j < cursor ==> Passable(fleet, RolloutIds.Channel(id), waves[j])
  }

  // ----- Only the channel's hosts have records

  ghost predicate OnlyCarried(cp: CP.Cp, fleet: FleetResolved, id: string) {
    && (id in cp.rows ==> Published(fleet, id))
    && forall key: Key :: key in cp.records && key.0 == id ==> Manifest.Carries(fleet, RolloutIds.Channel(id), key.1)
  }

  lemma {:induction false} JoinAllOwn(cp: CP.Cp, id: string, channel: string, at: CP.Stamp, hosts: seq<CP.Joining>)
    ensures forall key: Key :: key in CP.JoinAll(cp, id, channel, at, hosts).records ==>
              key in cp.records || exists i :: 0 <= i < |hosts| && key == (id, hosts[i].host)
    decreases |hosts|
  {
    if hosts != [] {
      var front := hosts[..|hosts| - 1];
      JoinAllOwn(cp, id, channel, at, front);
      forall key: Key | key in CP.JoinAll(cp, id, channel, at, hosts).records && key !in cp.records
        ensures exists i :: 0 <= i < |hosts| && key == (id, hosts[i].host)
      {
        if key in CP.JoinAll(cp, id, channel, at, front).records {
          var i :| 0 <= i < |front| && key == (id, front[i].host);
          assert key == (id, hosts[i].host);
        } else {
          assert key == (id, hosts[|front|].host);
        }
      }
    }
  }

  lemma OpenJoinsCarried(cp: CP.Cp, fleet: FleetResolved, id: string, op: CP.Op)
    requires op.OpenOp? && op.id == id && OpenProjected(fleet, id, op) && OnlyCarried(cp, fleet, id)
    ensures OnlyCarried(CP.Apply(cp, op), fleet, id)
  {
    var channel := RolloutIds.Channel(id);
    var hostSet :| Manifest.IsHostSet(fleet, channel, hostSet) && Joins(op.hosts, hostSet);
    JoinAllOwn(cp.(rows := RT.OpenedOver(cp.rows, id, op.channel, op.targetRef, op.at)), id, op.channel, op.at, op.hosts);
    forall i | 0 <= i < |op.hosts| ensures Manifest.Carries(fleet, channel, op.hosts[i].host) {
      assert Manifest.Names(hostSet)[i] == op.hosts[i].host;
    }
  }

  lemma StepOnlyCarried(cp: CP.Cp, fleet: FleetResolved, id: string, op: CP.Op)
    requires CP.Inv(cp) && CP.Allowed(cp, op) && OnlyCarried(cp, fleet, id)
    requires op.OpenOp? && op.id == id ==> OpenProjected(fleet, id, op)
    ensures OnlyCarried(CP.Apply(cp, op), fleet, id)
  {
    match op
    case OpenOp(newId, channel, targetRef, at, hosts) =>
      if newId == id { OpenJoinsCarried(cp, fleet, id, op); } else { OpenCursor(cp, newId, channel, targetRef, at, hosts); }
    case HostOp(key, event, policy, at) => CP.HostEventKeepsKeys(cp, key, event, policy, at);
    case WaveOp(_, _) =>
    case PruneOp(_) =>
  }

  lemma {:induction false} RunOnlyCarried(cp: CP.Cp, fleet: FleetResolved, id: string, ops: seq<CP.Op>)
    requires CP.Inv(cp) && OnlyCarried(cp, fleet, id)
    requires WaveRun(cp, fleet, id, ops) && ProjectedOpens(fleet, id, ops)
    ensures OnlyCarried(CP.Run(cp, ops), fleet, id)
    decreases |ops|
  {
    if ops != [] {
      assert ops[0] in ops;
      CP.ApplyKeeps(cp, ops[0]);
      StepOnlyCarried(cp, fleet, id, ops[0]);
      RunOnlyCarried(CP.Apply(cp, ops[0]), fleet, id, ops[1..]);
    }
  }

  /** So every wave a cursor has passed is passable. */
  lemma PassedIsPassable(fleet: FleetResolved, id: string, ops: seq<CP.Op>, cursor: nat)
    requires WaveRun(CP.EMPTY, fleet, id, ops) && ProjectedOpens(fleet, id, ops)
    requires CursorAt(CP.Run(CP.EMPTY, ops), id, cursor)
    ensures Published(fleet, id) && AllPassable(fleet, id, cursor)
  {
    RunOrdered(CP.EMPTY, fleet, id, ops);
    RunOnlyCarried(CP.EMPTY, fleet, id, ops);
    var records, waves := CP.Run(CP.EMPTY, ops).records, WavesOf(fleet, id);
    assert PassedWaves(records, fleet, id, cursor);
    forall j | 0 <= j < cursor ensures Passable(fleet, RolloutIds.Channel(id), waves[j]) {
      assert WavePast(records, id, waves[j].hosts);
    }
  }

  // ----- A run that reaches the cursor: open, settle one wave after another, bump

  /** Only reports and bumps, no opens. */
  predicate NoOpens(ops: seq<CP.Op>) {
    forall op :: op in ops ==> !op.OpenOp?
  }

  ghost predicate Fresh(records: CP.Records, key: Key) {
    key in records && records[key].state.Pending? && records[key].lastEventSeq == 0
  }

  ghost predicate Settled(records: CP.Records, key: Key) {
    key in records && Waves.Eligible(records[key].state)
  }

  ghost predicate Same(records: CP.Records, after: CP.Records, key: Key) {
    key in records ==> key in after && after[key] == records[key]
  }

  /** Every host of the rollout is fresh, converged or deferred, and one has not converged. */
  ghost predicate Calm(records: CP.Records, id: string, holdout: string) {
    && (id, holdout) in records && !records[(id, holdout)].state.Converged?
    && forall key :: key in records && key.0 == id ==> Fresh(records, key) || Settled(records, key)
  }

  /** Open and unfinished. */
  ghost predicate Settling(cp: CP.Cp, id: string, holdout: string) {
    CP.Inv(cp) && id in cp.rows && !cp.rows[id].state.Superseded? && Calm(cp.records, id, holdout)
  }

  lemma SettlingIsOpen(cp: CP.Cp, id: string, holdout: string)
    requires Settling(cp, id, holdout)
    ensures cp.rows[id].terminalAt.None?
  {
    assert CP.Agrees(cp.rows[id].state, cp.records, id);
    assert RM.Stamped(cp.rows[id]);
  }

  lemma EventSupersedesNone(cp: CP.Cp, key: Key, event: HM.Event, policy: Option<HM.RolloutPolicy>, at: CP.Stamp,
                            id: string)
    requires CP.Inv(cp) && id in cp.rows && !cp.rows[id].state.Superseded?
    ensures var after := CP.HostEvent(cp, key, event, policy, at).rows; id in after && !after[id].state.Superseded?
  {
    if CP.Accepts(cp, key, event, policy) {
      var next, _ := CP.AcceptedRecord(cp, key, event, policy, at);
      CP.AggregatableRow(cp, key);
      CP.AggregatedOnly(cp.rows, cp.records[key := next], key, cp.records[key].state, next.state, at);
    } else {
      assert CP.HostEvent(cp, key, event, policy, at) == cp;
    }
  }

  /** A host event keeps cursors, and supersedes nothing. */
  lemma EventKeepsRow(cp: CP.Cp, key: Key, event: HM.Event, policy: Option<HM.RolloutPolicy>, at: CP.Stamp, id: string)
    requires CP.Inv(cp) && id in cp.rows && !cp.rows[id].state.Superseded?
    ensures var after := CP.HostEvent(cp, key, event, policy, at);
            CP.Inv(after) && CursorAt(after, id, cp.rows[id].currentWave) && !after.rows[id].state.Superseded?
  {
    CP.HostEventKeeps(cp, key, event, policy, at);
    HostEventCursor(cp, key, event, policy, at);
    EventSupersedesNone(cp, key, event, policy, at, id);
  }

  function Chain(cp: CP.Cp, key: Key, at: CP.Stamp, policy: HM.RolloutPolicy): CP.Cp
    requires Fresh(cp.records, key)
  {
    Recovery.PendingChain(cp, key, cp.records[key].targetClosure, 0, at, Some(policy))
  }

  lemma ChainKeepsRow(cp: CP.Cp, key: Key, at: CP.Stamp, policy: HM.RolloutPolicy)
    requires CP.Inv(cp) && Fresh(cp.records, key) && key.0 in cp.rows && !cp.rows[key.0].state.Superseded?
    ensures var after := Chain(cp, key, at, policy);
            CP.Inv(after) && CursorAt(after, key.0, cp.rows[key.0].currentWave) && !after.rows[key.0].state.Superseded?
  {
    var r := cp.records[key];
    var ack, done := Recovery.AckEvent(r, 0), Recovery.CompletedEvent(r, r.targetClosure, 0, 2);
    EventKeepsRow(cp, key, ack, Some(policy), at, key.0);
    var acked := CP.HostEvent(cp, key, ack, Some(policy), at);
    EventKeepsRow(acked, key, done, Some(policy), at, key.0);
    var soaking := CP.HostEvent(acked, key, done, Some(policy), at);
    EventKeepsRow(soaking, key, Recovery.ConvergedEvent(r, r.targetClosure, 0), Some(policy), at, key.0);
  }

  lemma ThreeEvents(cp: CP.Cp, fleet: FleetResolved, key: Key, a: HM.Event, b: HM.Event, c: HM.Event,
                    at: CP.Stamp, policy: HM.RolloutPolicy)
    returns (ops: seq<CP.Op>)
    ensures WaveRun(cp, fleet, key.0, ops) && NoOpens(ops)
    ensures CP.Run(cp, ops) ==
            CP.HostEvent(CP.HostEvent(CP.HostEvent(cp, key, a, Some(policy), at), key, b, Some(policy), at),
                         key, c, Some(policy), at)
  {
    var x, y, z := CP.HostOp(key, a, Some(policy), at), CP.HostOp(key, b, Some(policy), at),
                   CP.HostOp(key, c, Some(policy), at);
    var one := CP.Apply(cp, x);
    var two := CP.Apply(one, y);
    RunOneMore(two, fleet, key.0, z, []);
    RunOneMore(one, fleet, key.0, y, [z] + []);
    RunOneMore(cp, fleet, key.0, x, [y] + ([z] + []));
    ops := [x] + ([y] + ([z] + []));
  }

  lemma ChainIsRun(cp: CP.Cp, fleet: FleetResolved, key: Key, at: CP.Stamp, policy: HM.RolloutPolicy)
    returns (ops: seq<CP.Op>)
    requires Fresh(cp.records, key)
    ensures WaveRun(cp, fleet, key.0, ops) && NoOpens(ops) && CP.Run(cp, ops) == Chain(cp, key, at, policy)
  {
    var r := cp.records[key];
    ops := ThreeEvents(cp, fleet, key, Recovery.AckEvent(r, 0), Recovery.CompletedEvent(r, r.targetClosure, 0, 2),
                       Recovery.ConvergedEvent(r, r.targetClosure, 0), at, policy);
  }

  lemma CalmAfter(records: CP.Records, key: Key, end: HM.HostRolloutState, holdout: string)
    requires Calm(records, key.0, holdout)
    requires (end.state.Converged? && key.1 != holdout) || end.state.Deferred?
    ensures var after := records[key := end];
            Calm(after, key.0, holdout) && Settled(after, key) && forall other :: other != key ==> Same(records, after, other)
  {
  }

  ghost predicate SettlesOne(cp: CP.Cp, after: CP.Cp, key: Key, holdout: string)
    requires key.0 in cp.rows
  {
    && Settling(after, key.0, holdout) && CursorAt(after, key.0, cp.rows[key.0].currentWave)
    && Settled(after.records, key) && forall other :: other != key ==> Same(cp.records, after.records, other)
  }

  /** The host's three reports, in order. */
  lemma ConvergeOne(cp: CP.Cp, fleet: FleetResolved, key: Key, holdout: string, at: CP.Stamp, policy: HM.RolloutPolicy)
    returns (ops: seq<CP.Op>)
    requires Settling(cp, key.0, holdout) && key.1 != holdout && Fresh(cp.records, key)
    ensures WaveRun(cp, fleet, key.0, ops) && NoOpens(ops) && SettlesOne(cp, CP.Run(cp, ops), key, holdout)
  {
    ops := ChainIsRun(cp, fleet, key, at, policy);
    ChainKeepsRow(cp, key, at, policy);
    var end := Recovery.ChainWrites(cp, key, 0, at, policy);
    CalmAfter(cp.records, key, end, holdout);
  }

  // The holdout defers instead: its activation is staged and waits for a reboot.

  function DeferEvent(): HM.Event {
    HM.RemoteActivationDeferred("", 0, 2)
  }

  function Deferral(cp: CP.Cp, key: Key, at: CP.Stamp, policy: HM.RolloutPolicy): CP.Cp
    requires Fresh(cp.records, key)
  {
    CP.HostEvent(CP.HostEvent(cp, key, Recovery.AckEvent(cp.records[key], 0), Some(policy), at),
                 key, DeferEvent(), Some(policy), at)
  }

  lemma TwoEvents(cp: CP.Cp, fleet: FleetResolved, key: Key, a: HM.Event, b: HM.Event, at: CP.Stamp,
                  policy: HM.RolloutPolicy)
    returns (ops: seq<CP.Op>)
    ensures WaveRun(cp, fleet, key.0, ops) && NoOpens(ops)
    ensures CP.Run(cp, ops) == CP.HostEvent(CP.HostEvent(cp, key, a, Some(policy), at), key, b, Some(policy), at)
  {
    var x, y := CP.HostOp(key, a, Some(policy), at), CP.HostOp(key, b, Some(policy), at);
    RunOneMore(CP.Apply(cp, x), fleet, key.0, y, []);
    RunOneMore(cp, fleet, key.0, x, [y] + []);
    ops := [x] + ([y] + []);
  }

  lemma DeferralSteps(record: HM.HostRolloutState, policy: HM.RolloutPolicy)
    requires record.state.Pending? && record.lastEventSeq == 0
    ensures var first := HM.Step(record, Recovery.AckEvent(record, 0), policy);
            && first.Stepped?
            && HM.Step(first.next, DeferEvent(), policy).Stepped?
            && HM.Step(first.next, DeferEvent(), policy).next.state.Deferred?
  {
    var ack := Recovery.AckEvent(record, 0);
    var first := HM.Step(record, ack, policy);
    assert first == HM.FromPending(record, ack);
    assert HM.Step(first.next, DeferEvent(), policy) == HM.FromActivating(first.next, DeferEvent(), policy);
  }

  lemma DeferralWrites(cp: CP.Cp, key: Key, at: CP.Stamp, policy: HM.RolloutPolicy) returns (end: HM.HostRolloutState)
    requires Fresh(cp.records, key)
    ensures Deferral(cp, key, at, policy).records == cp.records[key := end] && end.state.Deferred?
  {
    var ack := Recovery.AckEvent(cp.records[key], 0);
    DeferralSteps(cp.records[key], policy);
    var first := HM.Step(cp.records[key], ack, policy).next;
    Recovery.AcceptedWrites(cp, key, ack, policy, at, first);
    end := HM.Step(first, DeferEvent(), policy).next;
    Recovery.AcceptedWrites(CP.HostEvent(cp, key, ack, Some(policy), at), key, DeferEvent(), policy, at, end);
  }

  lemma DeferOne(cp: CP.Cp, fleet: FleetResolved, key: Key, holdout: string, at: CP.Stamp, policy: HM.RolloutPolicy)
    returns (ops: seq<CP.Op>)
    requires Settling(cp, key.0, holdout) && Fresh(cp.records, key)
    ensures WaveRun(cp, fleet, key.0, ops) && NoOpens(ops) && SettlesOne(cp, CP.Run(cp, ops), key, holdout)
  {
    var ack := Recovery.AckEvent(cp.records[key], 0);
    ops := TwoEvents(cp, fleet, key, ack, DeferEvent(), at, policy);
    EventKeepsRow(cp, key, ack, Some(policy), at, key.0);
    EventKeepsRow(CP.HostEvent(cp, key, ack, Some(policy), at), key, DeferEvent(), Some(policy), at, key.0);
    var end := DeferralWrites(cp, key, at, policy);
    CalmAfter(cp.records, key, end, holdout);
  }

  lemma SettleOne(cp: CP.Cp, fleet: FleetResolved, key: Key, holdout: string, at: CP.Stamp, policy: HM.RolloutPolicy)
    returns (ops: seq<CP.Op>)
    requires Settling(cp, key.0, holdout) && Fresh(cp.records, key)
    ensures WaveRun(cp, fleet, key.0, ops) && NoOpens(ops) && SettlesOne(cp, CP.Run(cp, ops), key, holdout)
  {
    if key.1 == holdout { ops := DeferOne(cp, fleet, key, holdout, at, policy); }
    else { ops := ConvergeOne(cp, fleet, key, holdout, at, policy); }
  }

  /** These hosts are settled now; the other records are as they were. */
  ghost predicate AllSettled(records: CP.Records, after: CP.Records, id: string, hosts: seq<string>) {
    && (forall host :: host in hosts ==> Settled(after, (id, host)))
    && (forall host :: host !in hosts ==> Same(records, after, (id, host)))
  }

  ghost predicate AllFresh(records: CP.Records, id: string, hosts: seq<string>) {
    && (forall i :: 0 <= i < |hosts| ==> Fresh(records, (id, hosts[i])))
    && (forall i, j :: 0 <= i < j < |hosts| ==> hosts[i] != hosts[j])
  }

  lemma RestIsFresh(records: CP.Records, next: CP.Records, id: string, hosts: seq<string>)
    requires hosts != [] && AllFresh(records, id, hosts)
    requires forall other :: other != (id, hosts[0]) ==> Same(records, next, other)
    ensures AllFresh(next, id, hosts[1..]) && hosts[0] !in hosts[1..]
  {
    forall i | 0 <= i < |hosts[1..]| ensures Fresh(next, (id, hosts[1..][i])) && hosts[1..][i] != hosts[0] {
      assert Fresh(records, (id, hosts[i + 1])) && Same(records, next, (id, hosts[i + 1]));
    }
  }

  lemma SettledChain(records: CP.Records, next: CP.Records, after: CP.Records, id: string, hosts: seq<string>)
    requires hosts != [] && hosts[0] !in hosts[1..] && Settled(next, (id, hosts[0]))
    requires forall other :: other != (id, hosts[0]) ==> Same(records, next, other)
    requires AllSettled(next, after, id, hosts[1..])
    ensures AllSettled(records, after, id, hosts)
  {
    assert hosts == [hosts[0]] + hosts[1..];
    assert Same(next, after, (id, hosts[0]));
    forall host | host !in hosts ensures Same(records, after, (id, host)) {
      assert Same(records, next, (id, host)) && Same(next, after, (id, host));
    }
  }

  lemma {:induction false} SettleEach(cp: CP.Cp, fleet: FleetResolved, id: string, hosts: seq<string>, holdout: string,
                                      at: CP.Stamp, policy: HM.RolloutPolicy)
    returns (ops: seq<CP.Op>)
    requires Settling(cp, id, holdout) && AllFresh(cp.records, id, hosts)
    ensures WaveRun(cp, fleet, id, ops) && NoOpens(ops)
    ensures var after := CP.Run(cp, ops);
            && Settling(after, id, holdout) && CursorAt(after, id, cp.rows[id].currentWave)
            && AllSettled(cp.records, after.records, id, hosts)
    decreases |hosts|
  {
    ops := [];
    if hosts != [] {
      var first := SettleOne(cp, fleet, (id, hosts[0]), holdout, at, policy);
      var next := CP.Run(cp, first);
      RestIsFresh(cp.records, next.records, id, hosts);
      var rest := SettleEach(next, fleet, id, hosts[1..], holdout, at, policy);
      RunAppend(cp, fleet, id, first, rest);
      ops := first + rest;
      SettledChain(cp.records, next.records, CP.Run(next, rest).records, id, hosts);
    }
  }

  /** The waves up to the cursor have hosts, each with a record. */
  ghost predicate Known(cp: CP.Cp, fleet: FleetResolved, id: string, cursor: nat) {
    var waves := WavesOf(fleet, id);
    cursor > 0 ==> cursor < |waves| && forall j, host ::
      0 <= j < cursor ==> waves[j].hosts != [] && (host in waves[j].hosts ==> (id, host) in cp.records)
  }

  lemma Unsettled(records: CP.Records, id: string, hosts: seq<string>, holdout: string) returns (left: seq<string>)
    requires Calm(records, id, holdout) && forall host :: host in hosts ==> (id, host) in records
    ensures AllFresh(records, id, left)
    ensures forall host :: host in hosts ==> host in left || Settled(records, (id, host))
  {
    left := ListOf(set host | host in hosts && Fresh(records, (id, host)));
    forall i | 0 <= i < |left| ensures Fresh(records, (id, left[i])) {
      assert left[i] in left;
    }
  }

  lemma NowSettled(records: CP.Records, after: CP.Records, id: string, left: seq<string>, host: string)
    requires AllSettled(records, after, id, left) && (id, host) in records
    ensures (id, host) in after
    ensures host in left || Settled(records, (id, host)) ==> Settled(after, (id, host))
  {
    if host in left { assert Settled(after, (id, host)); } else { assert Same(records, after, (id, host)); }
  }

  /** Settle the hosts of the current wave that have not been settled with an earlier one. */
  lemma SettleWave(cp: CP.Cp, fleet: FleetResolved, id: string, hosts: seq<string>, holdout: string,
                   at: CP.Stamp, policy: HM.RolloutPolicy)
    returns (ops: seq<CP.Op>)
    requires Settling(cp, id, holdout) && forall host :: host in hosts ==> (id, host) in cp.records
    ensures WaveRun(cp, fleet, id, ops) && NoOpens(ops)
    ensures var after := CP.Run(cp, ops);
            && Settling(after, id, holdout) && CursorAt(after, id, cp.rows[id].currentWave)
            && (forall host :: host in hosts ==> Settled(after.records, (id, host)))
            && (forall host :: (id, host) in cp.records ==> (id, host) in after.records)
  {
    var left := Unsettled(cp.records, id, hosts, holdout);
    ops := SettleEach(cp, fleet, id, left, holdout, at, policy);
    var after := CP.Run(cp, ops).records;
    forall host | (id, host) in cp.records ensures (id, host) in after && (host in hosts ==> Settled(after, (id, host))) {
      NowSettled(cp.records, after, id, left, host);
    }
  }

  lemma BumpOne(cp: CP.Cp, fleet: FleetResolved, id: string, holdout: string) returns (op: CP.Op)
    requires WavesFit(fleet) && Settling(cp, id, holdout)
    requires var waves, current := WavesOf(fleet, id), cp.rows[id].currentWave;
             && current + 1 < |waves| && waves[current].hosts != []
             && forall host :: host in waves[current].hosts ==> Settled(cp.records, (id, host))
    ensures WaveAllowed(cp, fleet, id, op) && op.WaveOp?
    ensures var next := CP.Apply(cp, op);
            && Settling(next, id, holdout) && CursorAt(next, id, cp.rows[id].currentWave + 1)
            && next.records == cp.records
  {
    op := CP.WaveOp(id, cp.rows[id].currentWave + 1);
    SettlingIsOpen(cp, id, holdout);
    CP.WaveKeeps(cp, id, op.wave);
    assert CP.Apply(cp, op).rows[id].state == cp.rows[id].state;
  }

  lemma {:induction false} WaveByWave(cp: CP.Cp, fleet: FleetResolved, id: string, holdout: string, cursor: nat,
                                      at: CP.Stamp, policy: HM.RolloutPolicy)
    returns (ops: seq<CP.Op>)
    requires WavesFit(fleet) && Settling(cp, id, holdout) && Known(cp, fleet, id, cursor)
    requires cp.rows[id].currentWave <= cursor
    ensures WaveRun(cp, fleet, id, ops) && NoOpens(ops) && CursorAt(CP.Run(cp, ops), id, cursor)
    decreases cursor - cp.rows[id].currentWave
  {
    ops := [];
    var current := cp.rows[id].currentWave;
    if current < cursor {
      var settle := SettleWave(cp, fleet, id, WavesOf(fleet, id)[current].hosts, holdout, at, policy);
      var settled := CP.Run(cp, settle);
      var op := BumpOne(settled, fleet, id, holdout);
      var next := CP.Apply(settled, op);
      var rest := WaveByWave(next, fleet, id, holdout, cursor, at, policy);
      RunOneMore(settled, fleet, id, op, rest);
      RunAppend(cp, fleet, id, settle, [op] + rest);
      ops := settle + ([op] + rest);
    }
  }

  // ----- Opening with the real host set

  /** The host set as it is joined, with some soak deadline. */
  function Joinings(hostSet: seq<HostWave>, soak: Instant): (r: seq<CP.Joining>)
    requires forall h :: h in hostSet ==> h.waveIndex <= U32_MAX
    ensures Joins(r, hostSet)
  {
    if hostSet == [] then []
    else
      assert forall h :: h in hostSet[1..] ==> h in hostSet;
      [CP.Joining(hostSet[0].hostname, hostSet[0].waveIndex, hostSet[0].targetClosure, soak)] + Joinings(hostSet[1..], soak)
  }

  lemma IndicesFit(fleet: FleetResolved, channel: string, hostSet: seq<HostWave>)
    requires WavesFit(fleet) && Manifest.IsHostSet(fleet, channel, hostSet)
    ensures forall h :: h in hostSet ==> h.waveIndex <= U32_MAX
  {
    forall h | h in hostSet ensures h.waveIndex <= U32_MAX {
      var i :| 0 <= i < |hostSet| && hostSet[i] == h;
      assert h == Manifest.Entry(fleet, channel, h.hostname);
    }
  }

  /** A host set names exactly the carried hosts, each once. */
  lemma JoinedNames(fleet: FleetResolved, channel: string, hostSet: seq<HostWave>, hosts: seq<CP.Joining>)
    requires Manifest.IsHostSet(fleet, channel, hostSet) && Joins(hosts, hostSet)
    ensures CP.DistinctHosts(hosts)
    ensures forall name :: Manifest.Carries(fleet, channel, name) ==> exists i :: 0 <= i < |hosts| && hosts[i].host == name
  {
    var names := Manifest.Names(hostSet);
    forall i, j | 0 <= i < j < |hosts| ensures hosts[i].host != hosts[j].host {
      assert Text.Less(names[i], names[j]);
      Text.LessIrreflexive(names[i]);
    }
    forall name | Manifest.Carries(fleet, channel, name) ensures exists i :: 0 <= i < |hosts| && hosts[i].host == name {
      var i :| 0 <= i < |names| && names[i] == name;
      assert hosts[i].host == name;
    }
  }

  lemma JoinedFresh(cp: CP.Cp, id: string, channel: string, hosts: seq<CP.Joining>, at: CP.Stamp)
    requires CP.DistinctHosts(hosts) && forall key :: key in cp.records ==> key.0 != id
    ensures var after := CP.JoinAll(cp, id, channel, at, hosts);
            && (forall i :: 0 <= i < |hosts| ==> Fresh(after.records, (id, hosts[i].host)))
            && (forall key :: key in after.records && key.0 == id ==> Fresh(after.records, key))
  {
    CP.JoinAllRecords(cp, id, channel, at, hosts);
  }

  lemma JoinedActive(cp: CP.Cp, id: string, channel: string, targetRef: string, hosts: seq<CP.Joining>, at: CP.Stamp)
    requires CP.Inv(cp) && id !in cp.rows && hosts != []
    ensures var after := CP.Opened(cp, id, channel, targetRef, at, hosts);
            CP.Inv(after) && CursorAt(after, id, 0) && after.rows[id].state.Active?
  {
    CP.OpenKeeps(cp, id, channel, targetRef, at, hosts);
    OpenCursor(cp, id, channel, targetRef, at, hosts);
    CP.InsertKeeps(cp, id, channel, targetRef, at);
    CP.JoinAllKeeps(cp.(rows := RT.OpenedOver(cp.rows, id, channel, targetRef, at)), id, channel, at, hosts);
  }

  lemma OpenSettling(cp: CP.Cp, id: string, channel: string, targetRef: string, hosts: seq<CP.Joining>, at: CP.Stamp)
    requires cp == CP.EMPTY && CP.DistinctHosts(hosts) && hosts != []
    ensures var after := CP.Opened(cp, id, channel, targetRef, at, hosts);
            && Settling(after, id, hosts[0].host) && CursorAt(after, id, 0)
            && forall i :: 0 <= i < |hosts| ==> (id, hosts[i].host) in after.records
  {
    JoinedActive(cp, id, channel, targetRef, hosts, at);
    JoinedFresh(cp.(rows := RT.OpenedOver(cp.rows, id, channel, targetRef, at)), id, channel, hosts, at);
  }

  /** Opening a published rollout gives every carried host a record. */
  lemma OpenPublished(fleet: FleetResolved, id: string, at: CP.Stamp) returns (op: CP.Op, holdout: string)
    requires WavesFit(fleet) && Published(fleet, id)
    ensures op.OpenOp? && op.id == id && OpenProjected(fleet, id, op)
    ensures var after := CP.Apply(CP.EMPTY, op);
            && Settling(after, id, holdout) && CursorAt(after, id, 0)
            && forall name :: Manifest.Carries(fleet, RolloutIds.Channel(id), name) ==> (id, name) in after.records
  {
    var channel := RolloutIds.Channel(id);
    var hostSet := Manifest.HostSetExists(fleet, channel);
    IndicesFit(fleet, channel, hostSet);
    var hosts := Joinings(hostSet, 0);
    JoinedNames(fleet, channel, hostSet, hosts);
    var some :| Manifest.Carries(fleet, channel, some);
    assert hosts != [];
    holdout := hosts[0].host;
    op := CP.OpenOp(id, channel, fleet.meta.ciCommit.GetOr(""), at, hosts);
    OpenSettling(CP.EMPTY, id, channel, op.targetRef, hosts, at);
  }

  lemma ReachIt(fleet: FleetResolved, id: string, cursor: nat)
    requires WavesFit(fleet) && Published(fleet, id) && AllPassable(fleet, id, cursor)
    ensures Reachable(fleet, id, cursor)
  {
    var op, holdout := OpenPublished(fleet, id, START);
    var cp := CP.Apply(CP.EMPTY, op);
    assert Known(cp, fleet, id, cursor);
    var rest := WaveByWave(cp, fleet, id, holdout, cursor, START, HM.RolloutPolicy(HM.Halt));
    RunOneMore(CP.EMPTY, fleet, id, op, rest);
    assert ProjectedOpens(fleet, id, [op] + rest);
  }

  /**
   A cursor can get to a wave exactly when the fleet publishes the rollout and every earlier wave has hosts,
   all of them hosts of the rollout's own channel that have a closure.
   */
  lemma ReachableIff(fleet: FleetResolved, id: string, cursor: nat)
    requires WavesFit(fleet)
    ensures Reachable(fleet, id, cursor) <==> Published(fleet, id) && AllPassable(fleet, id, cursor)
  {
    if Reachable(fleet, id, cursor) {
      var ops :| WaveRun(CP.EMPTY, fleet, id, ops) && ProjectedOpens(fleet, id, ops)
                 && CursorAt(CP.Run(CP.EMPTY, ops), id, cursor);
      PassedIsPassable(fleet, id, ops, cursor);
    }
    if Published(fleet, id) && AllPassable(fleet, id, cursor) { ReachIt(fleet, id, cursor); }
  }

  /**
   Two channels and a wave that names a host of each, as a tag selector over all hosts yields it. The rollout is
   published and every host is built, but its cursor never gets past that wave.
   */
  lemma MixedWaveBlocks(stable: string, edge: string, channelRef: string, a: string, b: string, d: string)
    returns (fleet: FleetResolved)
    requires '@' !in stable && stable != edge && a != b && a != d && b != d
    ensures var id := RolloutIds.New(stable, channelRef);
            && Published(fleet, id) && WavesFit(fleet)
            && WavesOf(fleet, id) == [Wave([a, b]), Wave([d])]
            && (forall host :: host in [a, b, d] ==> host in fleet.hosts && fleet.hosts[host].closureHash.Some?)
            && forall cursor :: cursor > 0 ==> !Reachable(fleet, id, cursor)
  {
    var policy, closure := RolloutPolicy("", HM.Halt), Some("c0ffee");
    fleet := FleetResolved(
      1, map[a := Host([], edge, closure), b := Host([], stable, closure), d := Host([], stable, closure)],
      map[edge := Channel("all"), stable := Channel("all")], map["all" := policy],
      map[stable := [Wave([a, b]), Wave([d])]], [], [], [], Meta(1, Some(0), Some(channelRef), None));
    var id := RolloutIds.New(stable, channelRef);
    RolloutIds.RoundTrip(stable, channelRef);
    assert Manifest.Carries(fleet, stable, b) && !Manifest.Carries(fleet, stable, a);
    var waves := WavesOf(fleet, id);
    assert a in waves[0].hosts;
    forall cursor | cursor > 0 ensures !Reachable(fleet, id, cursor) {
      ReachableIff(fleet, id, cursor);
      assert AllPassable(fleet, id, cursor) ==> Passable(fleet, stable, waves[0]);
    }
  }
}
