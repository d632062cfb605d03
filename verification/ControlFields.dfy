/** What one write does to the control plane's tables, field by field, quarantine table included. */
module ControlFields {
  import opened Wrappers
  import opened HostFields
  import CP = ControlPlane
  import HM = HostMachine
  import HR = HostRuns
  import RM = RolloutMachine
  import RT = RolloutsTable
  import T = Timestamps

  type Key = CP.Key

  /** The event is new to the host's record, has a policy, and the record may take it. */
  predicate Takes(cp: CP.Cp, key: Key, event: HM.Event, policy: Option<HM.RolloutPolicy>) {
    && key in cp.records && cp.records[key].lastEventSeq < event.seqNo && policy.Some?
    && HR.Legal(cp.records[key].state, event) && HR.ConvergedGuard(cp.records[key], event)
  }

  /** The rollout's row once a host has gone from one state to another: failed, completed, or as it was. */
  function RowState(r: RM.RolloutRecord, from: HM.HostState, to: HM.HostState, all: bool): RM.RolloutState {
    if from == to || !r.state.Active? then r.state
    else if to.Failed? then RM.Failed
    else if to.Converged? && all then RM.Terminal
    else r.state
  }

  function RowAfter(r: RM.RolloutRecord, state: RM.RolloutState, at: CP.Stamp): RM.RolloutRecord {
    if state == r.state then r
    else r.(state := state, terminalAt := if state.Terminal? then Some(at) else r.terminalAt, lastTransitionSeq := None)
  }

  /** The closure a report puts into the quarantine table: the target of a host that has rolled back. */
  function QuarantinedBy(record: HM.HostRolloutState, event: HM.Event): set<Key> {
    if event.RemoteRollbackComplete? then {(record.channel, record.targetClosure)} else {}
  }

  lemma {:induction false} ProcessedRow(rows: RT.Rows, e: RM.RolloutEvent)
    requires RT.TableOk(rows) && RM.Target(e) in rows && !e.WaveAdvanced?
    ensures var r, after := rows[RM.Target(e)], RT.Processed(rows, e);
            var to := if RM.Accepts(r.state, e) then RM.Destination(r.state, e) else r.state;
            && after.Keys == rows.Keys && (forall k :: k in rows && k != RM.Target(e) ==> after[k] == rows[k])
            && after[RM.Target(e)] ==
                 if to == r.state then r
                 else r.(state := to, lastTransitionSeq := None,
                         terminalAt := if to.Terminal? then Some(e.at) else r.terminalAt,
                         supersededAt := if to.Superseded? then Some(e.at) else r.supersededAt)
  {
    RT.EffectsPersistState(rows, e);
    RM.StepByEvent(rows[RM.Target(e)], e);
  }

  ghost predicate RowMoved(rows: RT.Rows, after: RT.Rows, id: string, state: RM.RolloutState, at: CP.Stamp)
    requires id in rows
  {
    && after.Keys == rows.Keys && (forall k :: k in rows && k != id ==> after[k] == rows[k])
    && after[id] == RowAfter(rows[id], state, at)
  }

  lemma AggregatedRow(rows: RT.Rows, records: CP.Records, key: Key, from: HM.HostState, to: HM.HostState, at: CP.Stamp)
    requires RT.TableOk(rows) && key.0 in rows && CP.Hears(rows[key.0].state) && CP.Moves(from, to)
    requires to.Reverted? ==> !rows[key.0].state.Active?
    ensures RowMoved(rows, CP.Aggregated(rows, records, key, from, to, at), key.0,
                     RowState(rows[key.0], from, to, CP.AllConverged(records, key.0)), at)
  {
    if from != to {
      var change := RM.HostStateChanged(key.0, key.1, from, to, at);
      var told := RT.Processed(rows, change);
      ProcessedRow(rows, change);
      RT.EventKeeps(rows, change);
      if to.Converged? && CP.AllConverged(records, key.0) {
        assert told[key.0] == rows[key.0];
        ProcessedRow(told, RM.RolloutTerminal(key.0, at));
      }
    }
  }

  predicate AllDone(records: CP.Records, id: string) {
    forall k | k in records :: k.0 == id ==> records[k].state.Converged?
  }

  /** One record is written, by the event's fields. */
  ghost predicate RecordWritten(records: CP.Records, key: Key, event: HM.Event, policy: HM.RolloutPolicy, after: CP.Records)
    requires key in records
  {
    && after.Keys == records.Keys
    && (forall other :: other in records && other != key ==> after[other] == records[other])
    && EveryField(records[key], event, policy, after[key])
  }

  /** Exactly which records, rows and quarantine entries a host event writes. */
  ghost predicate EventWrites(cp: CP.Cp, key: Key, event: HM.Event, policy: HM.RolloutPolicy, at: CP.Stamp, after: CP.Cp)
    requires key in cp.records && key.0 in cp.rows
  {
    && RecordWritten(cp.records, key, event, policy, after.records)
    && after.quarantined == cp.quarantined + QuarantinedBy(cp.records[key], event)
    && RowMoved(cp.rows, after.rows, key.0,
                RowState(cp.rows[key.0], cp.records[key].state, after.records[key].state, AllDone(after.records, key.0)), at)
  }

  lemma QuarantinesOf(s: HM.HostRolloutState, e: HM.Event, policy: HM.RolloutPolicy)
    requires HM.Step(s, e, policy).Stepped?
    ensures CP.Quarantines(HM.Step(s, e, policy).effects) == QuarantinedBy(s, e)
  {
    StepByEffect(s, e, policy);
    var t := HM.Step(s, e, policy).next;
    var effects := EveryEffect(s, e, policy, t);
    assert forall x :: x in effects && x.RemoteInsertQuarantine? ==> x in QuarantineEffects(s, e);
    if e.RemoteRollbackComplete? {
      assert HM.RemoteInsertQuarantine(s.channel, s.targetClosure) in QuarantineEffects(s, e);
      assert HM.RemoteInsertQuarantine(s.channel, s.targetClosure) in effects;
    }
  }

  lemma OneRecordWritten(records: CP.Records, key: Key, event: HM.Event, policy: HM.RolloutPolicy, next: HM.HostRolloutState)
    requires key in records && EveryField(records[key], event, policy, next)
    ensures RecordWritten(records, key, event, policy, records[key := next])
  {}

  lemma TakenRecord(cp: CP.Cp, key: Key, event: HM.Event, policy: HM.RolloutPolicy, at: CP.Stamp)
    requires CP.Inv(cp) && key in cp.records && HM.Step(cp.records[key], event, policy).Stepped?
    ensures var next := HM.Step(cp.records[key], event, policy).next;
            var records := cp.records[key := next];
            && RecordWritten(cp.records, key, event, policy, records)
            && CP.HostEvent(cp, key, event, Some(policy), at) ==
               CP.Cp(CP.Aggregated(cp.rows, records, key, cp.records[key].state, next.state, at), records,
                     cp.quarantined + QuarantinedBy(cp.records[key], event))
  {
    HR.StepAdvancesSeq(cp.records[key], HR.Input(event, policy));
    StepByField(cp.records[key], event, policy);
    OneRecordWritten(cp.records, key, event, policy, HM.Step(cp.records[key], event, policy).next);
    QuarantinesOf(cp.records[key], event, policy);
  }

  lemma TakenRow(cp: CP.Cp, key: Key, event: HM.Event, policy: HM.RolloutPolicy, at: CP.Stamp)
    requires CP.Inv(cp) && key in cp.records && HM.Step(cp.records[key], event, policy).Stepped?
    ensures var next := HM.Step(cp.records[key], event, policy).next;
            var records := cp.records[key := next];
            && key.0 in cp.rows
            && RowMoved(cp.rows, CP.Aggregated(cp.rows, records, key, cp.records[key].state, next.state, at), key.0,
                        RowState(cp.rows[key.0], cp.records[key].state, next.state, AllDone(records, key.0)), at)
  {
    var next := HM.Step(cp.records[key], event, policy).next;
    CP.HostMoves(cp.records[key], event, policy);
    CP.AggregatableRow(cp, key);
    if next.state.Reverted? { assert CP.Agrees(cp.rows[key.0].state, cp.records, key.0); }
    AggregatedRow(cp.rows, cp.records[key := next], key, cp.records[key].state, next.state, at);
    assert AllDone(cp.records[key := next], key.0) == CP.AllConverged(cp.records[key := next], key.0);
  }

  lemma TakenWrites(cp: CP.Cp, key: Key, event: HM.Event, policy: HM.RolloutPolicy, at: CP.Stamp)
    requires CP.Inv(cp) && key in cp.records && HM.Step(cp.records[key], event, policy).Stepped?
    ensures key.0 in cp.rows && EventWrites(cp, key, event, policy, at, CP.HostEvent(cp, key, event, Some(policy), at))
  {
    TakenRecord(cp, key, event, policy, at);
    TakenRow(cp, key, event, policy, at);
  }

  lemma NotTaken(cp: CP.Cp, key: Key, event: HM.Event, policy: Option<HM.RolloutPolicy>, at: CP.Stamp)
    requires key !in cp.records || policy.None? || HM.Step(cp.records[key], event, policy.value).Rejected?
    ensures CP.HostEvent(cp, key, event, policy, at) == cp
  {
  }

  lemma TakesIff(cp: CP.Cp, key: Key, event: HM.Event, policy: Option<HM.RolloutPolicy>)
    ensures Takes(cp, key, event, policy) <==>
              key in cp.records && policy.Some? && HM.Step(cp.records[key], event, policy.value).Stepped?
  {
    if key in cp.records && policy.Some? { HR.StepAcceptsIff(cp.records[key], event, policy.value); }
  }

  /** A host event is taken exactly under these conditions, and then writes exactly this; otherwise nothing changes. */
  lemma EventByField(cp: CP.Cp, key: Key, event: HM.Event, policy: Option<HM.RolloutPolicy>, at: CP.Stamp)
    requires CP.Inv(cp)
    ensures var after := CP.HostEvent(cp, key, event, policy, at);
            if Takes(cp, key, event, policy)
            then key.0 in cp.rows && EventWrites(cp, key, event, policy.value, at, after)
            else after == cp
  {
    TakesIff(cp, key, event, policy);
    if Takes(cp, key, event, policy) { TakenWrites(cp, key, event, policy.value, at); }
    else { NotTaken(cp, key, event, policy, at); }
  }

  // ----- Opening

  /** Joining hosts makes an opening row active and changes nothing else about the rows. */
  lemma {:induction false} JoinedRows(cp: CP.Cp, id: string, channel: string, at: CP.Stamp, hosts: seq<CP.Joining>)
    requires RT.TableOk(cp.rows) && id in cp.rows && cp.rows[id].state.Opening? && cp.rows[id].lastTransitionSeq.None?
    ensures var rows := CP.JoinAll(cp, id, channel, at, hosts).rows;
            RT.TableOk(rows) && rows == cp.rows[id := cp.rows[id].(state := if hosts == [] then RM.Opening else RM.Active)]
    decreases |hosts|
  {
    if hosts == [] {
      assert cp.rows[id := cp.rows[id]] == cp.rows;
    } else {
      var front, last := hosts[..|hosts| - 1], hosts[|hosts| - 1];
      JoinedRows(cp, id, channel, at, front);
      var rows, joined := CP.JoinAll(cp, id, channel, at, front).rows, RM.HostJoined(id, last.host, last.wave, at);
      RT.EventKeeps(rows, joined);
      ProcessedRow(rows, joined);
      assert RT.Processed(rows, joined) == cp.rows[id := cp.rows[id].(state := RM.Active)];
    }
  }

  /** The new row, and every live rollout of the channel superseded by it. */
  ghost predicate RowOpened(rows: RT.Rows, id: string, channel: string, targetRef: string, at: CP.Stamp, joined: bool,
                            after: RT.Rows)
  {
    && after.Keys == rows.Keys + {id}
    && after[id] == RM.RolloutRecord(id, channel, targetRef, if joined then RM.Active else RM.Opening, 0, None, None, at,
                                     None, None)
    && forall k :: k in rows ==>
         if rows[k].channel == channel && !rows[k].state.Superseded? && !rows[k].state.Pruned?
         then after[k] == rows[k].(state := RM.Superseded, supersededAt := Some(at), lastTransitionSeq := None)
         else after[k] == rows[k]
  }

  /** One untouched record for each host of the host set, with its own closure and soak deadline. */
  ghost predicate RecordsJoined(records: CP.Records, id: string, channel: string, at: CP.Stamp, hosts: seq<CP.Joining>,
                                after: CP.Records)
  {
    && (forall i :: 0 <= i < |hosts| ==>
          (id, hosts[i].host) in after
          && Untouched(after[(id, hosts[i].host)], id, hosts[i].host, channel, hosts[i].targetClosure, T.InstantOf(at),
                       hosts[i].soakDueAt))
    && (forall key :: key in records ==> key in after && after[key] == records[key])
    && forall key :: key in after && key !in records ==> exists i :: 0 <= i < |hosts| && key == (id, hosts[i].host)
  }

  lemma OpenedRecords(cp: CP.Cp, id: string, channel: string, at: CP.Stamp, hosts: seq<CP.Joining>)
    requires CP.DistinctHosts(hosts) && forall key :: key in cp.records ==> key.0 != id
    ensures RecordsJoined(cp.records, id, channel, at, hosts, CP.JoinAll(cp, id, channel, at, hosts).records)
  {
    CP.JoinAllRecords(cp, id, channel, at, hosts);
    forall i | 0 <= i < |hosts| {
      NewIsUntouched(id, hosts[i].host, channel, hosts[i].targetClosure, T.InstantOf(at), hosts[i].soakDueAt);
    }
  }

  lemma InsertedRow(rows: RT.Rows, id: string, channel: string, targetRef: string, at: CP.Stamp, joined: bool)
    returns (opening: RT.Rows)
    requires RT.TableOk(rows) && id !in rows
    ensures opening == RT.OpenedOver(rows, id, channel, targetRef, at) && RT.TableOk(opening) && id in opening
    ensures opening[id].state.Opening? && opening[id].lastTransitionSeq.None?
    ensures RowOpened(rows, id, channel, targetRef, at, joined,
                      opening[id := opening[id].(state := if joined then RM.Active else RM.Opening)])
  {
    opening := RT.OpenedOver(rows, id, channel, targetRef, at);
    RT.OpenedByRow(rows, id, channel, targetRef, at);
    RT.OpenKeeps(rows, id, channel, targetRef, at);
  }

  lemma OpenedRows(cp: CP.Cp, id: string, channel: string, targetRef: string, at: CP.Stamp, hosts: seq<CP.Joining>)
    requires RT.TableOk(cp.rows) && id !in cp.rows
    ensures RowOpened(cp.rows, id, channel, targetRef, at, hosts != [],
                      CP.Opened(cp, id, channel, targetRef, at, hosts).rows)
  {
    var opening := InsertedRow(cp.rows, id, channel, targetRef, at, hosts != []);
    JoinedRows(cp.(rows := opening), id, channel, at, hosts);
  }

  /** What opening a rollout writes: its row, its predecessors' ends, and one untouched record for each host. */
  lemma OpenByField(cp: CP.Cp, id: string, channel: string, targetRef: string, at: CP.Stamp, hosts: seq<CP.Joining>)
    requires CP.Inv(cp) && id !in cp.rows && CP.DistinctHosts(hosts)
    ensures var after := CP.Opened(cp, id, channel, targetRef, at, hosts);
            && RowOpened(cp.rows, id, channel, targetRef, at, hosts != [], after.rows)
            && RecordsJoined(cp.records, id, channel, at, hosts, after.records)
            && after.quarantined == cp.quarantined
  {
    OpenedRows(cp, id, channel, targetRef, at, hosts);
    OpenedRecords(cp.(rows := RT.OpenedOver(cp.rows, id, channel, targetRef, at)), id, channel, at, hosts);
    JoinsQuarantineNothing(cp.(rows := RT.OpenedOver(cp.rows, id, channel, targetRef, at)), id, channel, at, hosts);
  }

  // ----- The quarantine table over all writes

  lemma {:induction false} JoinsQuarantineNothing(cp: CP.Cp, id: string, channel: string, at: CP.Stamp,
                                                  hosts: seq<CP.Joining>)
    ensures CP.JoinAll(cp, id, channel, at, hosts).quarantined == cp.quarantined
    decreases |hosts|
  {
    if hosts != [] { JoinsQuarantineNothing(cp, id, channel, at, hosts[..|hosts| - 1]); }
  }

  /** Nothing but an accepted rollback report changes the quarantine table, and it adds the failed closure. */
  lemma QuarantineIff(cp: CP.Cp, op: CP.Op)
    requires CP.Inv(cp)
    ensures CP.Apply(cp, op).quarantined == cp.quarantined +
              if op.HostOp? && Takes(cp, op.key, op.event, op.policy)
              then QuarantinedBy(cp.records[op.key], op.event) else {}
  {
    match op
    case OpenOp(id, channel, targetRef, at, hosts) =>
      JoinsQuarantineNothing(cp.(rows := RT.OpenedOver(cp.rows, id, channel, targetRef, at)), id, channel, at, hosts);
    case HostOp(key, event, policy, at) => EventByField(cp, key, event, policy, at);
    case _ =>
  }
}
