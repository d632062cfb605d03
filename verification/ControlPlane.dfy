/**
 The control plane's two tables under all the writes its reducer makes: opening rollouts, host events,
 wave bumps and pruning. The rollout rows are kept in step with the host records event by event; the
 main result is that a rollout's state is always the aggregate of its hosts' states.
 */
module ControlPlane {
  import opened Wrappers
  import HM = HostMachine
  import HR = HostRuns
  import RM = RolloutMachine
  import RT = RolloutsTable
  import T = Timestamps

  type Key = (string, string)
  type Stamp = RM.Stamp
  type Records = map<Key, HM.HostRolloutState>

  /** `quarantined` is the quarantine table: channel and closure. */
  datatype Cp = Cp(rows: RT.Rows, records: Records, quarantined: set<Key>)

  /** One entry of the manifest's host set, its soak deadline resolved. */
  datatype Joining = Joining(host: string, wave: u32, targetClosure: string, soakDueAt: Instant)

  /** Hosts of wave 0 with one closure and soak deadline. */
  function Joinings(names: seq<string>, closure: string, soak: Instant): (r: seq<Joining>)
    ensures |r| == |names| && forall i :: 0 <= i < |r| ==> r[i] == Joining(names[i], 0, closure, soak)
  {
    if names == [] then [] else [Joining(names[0], 0, closure, soak)] + Joinings(names[1..], closure, soak)
  }

  // ----- What one write does

  predicate AllConverged(records: Records, id: string) {
    forall key | key in records :: key.0 == id ==> records[key].state.Converged?
  }

  /** Closures the effects of one step put into quarantine. */
  function Quarantines(effects: seq<HM.Effect>): set<Key> {
    set e | e in effects && e.RemoteInsertQuarantine? :: (e.channel, e.closure)
  }

  /** Tell the rollout about a host's change, and about completion when that was the last host. */
  function Aggregated(rows: RT.Rows, records: Records, key: Key, from: HM.HostState, to: HM.HostState, at: Stamp): RT.Rows {
    if from == to then rows
    else
      var told := RT.Processed(rows, RM.HostStateChanged(key.0, key.1, from, to, at));
      if to.Converged? && AllConverged(records, key.0) then RT.Processed(told, RM.RolloutTerminal(key.0, at)) else told
  }

  /** Unknown hosts, old sequence numbers, unresolved policies and rejected events change nothing. */
  function HostEvent(cp: Cp, key: Key, event: HM.Event, policy: Option<HM.RolloutPolicy>, at: Stamp): Cp {
    if key !in cp.records || event.seqNo <= cp.records[key].lastEventSeq || policy.None? then cp
    else
      match HM.Step(cp.records[key], event, policy.value)
      case Rejected(_) => cp
      case Stepped(next, effects) =>
        var records := cp.records[key := next.(lastEventSeq := event.seqNo)];
        Cp(Aggregated(cp.rows, records, key, cp.records[key].state, next.state, at), records,
           cp.quarantined + Quarantines(effects))
  }

  /** A Pending record for the host, then `HostJoined` for the rollout. */
  function JoinOne(cp: Cp, id: string, channel: string, at: Stamp, h: Joining): Cp {
    Cp(RT.Processed(cp.rows, RM.HostJoined(id, h.host, h.wave, at)),
       cp.records[(id, h.host) := HM.NewPending(id, h.host, channel, h.targetClosure, T.InstantOf(at), h.soakDueAt)],
       cp.quarantined)
  }

  function JoinAll(cp: Cp, id: string, channel: string, at: Stamp, hosts: seq<Joining>): Cp
    decreases |hosts|
  {
    if hosts == [] then cp
    else JoinOne(JoinAll(cp, id, channel, at, hosts[..|hosts| - 1]), id, channel, at, hosts[|hosts| - 1])
  }

  function Opened(cp: Cp, id: string, channel: string, targetRef: string, at: Stamp, hosts: seq<Joining>): Cp {
    JoinAll(cp.(rows := RT.OpenedOver(cp.rows, id, channel, targetRef, at)), id, channel, at, hosts)
  }

  datatype Op =
    | OpenOp(id: string, channel: string, targetRef: string, at: Stamp, hosts: seq<Joining>)
    | HostOp(key: Key, event: HM.Event, policy: Option<HM.RolloutPolicy>, at: Stamp)
    | WaveOp(id: string, wave: u32)
    | PruneOp(cutoff: Stamp)

  /** The planner only opens rollouts that have no row. */
  predicate Allowed(cp: Cp, op: Op) {
    op.OpenOp? ==> op.id !in cp.rows
  }

  function Apply(cp: Cp, op: Op): Cp {
    match op
    case OpenOp(id, channel, targetRef, at, hosts) => Opened(cp, id, channel, targetRef, at, hosts)
    case HostOp(key, event, policy, at) => HostEvent(cp, key, event, policy, at)
    case WaveOp(id, wave) => cp.(rows := RT.Waved(cp.rows, id, wave, None))
    case PruneOp(cutoff) =>
      Cp(RT.PrunedRows(cp.rows, cutoff), RT.PrunedRecords(cp.records, cp.rows, cutoff), cp.quarantined)
  }

  ghost predicate AllowedRun(cp: Cp, ops: seq<Op>)
    decreases |ops|
  {
    ops != [] ==> Allowed(cp, ops[0]) && AllowedRun(Apply(cp, ops[0]), ops[1..])
  }

  function Run(cp: Cp, ops: seq<Op>): Cp
    decreases |ops|
  {
    if ops == [] then cp else Run(Apply(cp, ops[0]), ops[1..])
  }

  const EMPTY := Cp(map[], map[], {})

  // ----- The aggregate

  predicate Broken(s: HM.HostState) {
    s.Failed? || s.Reverted?
  }

  ghost predicate Joined(records: Records, id: string) {
    exists key :: key in records && key.0 == id
  }

  ghost predicate AnyBroken(records: Records, id: string) {
    exists key :: key in records && key.0 == id && Broken(records[key].state)
  }

  ghost predicate AnyUnfinished(records: Records, id: string) {
    exists key :: key in records && key.0 == id && !records[key].state.Converged?
  }

  /** What the host records say the state of a rollout must be. */
  ghost predicate Agrees(state: RM.RolloutState, records: Records, id: string) {
    match state
    case Opening => !Joined(records, id)
    case Active => AnyUnfinished(records, id) && !AnyBroken(records, id)
    case Terminal => Joined(records, id) && AllConverged(records, id)
    case Failed => AnyBroken(records, id)
    case Superseded => true
    case _ => false
  }

  ghost predicate RowsAgree(rows: RT.Rows, records: Records) {
    forall id :: id in rows ==> Agrees(rows[id].state, records, id)
  }

  ghost predicate RecordsOk(rows: RT.Rows, records: Records) {
    forall key :: key in records ==>
      key.0 in rows && records[key].rolloutId == key.0 && records[key].hostname == key.1 && HR.Coherent(records[key])
  }

  ghost predicate Inv(cp: Cp) {
    RT.TableOk(cp.rows) && RecordsOk(cp.rows, cp.records) && RowsAgree(cp.rows, cp.records)
  }

  // ----- One rollout event on one row

  /** A rollout event rewrites the state of its own row and leaves every other row alone. */
  lemma ProcessedOnly(rows: RT.Rows, e: RM.RolloutEvent)
    requires RT.TableOk(rows) && RM.Target(e) in rows
    ensures RT.TableOk(RT.Processed(rows, e)) && RT.Processed(rows, e).Keys == rows.Keys
    ensures forall id :: id in rows && id != RM.Target(e) ==> RT.Processed(rows, e)[id] == rows[id]
    ensures RT.Processed(rows, e)[RM.Target(e)].state == RM.Advance(rows[RM.Target(e)], e).state
  {
    RT.EventKeeps(rows, e);
    RT.EffectsPersistState(rows, e);
  }

  function AfterChange(state: RM.RolloutState, to: HM.HostState): RM.RolloutState {
    if state.Active? && to.Failed? then RM.Failed else if state.Active? && to.Reverted? then RM.Reverted else state
  }

  lemma ChangeMoves(r: RM.RolloutRecord, host: string, from: HM.HostState, to: HM.HostState, at: Stamp)
    requires !r.state.Converging?
    ensures RM.Advance(r, RM.HostStateChanged(r.rolloutId, host, from, to, at)).state == AfterChange(r.state, to)
  {}

  lemma CompletionMoves(r: RM.RolloutRecord, at: Stamp)
    requires r.state.Active? || r.state.Superseded? || r.state.Failed?
    ensures RM.Advance(r, RM.RolloutTerminal(r.rolloutId, at)).state
            == if r.state.Active? then RM.Terminal else r.state
  {}

  /** Where a completed aggregation leaves an open, failed or superseded rollout. */
  function AfterEvent(state: RM.RolloutState, from: HM.HostState, to: HM.HostState, all: bool): RM.RolloutState {
    if from == to || !state.Active? then state
    else if to.Converged? && all then RM.Terminal
    else AfterChange(state, to)
  }

  predicate Hears(state: RM.RolloutState) {
    state.Active? || state.Failed? || state.Superseded?
  }

  ghost predicate OnlyMoved(rows: RT.Rows, after: RT.Rows, id: string, state: RM.RolloutState)
    requires id in rows
  {
    && RT.TableOk(after) && after.Keys == rows.Keys
    && (forall other :: other in rows && other != id ==> after[other] == rows[other])
    && after[id].state == state
  }

  lemma ToldOnly(rows: RT.Rows, key: Key, from: HM.HostState, to: HM.HostState, at: Stamp)
    requires RT.TableOk(rows) && key.0 in rows && Hears(rows[key.0].state)
    ensures OnlyMoved(rows, RT.Processed(rows, RM.HostStateChanged(key.0, key.1, from, to, at)), key.0,
                      AfterChange(rows[key.0].state, to))
  {
    ProcessedOnly(rows, RM.HostStateChanged(key.0, key.1, from, to, at));
    ChangeMoves(rows[key.0], key.1, from, to, at);
  }

  lemma CompletedOnly(rows: RT.Rows, id: string, at: Stamp)
    requires RT.TableOk(rows) && id in rows && Hears(rows[id].state)
    ensures OnlyMoved(rows, RT.Processed(rows, RM.RolloutTerminal(id, at)), id,
                      if rows[id].state.Active? then RM.Terminal else rows[id].state)
  {
    ProcessedOnly(rows, RM.RolloutTerminal(id, at));
    CompletionMoves(rows[id], at);
  }

  lemma AggregatedOnly(rows: RT.Rows, records: Records, key: Key, from: HM.HostState, to: HM.HostState, at: Stamp)
    requires RT.TableOk(rows) && key.0 in rows && Hears(rows[key.0].state)
    ensures OnlyMoved(rows, Aggregated(rows, records, key, from, to, at), key.0,
                      AfterEvent(rows[key.0].state, from, to, AllConverged(records, key.0)))
  {
    if from != to {
      ToldOnly(rows, key, from, to, at);
      if to.Converged? && AllConverged(records, key.0) {
        CompletedOnly(RT.Processed(rows, RM.HostStateChanged(key.0, key.1, from, to, at)), key.0, at);
      }
    }
  }

  predicate Moves(from: HM.HostState, to: HM.HostState) {
    && !from.Converged? && !from.Reverted?
    && (to.Reverted? <==> from.Failed?)
    && (to.Failed? ==> !Broken(from))
  }

  lemma SoakingMoves(s: HM.HostRolloutState, e: HM.Event)
    requires HM.FromSoaking(s, e).Stepped? && s.state.Soaking?
    ensures Moves(s.state, HM.FromSoaking(s, e).next.state)
  {}

  lemma ActivatingMoves(s: HM.HostRolloutState, e: HM.Event, policy: HM.RolloutPolicy)
    requires HM.FromActivating(s, e, policy).Stepped? && s.state.Activating?
    ensures Moves(s.state, HM.FromActivating(s, e, policy).next.state)
  {}

  lemma PendingMoves(s: HM.HostRolloutState, e: HM.Event)
    requires HM.FromPending(s, e).Stepped? && s.state.Pending?
    ensures Moves(s.state, HM.FromPending(s, e).next.state)
  {}

  lemma DeferredMoves(s: HM.HostRolloutState, e: HM.Event)
    requires HM.FromDeferred(s, e).Stepped? && s.state.Deferred?
    ensures Moves(s.state, HM.FromDeferred(s, e).next.state)
  {}

  lemma FailedMoves(s: HM.HostRolloutState, e: HM.Event)
    requires HM.FromFailed(s, e).Stepped? && s.state.Failed?
    ensures Moves(s.state, HM.FromFailed(s, e).next.state)
  {}

  /** How a single accepted event may move a host. */
  lemma HostMoves(s: HM.HostRolloutState, e: HM.Event, policy: HM.RolloutPolicy)
    requires HM.Step(s, e, policy).Stepped?
    ensures Moves(s.state, HM.Step(s, e, policy).next.state)
  {
    match s.state
    case Soaking => SoakingMoves(s, e);
    case Activating => ActivatingMoves(s, e, policy);
    case Pending => PendingMoves(s, e);
    case Deferred => DeferredMoves(s, e);
    case Failed => FailedMoves(s, e);
    case _ =>
  }

  // ----- Host events keep the invariant

  /** The sequence number the control plane writes is the one the step wrote. */
  lemma SavedRecord(prior: HM.HostRolloutState, event: HM.Event, policy: HM.RolloutPolicy)
    requires HR.Coherent(prior) && HM.Step(prior, event, policy).Stepped?
    ensures var next := HM.Step(prior, event, policy).next;
            && next.(lastEventSeq := event.seqNo) == next && HR.Coherent(next)
            && next.rolloutId == prior.rolloutId && next.hostname == prior.hostname
  {
    HR.StepKeepsCoherent(prior, HR.Input(event, policy));
    HR.StepAdvancesSeq(prior, HR.Input(event, policy));
  }

  /** A rollout with a host that has not finished has a row that can hear about it. */
  lemma AggregatableRow(cp: Cp, key: Key)
    requires Inv(cp) && key in cp.records && !cp.records[key].state.Converged?
    ensures key.0 in cp.rows
    ensures Hears(cp.rows[key.0].state)
  {
    assert Agrees(cp.rows[key.0].state, cp.records, key.0);
  }

  lemma AcceptedKeeps(cp: Cp, key: Key, next: HM.HostRolloutState, quarantined: set<Key>, at: Stamp)
    requires Inv(cp) && key in cp.records && Moves(cp.records[key].state, next.state)
    requires next.rolloutId == key.0 && next.hostname == key.1 && HR.Coherent(next)
    ensures var records := cp.records[key := next];
            Inv(Cp(Aggregated(cp.rows, records, key, cp.records[key].state, next.state, at), records, quarantined))
  {
    var records := cp.records[key := next];
    var rows := Aggregated(cp.rows, records, key, cp.records[key].state, next.state, at);
    AggregatableRow(cp, key);
    AggregatedOnly(cp.rows, records, key, cp.records[key].state, next.state, at);
    AgreeAfterMove(cp.rows, rows, cp.records, key, next);
  }

  predicate Accepts(cp: Cp, key: Key, event: HM.Event, policy: Option<HM.RolloutPolicy>) {
    && key in cp.records && cp.records[key].lastEventSeq < event.seqNo && policy.Some?
    && HM.Step(cp.records[key], event, policy.value).Stepped?
  }

  /** The record an accepted event writes. */
  lemma AcceptedRecord(cp: Cp, key: Key, event: HM.Event, policy: Option<HM.RolloutPolicy>, at: Stamp)
    returns (next: HM.HostRolloutState, quarantined: set<Key>)
    requires Inv(cp) && Accepts(cp, key, event, policy)
    ensures next.rolloutId == key.0 && next.hostname == key.1 && HR.Coherent(next)
    ensures Moves(cp.records[key].state, next.state)
    ensures var records := cp.records[key := next];
            HostEvent(cp, key, event, policy, at)
            == Cp(Aggregated(cp.rows, records, key, cp.records[key].state, next.state, at), records, quarantined)
  {
    var out := HM.Step(cp.records[key], event, policy.value);
    next := out.next;
    quarantined := cp.quarantined + Quarantines(out.effects);
    SavedRecord(cp.records[key], event, policy.value);
    HostMoves(cp.records[key], event, policy.value);
  }

  lemma HostEventKeeps(cp: Cp, key: Key, event: HM.Event, policy: Option<HM.RolloutPolicy>, at: Stamp)
    requires Inv(cp)
    ensures Inv(HostEvent(cp, key, event, policy, at))
  {
    if Accepts(cp, key, event, policy) {
      var next, quarantined := AcceptedRecord(cp, key, event, policy, at);
      AcceptedKeeps(cp, key, next, quarantined, at);
    } else {
      assert HostEvent(cp, key, event, policy, at) == cp;
    }
  }

  lemma HostEventKeepsKeys(cp: Cp, key: Key, event: HM.Event, policy: Option<HM.RolloutPolicy>, at: Stamp)
    requires Inv(cp)
    ensures HostEvent(cp, key, event, policy, at).rows.Keys == cp.rows.Keys
    ensures HostEvent(cp, key, event, policy, at).records.Keys == cp.records.Keys
  {
    if Accepts(cp, key, event, policy) {
      var next, _ := AcceptedRecord(cp, key, event, policy, at);
      AggregatableRow(cp, key);
      AggregatedOnly(cp.rows, cp.records[key := next], key, cp.records[key].state, next.state, at);
    } else {
      assert HostEvent(cp, key, event, policy, at) == cp;
    }
  }

  /** The new record alone decides how its rollout's row must move. */
  lemma AgreeAfterMove(rows: RT.Rows, moved: RT.Rows, records: Records, key: Key, next: HM.HostRolloutState)
    requires RecordsOk(rows, records) && RowsAgree(rows, records) && key in records
    requires Moves(records[key].state, next.state)
    requires moved.Keys == rows.Keys && forall id :: id in rows && id != key.0 ==> moved[id] == rows[id]
    requires moved[key.0].state ==
             AfterEvent(rows[key.0].state, records[key].state, next.state, AllConverged(records[key := next], key.0))
    ensures RowsAgree(moved, records[key := next])
  {
    OneRecordMoved(rows, records, key, next);
    NotBrokenWhenConverged(records[key := next], key.0);
  }

  lemma NotBrokenWhenConverged(records: Records, id: string)
    ensures AllConverged(records, id) ==> !AnyBroken(records, id) && !AnyUnfinished(records, id)
  {}

  /** The rows of other rollouts still agree; the moved host's rollout agrees once told. */
  lemma OneRecordMoved(rows: RT.Rows, records: Records, key: Key, next: HM.HostRolloutState)
    requires RecordsOk(rows, records) && RowsAgree(rows, records) && key in records
    requires Moves(records[key].state, next.state)
    ensures var after := records[key := next];
            && (forall id :: id in rows && id != key.0 ==> Agrees(rows[id].state, after, id))
            && key.0 in rows
            && (rows[key.0].state.Active? || rows[key.0].state.Failed? || rows[key.0].state.Superseded?)
            && Joined(after, key.0)
            && (rows[key.0].state.Active? ==>
                  && (AnyBroken(after, key.0) <==> next.state.Failed?)
                  && (AnyUnfinished(after, key.0) <==> !(next.state.Converged? && AllConverged(after, key.0)))
                  && !next.state.Reverted?)
            && (rows[key.0].state.Failed? ==> AnyBroken(after, key.0))
  {
    var after := records[key := next];
    assert Agrees(rows[key.0].state, records, key.0);
    assert key in after;
    forall id | id in rows && id != key.0 ensures Agrees(rows[id].state, after, id) {
      SameElsewhere(records, key, next, id);
    }
    if rows[key.0].state.Failed? {
      var k :| k in records && k.0 == key.0 && Broken(records[k].state);
      assert k in after && Broken(after[k].state);
    }
  }

  lemma SameElsewhere(records: Records, key: Key, next: HM.HostRolloutState, id: string)
    requires id != key.0
    ensures var after := records[key := next];
            && (Joined(after, id) <==> Joined(records, id))
            && (AnyBroken(after, id) <==> AnyBroken(records, id))
            && (AnyUnfinished(after, id) <==> AnyUnfinished(records, id))
            && (AllConverged(after, id) <==> AllConverged(records, id))
  {
    var after := records[key := next];
    assert forall k: Key :: k.0 == id ==> (k in after <==> k in records);
    assert forall k :: k in records && k.0 == id ==> after[k] == records[k];
  }

  // ----- Opening keeps it

  lemma JoiningMoves(r: RM.RolloutRecord, host: string, wave: u32, at: Stamp)
    requires r.state.Opening? || r.state.Active?
    ensures RM.Advance(r, RM.HostJoined(r.rolloutId, host, wave, at)).state == RM.Active
  {}

  lemma JoinOneKeeps(cp: Cp, id: string, channel: string, at: Stamp, h: Joining)
    requires Inv(cp) && id in cp.rows && (cp.rows[id].state.Opening? || cp.rows[id].state.Active?)
    ensures Inv(JoinOne(cp, id, channel, at, h))
    ensures JoinOne(cp, id, channel, at, h).rows.Keys == cp.rows.Keys
    ensures JoinOne(cp, id, channel, at, h).rows[id].state.Active?
  {
    var after := JoinOne(cp, id, channel, at, h);
    var key := (id, h.host);
    ProcessedOnly(cp.rows, RM.HostJoined(id, h.host, h.wave, at));
    JoiningMoves(cp.rows[id], h.host, h.wave, at);
    JoinAgrees(cp.rows, after.rows, cp.records, key, after.records[key]);
  }

  lemma JoinAgrees(rows: RT.Rows, joined: RT.Rows, records: Records, key: Key, pending: HM.HostRolloutState)
    requires RowsAgree(rows, records) && key.0 in rows && pending.state.Pending?
    requires rows[key.0].state.Opening? || rows[key.0].state.Active?
    requires joined.Keys == rows.Keys && joined[key.0].state.Active?
    requires forall id :: id in rows && id != key.0 ==> joined[id] == rows[id]
    ensures RowsAgree(joined, records[key := pending])
  {
    assert Agrees(rows[key.0].state, records, key.0);
    PendingUnfinishes(records, key, pending);
    forall other | other in joined && other != key.0
      ensures Agrees(joined[other].state, records[key := pending], other)
    {
      SameElsewhere(records, key, pending, other);
      assert Agrees(rows[other].state, records, other);
    }
  }

  lemma PendingUnfinishes(records: Records, key: Key, pending: HM.HostRolloutState)
    requires pending.state.Pending? && !AnyBroken(records, key.0)
    ensures AnyUnfinished(records[key := pending], key.0) && !AnyBroken(records[key := pending], key.0)
  {
    var after := records[key := pending];
    assert key in after;
    assert forall k :: k in after && k.0 == key.0 && k != key ==> k in records && after[k] == records[k];
  }

  lemma {:induction false} JoinAllKeeps(cp: Cp, id: string, channel: string, at: Stamp, hosts: seq<Joining>)
    requires Inv(cp) && id in cp.rows && cp.rows[id].state.Opening?
    ensures var after := JoinAll(cp, id, channel, at, hosts);
            && Inv(after) && after.rows.Keys == cp.rows.Keys
            && after.rows[id].state == if hosts == [] then RM.Opening else RM.Active
    decreases |hosts|
  {
    if hosts != [] {
      var front := hosts[..|hosts| - 1];
      JoinAllKeeps(cp, id, channel, at, front);
      JoinOneKeeps(JoinAll(cp, id, channel, at, front), id, channel, at, hosts[|hosts| - 1]);
    }
  }

  ghost predicate DistinctHosts(hosts: seq<Joining>) {
    forall i, j :: 0 <= i < j < |hosts| ==> hosts[i].host != hosts[j].host
  }

  /** What joining writes: a fresh pending record for each host, and nothing else. */
  lemma {:induction false} JoinAllRecords(cp: Cp, id: string, channel: string, at: Stamp, hosts: seq<Joining>)
    requires DistinctHosts(hosts)
    ensures var after := JoinAll(cp, id, channel, at, hosts);
            && after.quarantined == cp.quarantined
            && (forall i :: 0 <= i < |hosts| ==>
                  && (id, hosts[i].host) in after.records
                  && after.records[(id, hosts[i].host)] ==
                     HM.NewPending(id, hosts[i].host, channel, hosts[i].targetClosure, T.InstantOf(at), hosts[i].soakDueAt))
            && (forall key :: key in cp.records && key.0 != id ==>
                  key in after.records && after.records[key] == cp.records[key])
            && (forall key :: key in after.records ==>
                  key in cp.records || exists i :: 0 <= i < |hosts| && key == (id, hosts[i].host))
    decreases |hosts|
  {
    if hosts != [] {
      var front, last := hosts[..|hosts| - 1], hosts[|hosts| - 1];
      JoinAllRecords(cp, id, channel, at, front);
      var before := JoinAll(cp, id, channel, at, front);
      var after := JoinOne(before, id, channel, at, last);
      forall i | 0 <= i < |hosts|
        ensures (id, hosts[i].host) in after.records
        ensures after.records[(id, hosts[i].host)] ==
                HM.NewPending(id, hosts[i].host, channel, hosts[i].targetClosure, T.InstantOf(at), hosts[i].soakDueAt)
      {
        if i < |front| { assert front[i] == hosts[i]; }
      }
      forall key | key in after.records && key !in cp.records
        ensures exists i :: 0 <= i < |hosts| && key == (id, hosts[i].host)
      {
        if key in before.records {
          var i :| 0 <= i < |front| && key == (id, front[i].host);
          assert key == (id, hosts[i].host);
        } else {
          assert key == (id, hosts[|front|].host);
        }
      }
    }
  }

  lemma InsertKeeps(cp: Cp, id: string, channel: string, targetRef: string, at: Stamp)
    requires Inv(cp) && id !in cp.rows
    ensures var rows := RT.OpenedOver(cp.rows, id, channel, targetRef, at);
            && Inv(cp.(rows := rows)) && rows.Keys == cp.rows.Keys + {id} && rows[id].state.Opening?
  {
    var rows := RT.OpenedOver(cp.rows, id, channel, targetRef, at);
    RT.OpenKeeps(cp.rows, id, channel, targetRef, at);
    forall k | k in rows ensures Agrees(rows[k].state, cp.records, k) {
      if k in cp.rows { assert Agrees(cp.rows[k].state, cp.records, k); }
    }
  }

  lemma OpenKeeps(cp: Cp, id: string, channel: string, targetRef: string, at: Stamp, hosts: seq<Joining>)
    requires Inv(cp) && id !in cp.rows
    ensures Inv(Opened(cp, id, channel, targetRef, at, hosts))
    ensures Opened(cp, id, channel, targetRef, at, hosts).rows.Keys == cp.rows.Keys + {id}
  {
    InsertKeeps(cp, id, channel, targetRef, at);
    JoinAllKeeps(cp.(rows := RT.OpenedOver(cp.rows, id, channel, targetRef, at)), id, channel, at, hosts);
  }

  // ----- Waves and pruning keep it

  lemma SameStatesAgree(rows: RT.Rows, after: RT.Rows, records: Records)
    requires RecordsOk(rows, records) && RowsAgree(rows, records) && after.Keys == rows.Keys
    requires forall id :: id in rows ==> after[id].state == rows[id].state
    ensures RecordsOk(after, records) && RowsAgree(after, records)
  {
    forall id | id in after ensures Agrees(after[id].state, records, id) {
      assert Agrees(rows[id].state, records, id);
    }
  }

  lemma WaveKeeps(cp: Cp, id: string, wave: u32)
    requires Inv(cp)
    ensures Inv(cp.(rows := RT.Waved(cp.rows, id, wave, None)))
  {
    RT.ApplyKeeps(cp.rows, RT.WaveOp(id, wave));
    SameStatesAgree(cp.rows, RT.Waved(cp.rows, id, wave, None), cp.records);
  }

  lemma PruneKeeps(cp: Cp, cutoff: Stamp)
    requires Inv(cp)
    ensures Inv(Apply(cp, PruneOp(cutoff)))
  {
    var rows, records := RT.PrunedRows(cp.rows, cutoff), RT.PrunedRecords(cp.records, cp.rows, cutoff);
    RT.ApplyKeeps(cp.rows, RT.PruneOp(cutoff));
    forall id | id in rows ensures Agrees(rows[id].state, records, id) {
      SameRecords(cp.records, records, id);
      assert Agrees(cp.rows[id].state, cp.records, id);
    }
  }

  lemma SameRecords(before: Records, after: Records, id: string)
    requires forall k: Key :: k.0 == id ==> (k in before <==> k in after)
    requires forall k :: k in before && k.0 == id ==> after[k] == before[k]
    ensures Joined(after, id) <==> Joined(before, id)
    ensures AnyBroken(after, id) <==> AnyBroken(before, id)
    ensures AnyUnfinished(after, id) <==> AnyUnfinished(before, id)
    ensures AllConverged(after, id) <==> AllConverged(before, id)
  {}

  lemma ApplyKeeps(cp: Cp, op: Op)
    requires Inv(cp) && Allowed(cp, op)
    ensures Inv(Apply(cp, op))
  {
    match op
    case OpenOp(id, channel, targetRef, at, hosts) => OpenKeeps(cp, id, channel, targetRef, at, hosts);
    case HostOp(key, event, policy, at) => HostEventKeeps(cp, key, event, policy, at);
    case WaveOp(id, wave) => WaveKeeps(cp, id, wave);
    case PruneOp(cutoff) => PruneKeeps(cp, cutoff);
  }

  lemma {:induction false} RunKeeps(cp: Cp, ops: seq<Op>)
    requires Inv(cp) && AllowedRun(cp, ops)
    ensures Inv(Run(cp, ops))
    decreases |ops|
  {
    if ops != [] {
      ApplyKeeps(cp, ops[0]);
      RunKeeps(Apply(cp, ops[0]), ops[1..]);
    }
  }

  // ----- Results over every run

  /**
   In every run the state of a rollout that has not been superseded is exactly the verdict of its host
   records: terminal when all have converged, failed when one is broken, active otherwise, and opening
   only before the first host has joined.
   */
  lemma StateIsTheAggregate(ops: seq<Op>, id: string)
    requires AllowedRun(EMPTY, ops) && id in Run(EMPTY, ops).rows
    requires !Run(EMPTY, ops).rows[id].state.Superseded?
    ensures var cp := Run(EMPTY, ops);
            && (cp.rows[id].state.Terminal? <==> Joined(cp.records, id) && AllConverged(cp.records, id))
            && (cp.rows[id].state.Failed? <==> AnyBroken(cp.records, id))
            && (cp.rows[id].state.Opening? <==> !Joined(cp.records, id))
            && (cp.rows[id].state.Active? <==> AnyUnfinished(cp.records, id) && !AnyBroken(cp.records, id))
  {
    RunKeeps(EMPTY, ops);
    var cp := Run(EMPTY, ops);
    assert Agrees(cp.rows[id].state, cp.records, id);
    NotBrokenWhenConverged(cp.records, id);
  }

  /**
   Of the eight rollout states the control plane only ever stores five: hosts revert after they have
   failed, so the rollout is `Failed` by then, and nothing sends the events that lead to the others.
   */
  lemma ThreeStatesNeverStored(ops: seq<Op>, id: string)
    requires AllowedRun(EMPTY, ops) && id in Run(EMPTY, ops).rows
    ensures var state := Run(EMPTY, ops).rows[id].state;
            !state.Reverted? && !state.Converging? && !state.Pruned?
  {
    RunKeeps(EMPTY, ops);
    assert Agrees(Run(EMPTY, ops).rows[id].state, Run(EMPTY, ops).records, id);
  }

  // ----- The reducer's own methods

  lemma QuarantinesAppend(front: seq<HM.Effect>, e: HM.Effect)
    ensures Quarantines(front + [e]) ==
            Quarantines(front) + if e.RemoteInsertQuarantine? then {(e.channel, e.closure)} else {}
  {
    var all := front + [e];
    assert all[|front|] == e;
    assert forall x :: x in all <==> x in front || x == e;
  }

  class Server {
    const table: RT.Rollouts
    var quarantined: set<Key>

    ghost function State(): Cp
      reads this, table
    {
      Cp(table.rows, table.hostRecords, quarantined)
    }

    constructor ()
      ensures State() == EMPTY && fresh(table)
    {
      table := new RT.Rollouts();
      quarantined := {};
    }

    method HandleHostEvent(key: Key, event: HM.Event, policy: Option<HM.RolloutPolicy>, at: Stamp)
      modifies this, table
      ensures State() == HostEvent(old(State()), key, event, policy, at)
    {
      if key !in table.hostRecords { return; }
      var prior := table.hostRecords[key];
      if event.seqNo <= prior.lastEventSeq || policy.None? { return; }
      var out := HM.Step(prior, event, policy.value);
      if out.Rejected? { return; }
      table.hostRecords := table.hostRecords[key := out.next.(lastEventSeq := event.seqNo)];
      for i := 0 to |out.effects|
        invariant quarantined == old(quarantined) + Quarantines(out.effects[..i])
        invariant table.rows == old(table.rows)
        invariant table.hostRecords == old(table.hostRecords)[key := out.next.(lastEventSeq := event.seqNo)]
      {
        var e := out.effects[i];
        QuarantinesAppend(out.effects[..i], e);
        assert out.effects[..i + 1] == out.effects[..i] + [e];
        if e.RemoteInsertQuarantine? { quarantined := quarantined + {(e.channel, e.closure)}; }
      }
      assert out.effects[..|out.effects|] == out.effects;
      if prior.state != out.next.state {
        table.ProcessRolloutEvent(RM.HostStateChanged(key.0, key.1, prior.state, out.next.state, at));
        if out.next.state.Converged? && AllConverged(table.hostRecords, key.0) {
          table.ProcessRolloutEvent(RM.RolloutTerminal(key.0, at));
        }
      }
    }

    method OpenRollout(id: string, channel: string, targetRef: string, at: Stamp, hosts: seq<Joining>)
      requires RT.Keyed(table.rows)
      modifies table
      ensures State() == Opened(old(State()), id, channel, targetRef, at, hosts)
    {
      table.OpenRollout(id, channel, targetRef, at);
      ghost var start := State();
      for i := 0 to |hosts|
        invariant State() == JoinAll(start, id, channel, at, hosts[..i])
      {
        var h := hosts[i];
        assert hosts[..i + 1][..i] == hosts[..i] && hosts[..i + 1][i] == h;
        table.hostRecords := table.hostRecords[
          (id, h.host) := HM.NewPending(id, h.host, channel, h.targetClosure, T.InstantOf(at), h.soakDueAt)];
        table.ProcessRolloutEvent(RM.HostJoined(id, h.host, h.wave, at));
      }
      assert hosts[..|hosts|] == hosts;
    }
  }
}
