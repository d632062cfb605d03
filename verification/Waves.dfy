/** Wave promotion: when a rollout's cursor moves, and what that guarantees for every later dispatch. */
module Waves {
  import opened Wrappers
  import opened Fleet
  import opened Gates
  import CL = ControlLoop
  import CP = ControlPlane
  import HM = HostMachine
  import HR = HostRuns
  import Planner
  import RM = RolloutMachine
  import RolloutIds
  import RT = RolloutsTable

  // ----- The bump

  predicate Eligible(s: HM.HostState) {
    s.Converged? || s.Deferred?
  }

  function WavesOf(fleet: FleetResolved, id: string): seq<Wave> {
    var channel := RolloutIds.Channel(id);
    if channel in fleet.waves then fleet.waves[channel] else []
  }

  /** Every host of the current wave is converged or deferred, and there is a next wave; empty waves never promote. */
  predicate MayBump(records: CP.Records, fleet: FleetResolved, id: string, current: nat) {
    var waves := WavesOf(fleet, id);
    && current + 1 < |waves| && waves[current].hosts != []
    && forall host :: host in waves[current].hosts ==> (id, host) in records && Eligible(records[(id, host)].state)
  }

  predicate Bumps(fs: FleetState, fleet: FleetResolved, id: string) {
    && id in fs.rollouts && fs.rollouts[id].terminalAt.None?
    && MayBump(fs.hostStates, fleet, id, fs.rollouts[id].currentWave)
  }

  function BumpedSummary(s: RolloutSummary): RolloutSummary {
    s.(currentWave := s.currentWave + 1)
  }

  predicate WavesFit(fleet: FleetResolved) {
    forall channel | channel in fleet.waves :: |fleet.waves[channel]| <= U32_MAX
  }

  /** The cursors of the given rollouts, one further than the view has them. */
  ghost function SomeBumped(cp: CP.Cp, fs: FleetState, ids: set<string>): CP.Cp {
    cp.(rows := map id | id in cp.rows ::
      if id in ids && id in fs.rollouts && cp.rows[id].currentWave < fs.rollouts[id].currentWave + 1 <= U32_MAX
      then cp.rows[id].(currentWave := fs.rollouts[id].currentWave + 1) else cp.rows[id])
  }

  ghost function SomeSummaries(fs: FleetState, ids: set<string>): map<string, RolloutSummary> {
    map id | id in fs.rollouts :: if id in ids then BumpedSummary(fs.rollouts[id]) else fs.rollouts[id]
  }

  function BumpSet(fs: FleetState, fleet: FleetResolved): set<string> {
    set id | id in fs.rollouts && Bumps(fs, fleet, id)
  }

  /** One more bump, as a table write. */
  lemma BumpStep(cp: CP.Cp, fs: FleetState, done: set<string>, id: string, wave: u32)
    requires id !in done && id in fs.rollouts && wave == fs.rollouts[id].currentWave + 1
    ensures CP.Apply(SomeBumped(cp, fs, done), CP.WaveOp(id, wave)) == SomeBumped(cp, fs, done + {id})
    ensures SomeSummaries(fs, done)[id := BumpedSummary(fs.rollouts[id])] == SomeSummaries(fs, done + {id})
  {}

  predicate CanBump(fs: FleetState, bumps: set<string>) {
    forall id | id in bumps :: id in fs.rollouts && fs.rollouts[id].currentWave + 1 <= U32_MAX
  }

  lemma BumpedSummaryOf(cp: CP.Cp, m: SignedManifestSet, fs: FleetState, bumps: set<string>, id: string)
    requires CanBump(fs, bumps) && id in cp.rows && id in fs.rollouts && RolloutIds.Channel(id) in m.rollouts
    requires fs.rollouts[id] == CL.SummaryOf(m, RolloutIds.Channel(id), cp.rows[id])
    ensures CL.SummaryOf(m, RolloutIds.Channel(id), SomeBumped(cp, fs, bumps).rows[id]) == SomeSummaries(fs, bumps)[id]
  {}

  lemma BumpedRollouts(cp: CP.Cp, m: SignedManifestSet, outstanding: CL.Outstanding, fs: FleetState, bumps: set<string>)
    requires fs == CL.FleetStateOf(cp, m, outstanding) && CanBump(fs, bumps)
    ensures CL.FleetStateOf(SomeBumped(cp, fs, bumps), m, outstanding).rollouts == SomeSummaries(fs, bumps)
  {
    var after := CL.FleetStateOf(SomeBumped(cp, fs, bumps), m, outstanding).rollouts;
    forall id | id in after ensures after[id] == SomeSummaries(fs, bumps)[id] {
      BumpedSummaryOf(cp, m, fs, bumps, id);
    }
  }

  lemma BumpedView(cp: CP.Cp, m: SignedManifestSet, outstanding: CL.Outstanding, fs: FleetState, bumps: set<string>)
    requires fs == CL.FleetStateOf(cp, m, outstanding) && CanBump(fs, bumps)
    ensures CL.FleetStateOf(SomeBumped(cp, fs, bumps), m, outstanding) == fs.(rollouts := SomeSummaries(fs, bumps))
  {
    BumpedRollouts(cp, m, outstanding, fs, bumps);
  }

  // ----- Which cursors move, on the tables' own fields

  /** Advertised and open, on a wave that has hosts and a successor, all of whose hosts are converged or deferred. */
  predicate Promotes(cp: CP.Cp, m: SignedManifestSet, id: string)
    requires id in cp.rows
  {
    var channel := RolloutIds.Channel(id);
    && channel in m.rollouts && channel + "@" + m.rollouts[channel].channelRef == id
    && cp.rows[id].terminalAt.None? && channel in m.fleet.waves
    && var waves, k := m.fleet.waves[channel], cp.rows[id].currentWave;
       && k + 1 < |waves| && waves[k].hosts != []
       && forall host :: host in waves[k].hosts ==>
            (id, host) in cp.records && (cp.records[(id, host)].state.Converged? || cp.records[(id, host)].state.Deferred?)
  }

  /** Those rows have their cursor one further, and nothing else is different. */
  ghost predicate PromotedExactly(cp: CP.Cp, m: SignedManifestSet, after: CP.Cp) {
    && after.records == cp.records && after.quarantined == cp.quarantined && after.rows.Keys == cp.rows.Keys
    && (forall id :: id in cp.rows && !Promotes(cp, m, id) ==> after.rows[id] == cp.rows[id])
    && forall id :: id in cp.rows && Promotes(cp, m, id) ==>
         cp.rows[id].currentWave + 1 <= U32_MAX && after.rows[id] == cp.rows[id].(currentWave := cp.rows[id].currentWave + 1)
  }

  lemma BumpsIff(cp: CP.Cp, m: SignedManifestSet, outstanding: CL.Outstanding, id: string)
    ensures var fs := CL.FleetStateOf(cp, m, outstanding);
            Bumps(fs, m.fleet, id) <==> id in cp.rows && Promotes(cp, m, id)
  {
    var fs := CL.FleetStateOf(cp, m, outstanding);
    var channel := RolloutIds.Channel(id);
    if id in fs.rollouts {
      forall host ensures (id, host) in fs.hostStates <==> (id, host) in cp.records {}
    }
  }

  lemma BumpedIsPromoted(cp: CP.Cp, m: SignedManifestSet, outstanding: CL.Outstanding)
    requires WavesFit(m.fleet)
    ensures var fs := CL.FleetStateOf(cp, m, outstanding);
            PromotedExactly(cp, m, SomeBumped(cp, fs, BumpSet(fs, m.fleet)))
  {
    var fs := CL.FleetStateOf(cp, m, outstanding);
    var after := SomeBumped(cp, fs, BumpSet(fs, m.fleet));
    forall id | id in cp.rows
      ensures if Promotes(cp, m, id)
              then cp.rows[id].currentWave + 1 <= U32_MAX
                   && after.rows[id] == cp.rows[id].(currentWave := cp.rows[id].currentWave + 1)
              else after.rows[id] == cp.rows[id]
    {
      BumpsIff(cp, m, outstanding, id);
    }
  }

  /** Write each bump to the table and to the view. */
  method WriteBumps(server: CP.Server, fs: FleetState, bumps: set<string>) returns (rollouts: map<string, RolloutSummary>)
    requires CanBump(fs, bumps)
    modifies server.table`rows
    ensures server.State() == SomeBumped(old(server.State()), fs, bumps)
    ensures rollouts == SomeSummaries(fs, bumps)
  {
    rollouts := fs.rollouts;
    var left := bumps;
    ghost var start := server.State();
    assert start == SomeBumped(start, fs, {}) && rollouts == SomeSummaries(fs, {});
    assert bumps - left == {};
    while left != {}
      invariant left <= bumps
      invariant server.State() == SomeBumped(start, fs, bumps - left)
      invariant rollouts == SomeSummaries(fs, bumps - left)
      decreases left
    {
      var id :| id in left;
      ghost var done := bumps - left;
      left := left - {id};
      assert bumps - left == done + {id};
      BumpStep(start, fs, done, id, rollouts[id].currentWave + 1);
      var _ := server.table.SetCurrentWave(id, rollouts[id].currentWave + 1, None);
      rollouts := rollouts[id := BumpedSummary(rollouts[id])];
    }
    assert bumps - left == bumps;
  }

  /** Decide all bumps on the view before writing any; the view handed on matches the new table. */
  method AdvanceCurrentWaves(server: CP.Server, m: SignedManifestSet, fs: FleetState, ghost outstanding: CL.Outstanding)
    returns (after: FleetState)
    requires WavesFit(m.fleet) && fs == CL.FleetStateOf(server.State(), m, outstanding)
    modifies server.table`rows
    ensures server.State() == SomeBumped(old(server.State()), fs, BumpSet(fs, m.fleet))
    ensures PromotedExactly(old(server.State()), m, server.State())
    ensures after == CL.FleetStateOf(server.State(), m, outstanding)
  {
    var bumps := BumpSet(fs, m.fleet);
    ghost var start := server.State();
    BumpedView(start, m, outstanding, fs, bumps);
    BumpedIsPromoted(start, m, outstanding);
    var rollouts := WriteBumps(server, fs, bumps);
    after := fs.(rollouts := rollouts);
  }

  // ----- Runs in which the cursor of one rollout only moves this way

  /** Other rollouts may do anything: their channels' waves may have been different when they moved. */
  ghost predicate WaveAllowed(cp: CP.Cp, fleet: FleetResolved, id: string, op: CP.Op) {
    && CP.Allowed(cp, op)
    && (op.WaveOp? && op.id == id ==>
          && id in cp.rows && cp.rows[id].terminalAt.None? && op.wave == cp.rows[id].currentWave + 1
          && MayBump(cp.records, fleet, id, cp.rows[id].currentWave))
  }

  ghost predicate WaveRun(cp: CP.Cp, fleet: FleetResolved, id: string, ops: seq<CP.Op>)
    decreases |ops|
  {
    ops != [] ==> WaveAllowed(cp, fleet, id, ops[0]) && WaveRun(CP.Apply(cp, ops[0]), fleet, id, ops[1..])
  }

  lemma RunOneMore(cp: CP.Cp, fleet: FleetResolved, id: string, op: CP.Op, rest: seq<CP.Op>)
    requires WaveAllowed(cp, fleet, id, op) && WaveRun(CP.Apply(cp, op), fleet, id, rest)
    ensures WaveRun(cp, fleet, id, [op] + rest) && CP.Run(cp, [op] + rest) == CP.Run(CP.Apply(cp, op), rest)
  {
    assert ([op] + rest)[1..] == rest;
  }

  lemma {:induction false} RunAppend(cp: CP.Cp, fleet: FleetResolved, id: string, a: seq<CP.Op>, b: seq<CP.Op>)
    requires WaveRun(cp, fleet, id, a) && WaveRun(CP.Run(cp, a), fleet, id, b)
    ensures WaveRun(cp, fleet, id, a + b) && CP.Run(cp, a + b) == CP.Run(CP.Run(cp, a), b)
    decreases |a|
  {
    if a == [] {
      assert a + b == b;
    } else {
      ConcatHead(a, b);
      RunAppend(CP.Apply(cp, a[0]), fleet, id, a[1..], b);
    }
  }

  /** Every bump the control plane decides is one of these moves. */
  lemma BumpIsAllowed(cp: CP.Cp, m: SignedManifestSet, outstanding: CL.Outstanding, id: string)
    requires WavesFit(m.fleet) && Bumps(CL.FleetStateOf(cp, m, outstanding), m.fleet, id)
    ensures id in cp.rows && cp.rows[id].currentWave + 1 <= U32_MAX
    ensures WaveAllowed(cp, m.fleet, id, CP.WaveOp(id, cp.rows[id].currentWave + 1))
  {}

  ghost predicate RunsFrom(cp: CP.Cp, fleet: FleetResolved, ops: seq<CP.Op>, end: CP.Cp) {
    CP.Run(cp, ops) == end && forall id :: WaveRun(cp, fleet, id, ops)
  }

  ghost predicate StepsTo(cp: CP.Cp, fleet: FleetResolved, op: CP.Op, next: CP.Cp) {
    next == CP.Apply(cp, op) && forall id :: WaveAllowed(cp, fleet, id, op)
  }

  lemma RunsOneMore(cp: CP.Cp, next: CP.Cp, fleet: FleetResolved, op: CP.Op, rest: seq<CP.Op>, end: CP.Cp)
    requires StepsTo(cp, fleet, op, next) && RunsFrom(next, fleet, rest, end)
    ensures RunsFrom(cp, fleet, [op] + rest, end)
  {
    assert ([op] + rest)[1..] == rest;
    forall id ensures WaveRun(cp, fleet, id, [op] + rest) {
      assert WaveAllowed(cp, fleet, id, op) && WaveRun(next, fleet, id, rest);
    }
  }

  /** A bump that has not been written yet is still allowed after any of the others. */
  lemma BatchStep(cp: CP.Cp, m: SignedManifestSet, outstanding: CL.Outstanding, fs: FleetState, done: set<string>,
                  id: string)
    returns (op: CP.Op)
    requires WavesFit(m.fleet) && fs == CL.FleetStateOf(cp, m, outstanding)
    requires id in BumpSet(fs, m.fleet) && id !in done
    ensures StepsTo(SomeBumped(cp, fs, done), m.fleet, op, SomeBumped(cp, fs, done + {id}))
  {
    BumpIsAllowed(cp, m, outstanding, id);
    op := CP.WaveOp(id, cp.rows[id].currentWave + 1);
    BumpStep(cp, fs, done, id, op.wave);
    assert SomeBumped(cp, fs, done).rows[id] == cp.rows[id];
  }

  lemma {:induction false} BatchFrom(cp: CP.Cp, m: SignedManifestSet, outstanding: CL.Outstanding, fs: FleetState,
                                     bumps: set<string>, left: set<string>)
    returns (ops: seq<CP.Op>)
    requires WavesFit(m.fleet) && fs == CL.FleetStateOf(cp, m, outstanding)
    requires left <= bumps && forall id :: id in bumps ==> id in BumpSet(fs, m.fleet)
    ensures RunsFrom(SomeBumped(cp, fs, bumps - left), m.fleet, ops, SomeBumped(cp, fs, bumps))
    decreases left
  {
    if left == {} {
      ops := [];
      assert bumps - left == bumps;
    } else {
      var id :| id in left;
      var op := BatchStep(cp, m, outstanding, fs, bumps - left, id);
      assert bumps - left + {id} == bumps - (left - {id});
      var rest := BatchFrom(cp, m, outstanding, fs, bumps, left - {id});
      RunsOneMore(SomeBumped(cp, fs, bumps - left), SomeBumped(cp, fs, bumps - (left - {id})), m.fleet, op, rest,
                  SomeBumped(cp, fs, bumps));
      ops := [op] + rest;
    }
  }

  /** What a tick writes is such a run for every rollout at once, although all bumps are decided beforehand. */
  lemma BatchIsRun(cp: CP.Cp, m: SignedManifestSet, outstanding: CL.Outstanding) returns (ops: seq<CP.Op>)
    requires WavesFit(m.fleet)
    ensures var fs := CL.FleetStateOf(cp, m, outstanding);
            RunsFrom(cp, m.fleet, ops, SomeBumped(cp, fs, BumpSet(fs, m.fleet)))
  {
    var fs := CL.FleetStateOf(cp, m, outstanding);
    var bumps := BumpSet(fs, m.fleet);
    assert bumps - bumps == {} && SomeBumped(cp, fs, {}) == cp;
    ops := BatchFrom(cp, m, outstanding, fs, bumps, bumps);
  }

  // ----- What one operation does to a cursor

  lemma ProcessedCursor(rows: RT.Rows, e: RM.RolloutEvent)
    requires RT.TableOk(rows) && !e.WaveAdvanced?
    ensures RT.Processed(rows, e).Keys == rows.Keys
    ensures forall id :: id in rows ==> RT.Processed(rows, e)[id].currentWave == rows[id].currentWave
  {
    RT.EffectsPersistState(rows, e);
    if RM.Target(e) in rows { RM.CursorMovesOnlyOnAdvance(rows[RM.Target(e)], e); }
  }

  lemma AggregatedCursor(rows: RT.Rows, records: CP.Records, key: Key, from: HM.HostState, to: HM.HostState, at: CP.Stamp)
    requires RT.TableOk(rows)
    ensures var after := CP.Aggregated(rows, records, key, from, to, at);
            after.Keys == rows.Keys && forall id :: id in rows ==> after[id].currentWave == rows[id].currentWave
  {
    var change := RM.HostStateChanged(key.0, key.1, from, to, at);
    RT.EventKeeps(rows, change);
    ProcessedCursor(rows, change);
    ProcessedCursor(RT.Processed(rows, change), RM.RolloutTerminal(key.0, at));
  }

  lemma HostEventCursor(cp: CP.Cp, key: Key, event: HM.Event, policy: Option<HM.RolloutPolicy>, at: CP.Stamp)
    requires CP.Inv(cp)
    ensures var after := CP.HostEvent(cp, key, event, policy, at).rows;
            after.Keys == cp.rows.Keys && forall id :: id in cp.rows ==> after[id].currentWave == cp.rows[id].currentWave
  {
    if CP.Accepts(cp, key, event, policy) {
      var next, _ := CP.AcceptedRecord(cp, key, event, policy, at);
      AggregatedCursor(cp.rows, cp.records[key := next], key, cp.records[key].state, next.state, at);
    } else {
      assert CP.HostEvent(cp, key, event, policy, at) == cp;
    }
  }

  lemma {:induction false} JoinAllCursor(cp: CP.Cp, id: string, channel: string, at: CP.Stamp, hosts: seq<CP.Joining>)
    requires CP.Inv(cp) && id in cp.rows && cp.rows[id].state.Opening?
    ensures var after := CP.JoinAll(cp, id, channel, at, hosts);
            && after.rows.Keys == cp.rows.Keys
            && (forall k :: k in cp.rows ==> after.rows[k].currentWave == cp.rows[k].currentWave)
            && (forall key: Key :: key.0 != id && key in cp.records ==>
                  key in after.records && after.records[key] == cp.records[key])
            && (forall key: Key :: key.0 != id && key in after.records ==> key in cp.records)
    decreases |hosts|
  {
    if hosts != [] {
      var front, h := hosts[..|hosts| - 1], hosts[|hosts| - 1];
      JoinAllCursor(cp, id, channel, at, front);
      CP.JoinAllKeeps(cp, id, channel, at, front);
      ProcessedCursor(CP.JoinAll(cp, id, channel, at, front).rows, RM.HostJoined(id, h.host, h.wave, at));
    }
  }

  /** Opening gives the new rollout cursor 0 and leaves the cursors and records of the others alone. */
  lemma OpenCursor(cp: CP.Cp, id: string, channel: string, targetRef: string, at: CP.Stamp, hosts: seq<CP.Joining>)
    requires CP.Inv(cp) && id !in cp.rows
    ensures var after := CP.Opened(cp, id, channel, targetRef, at, hosts);
            && after.rows.Keys == cp.rows.Keys + {id} && after.rows[id].currentWave == 0
            && (forall k :: k in cp.rows ==> after.rows[k].currentWave == cp.rows[k].currentWave)
            && (forall key: Key :: key.0 != id && key in cp.records ==>
                  key in after.records && after.records[key] == cp.records[key])
            && (forall key: Key :: key.0 != id && key in after.records ==> key in cp.records)
  {
    CP.InsertKeeps(cp, id, channel, targetRef, at);
    JoinAllCursor(cp.(rows := RT.OpenedOver(cp.rows, id, channel, targetRef, at)), id, channel, at, hosts);
  }

  predicate RaisesCursor(op: CP.Op, id: string, cursor: nat) {
    op.WaveOp? && op.id == id && cursor < op.wave
  }

  /** A cursor comes into being at 0 and is moved by wave bumps alone. */
  lemma CursorStep(cp: CP.Cp, op: CP.Op, id: string)
    requires CP.Inv(cp) && CP.Allowed(cp, op) && id in CP.Apply(cp, op).rows
    ensures CP.Apply(cp, op).rows[id].currentWave
            == if id !in cp.rows then 0
               else if RaisesCursor(op, id, cp.rows[id].currentWave) then op.wave else cp.rows[id].currentWave
  {
    match op
    case OpenOp(newId, channel, targetRef, at, hosts) => OpenCursor(cp, newId, channel, targetRef, at, hosts);
    case HostOp(key, event, policy, at) => HostEventCursor(cp, key, event, policy, at);
    case WaveOp(_, _) =>
    case PruneOp(_) =>
  }

  // ----- What the cursor has passed

  /** The host has its activation behind it. */
  predicate Past(s: HM.HostState) {
    !s.Pending? && !s.Activating?
  }

  ghost predicate WavePast(records: CP.Records, id: string, hosts: seq<string>) {
    hosts != [] && forall host :: host in hosts ==> (id, host) in records && Past(records[(id, host)].state)
  }

  ghost predicate PassedWaves(records: CP.Records, fleet: FleetResolved, id: string, cursor: nat) {
    var waves := WavesOf(fleet, id);
    cursor > 0 ==> cursor < |waves| && forall j :: 0 <= j < cursor ==> WavePast(records, id, waves[j].hosts)
  }

  ghost predicate Ordered(cp: CP.Cp, fleet: FleetResolved, id: string) {
    id in cp.rows ==> PassedWaves(cp.records, fleet, id, cp.rows[id].currentWave)
  }

  /** Records of a rollout only move on. */
  ghost predicate MovedOn(before: CP.Records, after: CP.Records, id: string) {
    forall key: Key :: key.0 == id && key in before ==>
      key in after && (Past(before[key].state) ==> Past(after[key].state))
  }

  lemma PassedStays(before: CP.Records, after: CP.Records, fleet: FleetResolved, id: string, cursor: nat)
    requires PassedWaves(before, fleet, id, cursor) && MovedOn(before, after, id)
    ensures PassedWaves(after, fleet, id, cursor)
  {
    forall j | 0 <= j < cursor ensures WavePast(after, id, WavesOf(fleet, id)[j].hosts) {
      assert WavePast(before, id, WavesOf(fleet, id)[j].hosts);
    }
  }

  lemma PastStays(s: HM.HostRolloutState, e: HM.Event, policy: HM.RolloutPolicy)
    requires Past(s.state) && HM.Step(s, e, policy).Stepped?
    ensures Past(HM.Step(s, e, policy).next.state)
  {
    HR.StepTransitions(s, HR.Input(e, policy));
  }

  lemma AcceptedMovesOn(cp: CP.Cp, key: Key, event: HM.Event, policy: Option<HM.RolloutPolicy>, at: CP.Stamp)
    requires CP.Accepts(cp, key, event, policy)
    ensures forall id :: MovedOn(cp.records, CP.HostEvent(cp, key, event, policy, at).records, id)
  {
    if Past(cp.records[key].state) { PastStays(cp.records[key], event, policy.value); }
  }

  /** The records of a surviving rollout move on under every operation. */
  lemma StepMovesOn(cp: CP.Cp, op: CP.Op, id: string)
    requires CP.Inv(cp) && CP.Allowed(cp, op) && id in cp.rows && id in CP.Apply(cp, op).rows
    ensures MovedOn(cp.records, CP.Apply(cp, op).records, id)
  {
    match op
    case OpenOp(newId, channel, targetRef, at, hosts) => OpenCursor(cp, newId, channel, targetRef, at, hosts);
    case HostOp(key, event, policy, at) =>
      if CP.Accepts(cp, key, event, policy) { AcceptedMovesOn(cp, key, event, policy, at); }
      else { assert CP.HostEvent(cp, key, event, policy, at) == cp; }
    case WaveOp(_, _) =>
    case PruneOp(_) =>
  }

  lemma BumpPasses(cp: CP.Cp, fleet: FleetResolved, id: string, op: CP.Op)
    requires id in cp.rows && PassedWaves(cp.records, fleet, id, cp.rows[id].currentWave)
    requires op.WaveOp? && op.id == id && WaveAllowed(cp, fleet, id, op)
    ensures PassedWaves(cp.records, fleet, id, op.wave)
  {
    assert WavePast(cp.records, id, WavesOf(fleet, id)[cp.rows[id].currentWave].hosts);
  }

  lemma StepOrdered(cp: CP.Cp, fleet: FleetResolved, id: string, op: CP.Op)
    requires CP.Inv(cp) && Ordered(cp, fleet, id) && WaveAllowed(cp, fleet, id, op)
    ensures Ordered(CP.Apply(cp, op), fleet, id)
  {
    var after := CP.Apply(cp, op);
    if id in after.rows {
      CursorStep(cp, op, id);
      if id in cp.rows {
        StepMovesOn(cp, op, id);
        if op.WaveOp? && op.id == id { BumpPasses(cp, fleet, id, op); }
        PassedStays(cp.records, after.records, fleet, id, after.rows[id].currentWave);
      }
    }
  }

  /**
   Along every run in which this rollout's cursor moves only as the control plane moves it, all waves before
   the cursor have hosts, and each of those hosts has a record with its activation behind it.
   */
  lemma {:induction false} RunOrdered(cp: CP.Cp, fleet: FleetResolved, id: string, ops: seq<CP.Op>)
    requires CP.Inv(cp) && Ordered(cp, fleet, id) && WaveRun(cp, fleet, id, ops)
    ensures CP.Inv(CP.Run(cp, ops)) && Ordered(CP.Run(cp, ops), fleet, id)
    decreases |ops|
  {
    if ops != [] {
      CP.ApplyKeeps(cp, ops[0]);
      StepOrdered(cp, fleet, id, ops[0]);
      RunOrdered(CP.Apply(cp, ops[0]), fleet, id, ops[1..]);
    }
  }

  /**
   Waves are strictly ordered over every run: when a tick queues a host of some wave, every host of every
   earlier wave of the channel has a record in that rollout with its activation behind it.
   */
  lemma WavesDispatchInOrder(
    ops: seq<CP.Op>, m: SignedManifestSet, outstanding: CL.Outstanding, now: Instant, order: seq<Key>,
    a: Planner.PlanAction, j: nat, host: string)
    requires a.QueueDispatch? && WaveRun(CP.EMPTY, m.fleet, a.rollout, ops) && CL.WellNamed(m)
    requires var c := CL.ContextOf(CP.Run(CP.EMPTY, ops), m, outstanding, now);
             a in Planner.Walk(c, order).actions
    requires a.host in m.fleet.hosts && m.fleet.hosts[a.host].channel == RolloutIds.Channel(a.rollout)
    requires var waves := WavesOf(m.fleet, a.rollout);
             && WavePosition(waves, a.host).Some? && j < WavePosition(waves, a.host).value
             && host in waves[j].hosts
    ensures var records := CP.Run(CP.EMPTY, ops).records;
            (a.rollout, host) in records && Past(records[(a.rollout, host)].state)
  {
    var cp := CP.Run(CP.EMPTY, ops);
    var c := CL.ContextOf(cp, m, outstanding, now);
    RunOrdered(CP.EMPTY, m.fleet, a.rollout, ops);
    Planner.QueuedIsSafe(c, order, a);
    assert c.fleetState.rollouts[a.rollout].currentWave == cp.rows[a.rollout].currentWave;
    assert PassedWaves(cp.records, m.fleet, a.rollout, cp.rows[a.rollout].currentWave);
    assert WavePast(cp.records, a.rollout, WavesOf(m.fleet, a.rollout)[j].hosts);
  }

  // ----- Cursors that cannot move

  /** The rollout's row is there at every step. */
  ghost predicate Survives(cp: CP.Cp, ops: seq<CP.Op>, id: string)
    decreases |ops|
  {
    id in cp.rows && (ops != [] ==> Survives(CP.Apply(cp, ops[0]), ops[1..], id))
  }

  /** The wave names a host that the rollout has no record of. */
  ghost predicate NamesStranger(records: CP.Records, id: string, hosts: seq<string>) {
    exists host :: host in hosts && (id, host) !in records
  }

  /** The last wave, a wave without hosts, or one naming a host without a record. */
  ghost predicate Stuck(cp: CP.Cp, fleet: FleetResolved, id: string)
    requires id in cp.rows
  {
    var waves, cursor := WavesOf(fleet, id), cp.rows[id].currentWave;
    cursor + 1 >= |waves| || waves[cursor].hosts == [] || NamesStranger(cp.records, id, waves[cursor].hosts)
  }

  /** Hosts join a rollout when it is opened and at no other time. */
  lemma NoneJoinLater(cp: CP.Cp, op: CP.Op, id: string)
    requires CP.Inv(cp) && CP.Allowed(cp, op) && id in cp.rows
    ensures forall key: Key :: key.0 == id && key in CP.Apply(cp, op).records ==> key in cp.records
  {
    match op
    case OpenOp(newId, channel, targetRef, at, hosts) => OpenCursor(cp, newId, channel, targetRef, at, hosts);
    case HostOp(key, event, policy, at) => CP.HostEventKeepsKeys(cp, key, event, policy, at);
    case WaveOp(_, _) =>
    case PruneOp(_) =>
  }

  lemma StuckStep(cp: CP.Cp, fleet: FleetResolved, id: string, op: CP.Op)
    requires CP.Inv(cp) && WaveAllowed(cp, fleet, id, op) && id in cp.rows && id in CP.Apply(cp, op).rows
    requires Stuck(cp, fleet, id)
    ensures CP.Apply(cp, op).rows[id].currentWave == cp.rows[id].currentWave && Stuck(CP.Apply(cp, op), fleet, id)
  {
    CursorStep(cp, op, id);
    NoneJoinLater(cp, op, id);
  }

  /** A stuck cursor stays where it is as long as the row does. */
  lemma {:induction false} StuckCursorStays(cp: CP.Cp, fleet: FleetResolved, id: string, ops: seq<CP.Op>)
    requires CP.Inv(cp) && WaveRun(cp, fleet, id, ops) && Survives(cp, ops, id)
    requires Stuck(cp, fleet, id)
    ensures id in CP.Run(cp, ops).rows && CP.Run(cp, ops).rows[id].currentWave == cp.rows[id].currentWave
    decreases |ops|
  {
    if ops != [] {
      CP.ApplyKeeps(cp, ops[0]);
      StuckStep(cp, fleet, id, ops[0]);
      StuckCursorStays(CP.Apply(cp, ops[0]), fleet, id, ops[1..]);
    }
  }
}
