/**
 Closing the loop: the tables become the planner's view of the fleet, the planner's actions change the
 tables and fill the dispatch queue, and the next tick sees the result.
 */
module ControlLoop {
  import opened Wrappers
  import opened Fleet
  import opened Gates
  import CP = ControlPlane
  import HM = HostMachine
  import Planner
  import RolloutIds
  import RM = RolloutMachine
  import RT = RolloutsTable
  import T = Timestamps

  type Outstanding = map<string, map<string, nat>>

  /** Channel names carry no `@`; the route validator locks them to a smaller alphabet still. */
  predicate WellNamed(m: SignedManifestSet) {
    forall channel | channel in m.rollouts :: '@' !in channel
  }

  // ----- From the tables to the planner's view

  predicate AdvertisedBy(m: SignedManifestSet, channels: set<string>, id: string) {
    var channel := RolloutIds.Channel(id);
    channel in channels && channel in m.rollouts && Planner.ManifestId(m, channel) == id
  }

  function SummaryOf(m: SignedManifestSet, channel: string, row: RM.RolloutRecord): RolloutSummary
    requires channel in m.rollouts
  {
    RolloutSummary(
      Planner.ManifestId(m, channel), channel, m.rollouts[channel].channelRef,
      if row.terminalAt.Some? then Some(T.InstantOf(row.terminalAt.value)) else None,
      row.currentWave, m.rollouts[channel].disruptionBudgets)
  }

  /** The part of the view that the given channels contribute. */
  function View(cp: CP.Cp, m: SignedManifestSet, channels: set<string>, outstanding: Outstanding): FleetState {
    FleetState(
      map key | key in cp.records && AdvertisedBy(m, channels, key.0) :: cp.records[key],
      map id | id in cp.rows && AdvertisedBy(m, channels, id) :: SummaryOf(m, RolloutIds.Channel(id), cp.rows[id]),
      outstanding)
  }

  function FleetStateOf(cp: CP.Cp, m: SignedManifestSet, outstanding: Outstanding): FleetState {
    View(cp, m, m.rollouts.Keys, outstanding)
  }

  /** An id is advertised by its own channel and by no other. */
  lemma AdvertisedOnce(m: SignedManifestSet, channel: string, channels: set<string>)
    requires WellNamed(m) && channel in m.rollouts
    ensures RolloutIds.Channel(Planner.ManifestId(m, channel)) == channel
    ensures forall id :: AdvertisedBy(m, channels + {channel}, id) <==>
                         AdvertisedBy(m, channels, id) || id == Planner.ManifestId(m, channel)
  {
    RolloutIds.RoundTrip(channel, m.rollouts[channel].channelRef);
  }

  /** `all_for_rollout`. */
  function RecordsOf(records: CP.Records, id: string): CP.Records {
    map key | key in records && key.0 == id :: records[key]
  }

  lemma ViewGrows(cp: CP.Cp, m: SignedManifestSet, channels: set<string>, outstanding: Outstanding, channel: string)
    requires WellNamed(m) && channel in m.rollouts
    ensures var id := Planner.ManifestId(m, channel);
            var before, after := View(cp, m, channels, outstanding), View(cp, m, channels + {channel}, outstanding);
            && after.hostStates == before.hostStates + RecordsOf(cp.records, id)
            && after.rollouts == (if id in cp.rows then before.rollouts[id := SummaryOf(m, channel, cp.rows[id])]
                                  else before.rollouts)
  {
    AdvertisedOnce(m, channel, channels);
  }

  /** The id its channel publishes now. */
  predicate Advertised(m: SignedManifestSet, id: string) {
    var channel := RolloutIds.Channel(id);
    channel in m.rollouts && id == channel + "@" + m.rollouts[channel].channelRef
  }

  /** What the planner is told of one rollout. */
  predicate ShowsRow(m: SignedManifestSet, id: string, row: RM.RolloutRecord, s: RolloutSummary)
    requires Advertised(m, id)
  {
    var published := m.rollouts[RolloutIds.Channel(id)];
    && s.rolloutId == id && s.channel == RolloutIds.Channel(id) && s.targetRef == published.channelRef
    && s.budgets == published.disruptionBudgets && s.currentWave == row.currentWave
    && (row.terminalAt.None? ==> s.terminalAt.None?)
    && (row.terminalAt.Some? ==> s.terminalAt == Some(T.InstantOf(row.terminalAt.value)))
  }

  /** The view shows the rows and host records of the advertised rollouts, all of them and no others. */
  ghost predicate ShowsTables(cp: CP.Cp, m: SignedManifestSet, fs: FleetState) {
    && (forall key :: key in fs.hostStates <==> key in cp.records && Advertised(m, key.0))
    && (forall key :: key in fs.hostStates ==> fs.hostStates[key] == cp.records[key])
    && (forall id :: id in fs.rollouts <==> id in cp.rows && Advertised(m, id))
    && forall id :: id in fs.rollouts ==> ShowsRow(m, id, cp.rows[id], fs.rollouts[id])
  }

  lemma ViewShowsTables(cp: CP.Cp, m: SignedManifestSet, outstanding: Outstanding)
    ensures ShowsTables(cp, m, FleetStateOf(cp, m, outstanding))
    ensures FleetStateOf(cp, m, outstanding).outstanding == outstanding
  {
  }

  method BuildFleetState(cp: CP.Cp, m: SignedManifestSet, outstanding: Outstanding) returns (fs: FleetState)
    requires WellNamed(m)
    ensures fs == FleetStateOf(cp, m, outstanding)
    ensures ShowsTables(cp, m, fs) && fs.outstanding == outstanding
  {
    ViewShowsTables(cp, m, outstanding);
    var hostStates: map<Key, HM.HostRolloutState> := map[];
    var rollouts: map<string, RolloutSummary> := map[];
    var left := m.rollouts.Keys;
    while left != {}
      invariant left <= m.rollouts.Keys
      invariant FleetState(hostStates, rollouts, outstanding) == View(cp, m, m.rollouts.Keys - left, outstanding)
      decreases left
    {
      var channel :| channel in left;
      ghost var done := m.rollouts.Keys - left;
      left := left - {channel};
      ViewGrows(cp, m, done, outstanding, channel);
      assert m.rollouts.Keys - left == done + {channel};
      var id := RolloutIds.New(channel, m.rollouts[channel].channelRef);
      hostStates := hostStates + RecordsOf(cp.records, id);
      if id in cp.rows { rollouts := rollouts[id := SummaryOf(m, channel, cp.rows[id])]; }
    }
    assert m.rollouts.Keys - left == m.rollouts.Keys;
    fs := FleetState(hostStates, rollouts, outstanding);
  }

  /** What `run_plan` hands to the planner: its own quarantine set is created empty and never filled. */
  function ContextOf(cp: CP.Cp, m: SignedManifestSet, outstanding: Outstanding, now: Instant): Context {
    Context(FleetStateOf(cp, m, outstanding), m, map[], now)
  }

  /** The planner sees the tables, the manifests and the clock, and no quarantine at all. */
  lemma ContextShows(cp: CP.Cp, m: SignedManifestSet, outstanding: Outstanding, now: Instant)
    ensures var c := ContextOf(cp, m, outstanding, now);
            && ShowsTables(cp, m, c.fleetState) && c.fleetState.outstanding == outstanding
            && c.manifests == m && c.now == now && c.quarantines == map[]
  {
    ViewShowsTables(cp, m, outstanding);
  }

  // ----- Opening settles

  lemma OpenSetIff(cp: CP.Cp, m: SignedManifestSet, outstanding: Outstanding, now: Instant, channel: string)
    requires WellNamed(m) && channel in m.rollouts
    ensures Planner.OpenRollout(Planner.ManifestId(m, channel), channel, m.rollouts[channel].channelRef)
            in Planner.OpenSet(ContextOf(cp, m, outstanding, now))
            <==> Planner.ManifestId(m, channel) !in cp.rows
  {
    AdvertisedOnce(m, channel, m.rollouts.Keys);
    assert m.rollouts.Keys + {channel} == m.rollouts.Keys;
    assert Planner.ManifestId(m, channel) in FleetStateOf(cp, m, outstanding).rollouts <==>
           Planner.ManifestId(m, channel) in cp.rows;
  }

  /** The operations carry out the planner's opens, one for one, with any hosts and times. */
  ghost predicate Realises(ops: seq<CP.Op>, actions: seq<Planner.PlanAction>) {
    && |ops| == |actions|
    && forall i :: 0 <= i < |ops| ==>
         actions[i].OpenRollout? && ops[i].OpenOp? && ops[i].id == actions[i].rolloutId
         && ops[i].channel == actions[i].channel && ops[i].targetRef == actions[i].targetRef
  }

  ghost predicate OpenIds(ops: seq<CP.Op>) {
    && (forall i :: 0 <= i < |ops| ==> ops[i].OpenOp?)
    && forall i, j :: 0 <= i < j < |ops| ==> ops[i].id != ops[j].id
  }

  function IdsOf(ops: seq<CP.Op>): (ids: set<string>)
    requires forall i :: 0 <= i < |ops| ==> ops[i].OpenOp?
    ensures forall i :: 0 <= i < |ops| ==> ops[i].id in ids
  {
    set i | 0 <= i < |ops| :: ops[i].id
  }

  lemma OpenIdsTail(ops: seq<CP.Op>)
    requires OpenIds(ops) && ops != []
    ensures OpenIds(ops[1..]) && ops[0].id !in IdsOf(ops[1..]) && IdsOf(ops) == IdsOf(ops[1..]) + {ops[0].id}
  {
    forall id | id in IdsOf(ops) && id != ops[0].id ensures id in IdsOf(ops[1..]) {
      var i :| 0 <= i < |ops| && ops[i].id == id;
      assert ops[1..][i - 1] == ops[i];
    }
  }

  lemma OpenIsAllowed(cp: CP.Cp, op: CP.Op)
    requires CP.Inv(cp) && op.OpenOp? && op.id !in cp.rows
    ensures CP.Allowed(cp, op) && CP.Inv(CP.Apply(cp, op)) && CP.Apply(cp, op).rows.Keys == cp.rows.Keys + {op.id}
  {
    CP.OpenKeeps(cp, op.id, op.channel, op.targetRef, op.at, op.hosts);
  }

  lemma {:induction false} OpensAreAllowed(cp: CP.Cp, ops: seq<CP.Op>)
    requires CP.Inv(cp) && OpenIds(ops) && IdsOf(ops) !! cp.rows.Keys
    ensures CP.AllowedRun(cp, ops) && CP.Inv(CP.Run(cp, ops))
    ensures CP.Run(cp, ops).rows.Keys == cp.rows.Keys + IdsOf(ops)
    decreases |ops|
  {
    if ops != [] {
      var op := ops[0];
      OpenIdsTail(ops);
      assert op.id in IdsOf(ops);
      OpenIsAllowed(cp, op);
      OpensAreAllowed(CP.Apply(cp, op), ops[1..]);
    }
  }

  lemma OpensDiffer(m: SignedManifestSet, a: Planner.PlanAction, b: Planner.PlanAction, c: Context)
    requires WellNamed(m) && c.manifests == m && a in Planner.OpenSet(c) && b in Planner.OpenSet(c) && a != b
    ensures a.rolloutId != b.rolloutId
  {
    AdvertisedOnce(m, a.channel, {});
    AdvertisedOnce(m, b.channel, {});
  }

  lemma Twice<T>(s: seq<T>, i: nat, j: nat)
    requires i < j < |s| && s[i] == s[j]
    ensures multiset(s)[s[i]] >= 2
  {
    assert s == s[..j] + s[j..];
    assert s[..j][i] in multiset(s[..j]) && s[j..][0] in multiset(s[j..]);
  }

  lemma DistinctActions(actions: seq<Planner.PlanAction>, all: set<Planner.PlanAction>)
    requires multiset(actions) == multiset(all)
    ensures forall i, j :: 0 <= i < j < |actions| ==> actions[i] != actions[j]
    ensures forall a :: a in actions <==> a in all
  {
    forall i, j | 0 <= i < j < |actions| ensures actions[i] != actions[j] {
      if actions[i] == actions[j] { Twice(actions, i, j); }
    }
    assert forall a :: a in actions <==> a in multiset(actions);
  }

  lemma OpensAreFresh(cp: CP.Cp, m: SignedManifestSet, outstanding: Outstanding, now: Instant,
                      actions: seq<Planner.PlanAction>, ops: seq<CP.Op>)
    requires WellNamed(m) && Realises(ops, actions)
    requires multiset(actions) == multiset(Planner.OpenSet(ContextOf(cp, m, outstanding, now)))
    ensures OpenIds(ops) && IdsOf(ops) !! cp.rows.Keys
  {
    var c := ContextOf(cp, m, outstanding, now);
    DistinctActions(actions, Planner.OpenSet(c));
    forall i | 0 <= i < |ops| ensures ops[i].id !in cp.rows && actions[i] in Planner.OpenSet(c) {
      assert actions[i] in actions;
      OpenSetIff(cp, m, outstanding, now, actions[i].channel);
    }
    forall i, j | 0 <= i < j < |ops| ensures ops[i].id != ops[j].id {
      OpensDiffer(m, actions[i], actions[j], c);
    }
  }

  lemma NothingToOpen(cp: CP.Cp, m: SignedManifestSet, outstanding: Outstanding, now: Instant)
    requires WellNamed(m) && forall channel :: channel in m.rollouts ==> Planner.ManifestId(m, channel) in cp.rows
    ensures Planner.OpenSet(ContextOf(cp, m, outstanding, now)) == {}
  {
    forall channel | channel in m.rollouts
      ensures Planner.ManifestId(m, channel) in FleetStateOf(cp, m, outstanding).rollouts
    {
      AdvertisedOnce(m, channel, {});
    }
  }

  /**
   One tick opens everything: whatever order the planner lists its opens in, each can be carried out,
   and the tick after them opens nothing.
   */
  lemma OpeningSettles(cp: CP.Cp, m: SignedManifestSet, outstanding: Outstanding, now: Instant, later: Instant,
                       actions: seq<Planner.PlanAction>, ops: seq<CP.Op>)
    requires CP.Inv(cp) && WellNamed(m) && Realises(ops, actions)
    requires multiset(actions) == multiset(Planner.OpenSet(ContextOf(cp, m, outstanding, now)))
    ensures CP.AllowedRun(cp, ops) && CP.Inv(CP.Run(cp, ops))
    ensures Planner.OpenSet(ContextOf(CP.Run(cp, ops), m, outstanding, later)) == {}
  {
    OpensAreFresh(cp, m, outstanding, now, actions, ops);
    OpensAreAllowed(cp, ops);
    DistinctActions(actions, Planner.OpenSet(ContextOf(cp, m, outstanding, now)));
    forall channel | channel in m.rollouts ensures Planner.ManifestId(m, channel) in CP.Run(cp, ops).rows {
      OpenSetIff(cp, m, outstanding, now, channel);
      var open := Planner.OpenRollout(Planner.ManifestId(m, channel), channel, m.rollouts[channel].channelRef);
      if open in actions {
        var i :| 0 <= i < |actions| && actions[i] == open;
        assert ops[i].id == Planner.ManifestId(m, channel);
      }
    }
    NothingToOpen(CP.Run(cp, ops), m, outstanding, later);
  }

  /**
   Retention reopens: pruning makes the planner open exactly the advertised rollouts it deleted, besides
   those it would have opened anyway; a rollout that finished long ago starts over if it is still current.
   */
  lemma PruningReopensIff(cp: CP.Cp, m: SignedManifestSet, outstanding: Outstanding, now: Instant, channel: string,
                          cutoff: CP.Stamp)
    requires WellNamed(m) && channel in m.rollouts
    ensures var id := Planner.ManifestId(m, channel);
            Planner.OpenRollout(id, channel, m.rollouts[channel].channelRef)
            in Planner.OpenSet(ContextOf(CP.Apply(cp, CP.PruneOp(cutoff)), m, outstanding, now))
            <==> id !in cp.rows || RT.Expired(cp.rows[id], cutoff)
  {
    OpenSetIff(CP.Apply(cp, CP.PruneOp(cutoff)), m, outstanding, now, channel);
  }
}
