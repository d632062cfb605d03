/**
 Two promises of the planner that hold less widely than they are documented: the quarantine gate protects
 only what the planner is handed, and a disruption budget caps one tick at a time. The inputs here are real:
 tables reached by a run, and manifests that are the projections of their fleet.
 */
module PlannerLimits {
  import opened Wrappers
  import opened Fleet
  import opened Gates
  import CL = ControlLoop
  import CP = ControlPlane
  import HM = HostMachine
  import Manifest
  import Planner
  import Recovery
  import RolloutIds
  import RM = RolloutMachine
  import RT = RolloutsTable
  import T = Timestamps
  import Text
  import Ticks

  /** Every advertised manifest is the projection of the fleet it is published with. */
  ghost predicate Projected(m: SignedManifestSet) {
    && CL.WellNamed(m)
    && forall channel :: channel in m.rollouts ==> IsProjected(m, channel)
  }

  ghost predicate IsProjected(m: SignedManifestSet, channel: string)
    requires channel in m.rollouts
  {
    m.fleet.meta.signedAt.Some? &&
    exists hash, algorithm ::
      Manifest.IsProjection(m.fleet, channel, hash, m.fleet.meta.signedAt.value, m.fleet.meta.ciCommit, algorithm,
                            m.rollouts[channel])
  }

  // ----- A small fleet

  const POLICY := RolloutPolicy("", HM.Halt)

  /** One channel whose hosts all have the same closure; no waves, no edges. */
  function SmallFleet(channel: string, channelRef: string, closure: string, names: seq<string>,
                      budgets: seq<DisruptionBudget>): FleetResolved
  {
    FleetResolved(
      1, map name | name in names :: Host([], channel, Some(closure)), map[channel := Channel("standard")],
      map["standard" := POLICY], map[], [], [], budgets, Meta(1, Some(0), Some(channelRef), None))
  }

  function Published(channel: string, channelRef: string, closure: string, names: seq<string>,
                     budgets: seq<DisruptionBudget>, frozen: seq<RolloutBudget>): SignedManifestSet
  {
    var fleet := SmallFleet(channel, channelRef, closure, names, budgets);
    SignedManifestSet(
      fleet,
      map[channel := RolloutManifest(
            1, channel + "@" + Manifest.ShortCommit(Some(channelRef)), channel, channelRef, "",
            Manifest.Entries(fleet, channel, names), POLICY.healthGate, frozen,
            Meta(1, Some(0), Some(channelRef), Some("ed25519")))])
  }

  lemma SmallHostSet(channel: string, channelRef: string, closure: string, names: seq<string>,
                     budgets: seq<DisruptionBudget>)
    requires Manifest.Ascending(names)
    ensures var fleet := SmallFleet(channel, channelRef, closure, names, budgets);
            Manifest.IsHostSet(fleet, channel, Manifest.Entries(fleet, channel, names))
  {
  }

  lemma PublishedIsProjected(channel: string, channelRef: string, closure: string, names: seq<string>,
                             budgets: seq<DisruptionBudget>, frozen: seq<RolloutBudget>)
    requires '@' !in channel && names != [] && Manifest.Ascending(names)
    requires Manifest.AllFrozen(SmallFleet(channel, channelRef, closure, names, budgets), frozen, |budgets|)
    ensures Projected(Published(channel, channelRef, closure, names, budgets, frozen))
  {
    var m := Published(channel, channelRef, closure, names, budgets, frozen);
    SmallHostSet(channel, channelRef, closure, names, budgets);
    assert Manifest.IsProjection(m.fleet, channel, "", 0, Some(channelRef), "ed25519", m.rollouts[channel]);
  }

  /** Without waves and edges only quarantine and budgets can block. */
  lemma BareGate(c: Context, key: Key)
    requires c.manifests.fleet.waves == map[] && c.manifests.fleet.edges == [] && c.manifests.fleet.channelEdges == []
    requires Planner.Eligible(c, key)
    ensures Planner.Cleared(c, key) <==>
            CheckQuarantine(c, c.fleetState.rollouts[key.0].channel, c.fleetState.hostStates[key].targetClosure).None?
  {}

  /** The tables right after a rollout of the small fleet was opened. */
  ghost predicate FreshTables(cp: CP.Cp, id: string, channel: string, closure: string, names: seq<string>,
                              at: Instant, soak: Instant)
  {
    && CP.Inv(cp) && id in cp.rows && cp.rows[id].terminalAt.None?
    && (forall key :: key in cp.records && key.0 == id ==> key.1 in names)
    && forall name :: name in names ==>
         (id, name) in cp.records && cp.records[(id, name)] == HM.NewPending(id, name, channel, closure, at, soak)
  }

  lemma OpenedRow(cp: CP.Cp, id: string, channel: string, channelRef: string, at: CP.Stamp, hosts: seq<CP.Joining>)
    requires CP.Inv(cp) && id !in cp.rows
    ensures var next := CP.Opened(cp, id, channel, channelRef, at, hosts);
            CP.Inv(next) && id in next.rows && next.rows[id].terminalAt.None?
  {
    CP.InsertKeeps(cp, id, channel, channelRef, at);
    CP.JoinAllKeeps(cp.(rows := RT.OpenedOver(cp.rows, id, channel, channelRef, at)), id, channel, at, hosts);
    var next := CP.Opened(cp, id, channel, channelRef, at, hosts);
    assert RM.Stamped(next.rows[id]);
  }

  lemma JoinedHosts(cp: CP.Cp, id: string, channel: string, closure: string, names: seq<string>, at: CP.Stamp, soak: Instant)
    requires Manifest.Ascending(names) && forall key :: key in cp.records ==> key.0 != id
    ensures var next := CP.JoinAll(cp, id, channel, at, CP.Joinings(names, closure, soak));
            && next.quarantined == cp.quarantined
            && (forall key :: key in next.records && key.0 == id ==> key.1 in names)
            && forall name :: name in names ==>
                 (id, name) in next.records
                 && next.records[(id, name)] == HM.NewPending(id, name, channel, closure, T.InstantOf(at), soak)
  {
    var hosts := CP.Joinings(names, closure, soak);
    DistinctHosts(names, closure, soak);
    CP.JoinAllRecords(cp, id, channel, at, hosts);
    var next := CP.JoinAll(cp, id, channel, at, hosts);
    forall name | name in names
      ensures (id, name) in next.records
      ensures next.records[(id, name)] == HM.NewPending(id, name, channel, closure, T.InstantOf(at), soak)
    {
      var i :| 0 <= i < |names| && names[i] == name;
      assert hosts[i].host == name;
    }
  }

  lemma OpenedIsFresh(cp: CP.Cp, id: string, channel: string, channelRef: string, closure: string, names: seq<string>,
                      at: CP.Stamp, soak: Instant)
    requires CP.Inv(cp) && id !in cp.rows && Manifest.Ascending(names)
    ensures var next := CP.Opened(cp, id, channel, channelRef, at, CP.Joinings(names, closure, soak));
            FreshTables(next, id, channel, closure, names, T.InstantOf(at), soak) && next.quarantined == cp.quarantined
  {
    OpenedRow(cp, id, channel, channelRef, at, CP.Joinings(names, closure, soak));
    JoinedHosts(cp.(rows := RT.OpenedOver(cp.rows, id, channel, channelRef, at)), id, channel, closure, names, at, soak);
  }

  /** The planner's view of them. */
  ghost predicate FreshView(c: Context, id: string, channel: string, closure: string, names: seq<string>,
                            frozen: seq<RolloutBudget>)
  {
    && c.manifests.fleet.waves == map[] && c.manifests.fleet.edges == [] && c.manifests.fleet.channelEdges == []
    && c.fleetState.rollouts.Keys == {id} && c.fleetState.rollouts[id].channel == channel
    && c.fleetState.rollouts[id].terminalAt.None? && c.fleetState.rollouts[id].budgets == frozen
    && (forall key :: key in c.fleetState.hostStates <==> key.0 == id && key.1 in names)
    && forall key :: key in c.fleetState.hostStates ==> IsFresh(c.fleetState.hostStates[key], closure)
  }

  predicate IsFresh(s: HM.HostRolloutState, closure: string) {
    s.state.Pending? && s.dispatchAckedAt.None? && s.targetClosure == closure
  }

  lemma OnlyAdvertised(m: SignedManifestSet, channel: string)
    requires CL.WellNamed(m) && m.rollouts.Keys == {channel}
    ensures forall id :: CL.AdvertisedBy(m, m.rollouts.Keys, id) <==> id == Planner.ManifestId(m, channel)
    ensures RolloutIds.Channel(Planner.ManifestId(m, channel)) == channel
  {
    CL.AdvertisedOnce(m, channel, {});
    assert m.rollouts.Keys == {} + {channel};
  }

  lemma FreshIsViewed(cp: CP.Cp, m: SignedManifestSet, channel: string, closure: string, names: seq<string>,
                      frozen: seq<RolloutBudget>, at: Instant, soak: Instant,
                      quarantines: map<string, set<string>>, now: Instant)
    requires CL.WellNamed(m) && m.rollouts.Keys == {channel} && m.rollouts[channel].disruptionBudgets == frozen
    requires m.fleet.waves == map[] && m.fleet.edges == [] && m.fleet.channelEdges == []
    requires FreshTables(cp, Planner.ManifestId(m, channel), channel, closure, names, at, soak)
    ensures FreshView(Context(CL.FleetStateOf(cp, m, map[]), m, quarantines, now), Planner.ManifestId(m, channel),
                      channel, closure, names, frozen)
  {
    OnlyAdvertised(m, channel);
    var fs := CL.FleetStateOf(cp, m, map[]);
    assert fs.rollouts.Keys == {Planner.ManifestId(m, channel)};
  }

  lemma DistinctHosts(names: seq<string>, closure: string, soak: Instant)
    requires Manifest.Ascending(names)
    ensures CP.DistinctHosts(CP.Joinings(names, closure, soak))
  {
    forall i, j | 0 <= i < j < |names| ensures names[i] != names[j] {
      assert Text.Less(names[i], names[j]);
      Text.LessIrreflexive(names[i]);
    }
  }

  // ----- Quarantine

  /** In some reached state, with real manifests and this quarantine set, a tick queues the closure on the channel. */
  ghost predicate Queues(quarantines: map<string, set<string>>, channel: string, closure: string,
                         ops: seq<CP.Op>, m: SignedManifestSet, outstanding: CL.Outstanding, now: Instant, order: seq<Key>)
  {
    && CP.AllowedRun(CP.EMPTY, ops) && Projected(m)
    && var c := Context(CL.FleetStateOf(CP.Run(CP.EMPTY, ops), m, outstanding), m, quarantines, now);
       && Planner.LoopOrder(c, order)
       && exists a :: a in Planner.Walk(c, order).actions && a.QueueDispatch? && a.targetClosure == closure
                      && a.rollout in c.fleetState.rollouts && c.fleetState.rollouts[a.rollout].channel == channel
  }

  ghost predicate NeverQueued(quarantines: map<string, set<string>>, channel: string, closure: string) {
    forall ops, m, outstanding, now, order :: !Queues(quarantines, channel, closure, ops, m, outstanding, now, order)
  }

  /** A tick over the freshly opened rollout queues a host whose closure the planner's set does not hold. */
  lemma FreshHostIsQueued(c: Context, id: string, host: string, channel: string, closure: string, names: seq<string>,
                          frozen: seq<RolloutBudget>)
    returns (order: seq<Key>)
    requires FreshView(c, id, channel, closure, names, frozen) && host in names
    requires Ticks.HasRoom(c, (id, host)) && CheckQuarantine(c, channel, closure).None?
    ensures Planner.LoopOrder(c, order) && (id, host) in Ticks.QueuedKeys(Planner.Walk(c, order).actions)
    ensures exists a :: a in Planner.Walk(c, order).actions && a.QueueDispatch? && a.rollout == id && a.host == host
                        && a.targetClosure == closure
  {
    var key := (id, host);
    BareGate(c, key);
    order := Ticks.OrderStartingWith(c, key);
    Ticks.FirstIsServed(c, order);
    var a :| a in Planner.Walk(c, order).actions && a.QueueDispatch? && Planner.KeyOf(a) == key;
    Planner.QueuedIsCleared(c, order);
  }

  /** The gate protects a closure, over every reached state, exactly when the set handed to the planner holds it. */
  lemma ProtectedIff(quarantines: map<string, set<string>>, channel: string, closure: string)
    requires '@' !in channel
    ensures NeverQueued(quarantines, channel, closure) <==> channel in quarantines && closure in quarantines[channel]
  {
    if channel in quarantines && closure in quarantines[channel] {
      forall ops, m, outstanding, now, order ensures !Queues(quarantines, channel, closure, ops, m, outstanding, now, order) {
        HeldIsNotQueued(quarantines, channel, closure, ops, m, outstanding, now, order);
      }
    } else {
      var ops, m, order := UnheldIsQueued(quarantines, channel, closure, "c0ffee", "host", T.Civil(1970, 1, 1, 0, 0, 0, 0));
    }
  }

  lemma HeldIsNotQueued(quarantines: map<string, set<string>>, channel: string, closure: string,
                        ops: seq<CP.Op>, m: SignedManifestSet, outstanding: CL.Outstanding, now: Instant, order: seq<Key>)
    requires channel in quarantines && closure in quarantines[channel]
    ensures !Queues(quarantines, channel, closure, ops, m, outstanding, now, order)
  {
    var c := Context(CL.FleetStateOf(CP.Run(CP.EMPTY, ops), m, outstanding), m, quarantines, now);
    forall a | a in Planner.Walk(c, order).actions && a.QueueDispatch? && a.rollout in c.fleetState.rollouts
               && c.fleetState.rollouts[a.rollout].channel == channel
      ensures a.targetClosure != closure
    {
      Planner.QueuedIsSafe(c, order, a);
    }
  }

  /** A run of one open. */
  lemma OneOpenIsFresh(id: string, channel: string, channelRef: string, closure: string, names: seq<string>,
                       at: CP.Stamp)
    returns (ops: seq<CP.Op>)
    requires Manifest.Ascending(names)
    ensures CP.AllowedRun(CP.EMPTY, ops)
    ensures FreshTables(CP.Run(CP.EMPTY, ops), id, channel, closure, names, T.InstantOf(at), 0)
  {
    var op := CP.OpenOp(id, channel, channelRef, at, CP.Joinings(names, closure, 0));
    EmptyIsConsistent();
    OpenedIsFresh(CP.EMPTY, id, channel, channelRef, closure, names, at, 0);
    OneOpRun(op);
    ops := [op];
  }

  /** Manifests with one channel and nothing but quarantine that could block. */
  ghost predicate Bare(m: SignedManifestSet, channel: string) {
    && Projected(m) && m.rollouts.Keys == {channel} && m.rollouts[channel].disruptionBudgets == []
    && m.fleet.waves == map[] && m.fleet.edges == [] && m.fleet.channelEdges == []
  }

  lemma PublishBare(channel: string, channelRef: string, closure: string, names: seq<string>)
    returns (m: SignedManifestSet)
    requires '@' !in channel && names != [] && Manifest.Ascending(names)
    ensures Bare(m, channel)
  {
    m := Published(channel, channelRef, closure, names, [], []);
    PublishedIsProjected(channel, channelRef, closure, names, [], []);
  }

  lemma UnheldIsQueued(quarantines: map<string, set<string>>, channel: string, closure: string, channelRef: string,
                       host: string, at: CP.Stamp)
    returns (ops: seq<CP.Op>, m: SignedManifestSet, order: seq<Key>)
    requires '@' !in channel && !(channel in quarantines && closure in quarantines[channel])
    ensures Queues(quarantines, channel, closure, ops, m, map[], 0, order)
  {
    var names := [host];
    m := PublishBare(channel, channelRef, closure, names);
    ops := OneOpenIsFresh(Planner.ManifestId(m, channel), channel, channelRef, closure, names, at);
    order := UnheldHere(quarantines, m, channel, closure, host, ops, T.InstantOf(at), 0);
  }

  lemma EmptyIsConsistent()
    ensures CP.Inv(CP.EMPTY)
  {}

  lemma OneOpRun(op: CP.Op)
    requires op.OpenOp?
    ensures CP.AllowedRun(CP.EMPTY, [op]) && CP.Run(CP.EMPTY, [op]) == CP.Apply(CP.EMPTY, op)
  {
    assert [op][1..] == [];
    assert CP.Run(CP.Apply(CP.EMPTY, op), []) == CP.Apply(CP.EMPTY, op);
  }

  lemma UnheldHere(quarantines: map<string, set<string>>, m: SignedManifestSet, channel: string, closure: string,
                   host: string, ops: seq<CP.Op>, at: Instant, soak: Instant)
    returns (order: seq<Key>)
    requires CP.AllowedRun(CP.EMPTY, ops) && Bare(m, channel)
    requires FreshTables(CP.Run(CP.EMPTY, ops), Planner.ManifestId(m, channel), channel, closure, [host], at, soak)
    requires !(channel in quarantines && closure in quarantines[channel])
    ensures Queues(quarantines, channel, closure, ops, m, map[], 0, order)
  {
    var cp, id := CP.Run(CP.EMPTY, ops), Planner.ManifestId(m, channel);
    FreshIsViewed(cp, m, channel, closure, [host], [], at, soak, quarantines, 0);
    var c := Context(CL.FleetStateOf(cp, m, map[]), m, quarantines, 0);
    order := FreshHostIsQueued(c, id, host, channel, closure, [host], []);
  }

  /**
   The control plane records quarantined closures in its table but hands the planner an empty set, so
   from any consistent state, publishing a quarantined closure under a new ref queues it again.
   */
  lemma QuarantinedIsQueuedAgain(
    cp: CP.Cp, channel: string, channelRef: string, closure: string, host: string, at: CP.Stamp, soak: Instant, now: Instant)
    returns (m: SignedManifestSet, order: seq<Key>)
    requires CP.Inv(cp) && (channel, closure) in cp.quarantined && '@' !in channel
    requires RolloutIds.New(channel, channelRef) !in cp.rows
    ensures Projected(m) && m.rollouts.Keys == {channel} && m.rollouts[channel].channelRef == channelRef
    ensures var id := RolloutIds.New(channel, channelRef);
            var next := CP.Opened(cp, id, channel, channelRef, at, CP.Joinings([host], closure, soak));
            var c := CL.ContextOf(next, m, map[], now);
            && (channel, closure) in next.quarantined && Planner.LoopOrder(c, order)
            && exists a :: a in Planner.Walk(c, order).actions && a.QueueDispatch?
                           && a.rollout == id && a.host == host && a.targetClosure == closure
  {
    var id := RolloutIds.New(channel, channelRef);
    m := Published(channel, channelRef, closure, [host], [], []);
    PublishedIsProjected(channel, channelRef, closure, [host], [], []);
    OpenedIsFresh(cp, id, channel, channelRef, closure, [host], at, soak);
    order := QueuedFrom(CP.Opened(cp, id, channel, channelRef, at, CP.Joinings([host], closure, soak)),
                        m, channel, closure, host, T.InstantOf(at), soak, now);
  }

  lemma QueuedFrom(cp: CP.Cp, m: SignedManifestSet, channel: string, closure: string, host: string,
                   at: Instant, soak: Instant, now: Instant)
    returns (order: seq<Key>)
    requires CL.WellNamed(m) && m.rollouts.Keys == {channel} && m.rollouts[channel].disruptionBudgets == []
    requires m.fleet.waves == map[] && m.fleet.edges == [] && m.fleet.channelEdges == []
    requires FreshTables(cp, Planner.ManifestId(m, channel), channel, closure, [host], at, soak)
    ensures var c := CL.ContextOf(cp, m, map[], now);
            && Planner.LoopOrder(c, order)
            && exists a :: a in Planner.Walk(c, order).actions && a.QueueDispatch?
                           && a.rollout == Planner.ManifestId(m, channel) && a.host == host && a.targetClosure == closure
  {
    FreshIsViewed(cp, m, channel, closure, [host], [], at, soak, map[], now);
    order := FreshHostIsQueued(CL.ContextOf(cp, m, map[], now), Planner.ManifestId(m, channel), host, channel, closure,
                               [host], []);
  }

  // ----- Budgets across ticks

  const EVERYONE := Selector([], [], [], None, true)
  const ONE_AT_A_TIME := DisruptionBudget(EVERYONE, Some(1), None)

  function Frozen(names: seq<string>): RolloutBudget {
    RolloutBudget(EVERYONE, names, Some(1), None)
  }

  /** Any two hosts, listed by name. */
  ghost predicate IsPair(names: seq<string>, a: string, b: string) {
    names == [a, b] && Text.Less(a, b)
  }

  /** A manifest set of the small fleet: one channel, one budget of one over the given hosts. */
  ghost predicate OneBudget(m: SignedManifestSet, channel: string, names: seq<string>) {
    && CL.WellNamed(m) && m.rollouts.Keys == {channel} && m.rollouts[channel].disruptionBudgets == [Frozen(names)]
    && m.fleet.waves == map[] && m.fleet.edges == [] && m.fleet.channelEdges == []
  }

  lemma PairIsPublished(channel: string, channelRef: string, closure: string, names: seq<string>, a: string, b: string)
    requires '@' !in channel && IsPair(names, a, b)
    ensures Manifest.Ascending(names) && a != b
    ensures var m := Published(channel, channelRef, closure, names, [ONE_AT_A_TIME], [Frozen(names)]);
            && Projected(m) && OneBudget(m, channel, names)
            && Planner.ManifestId(m, channel) == RolloutIds.New(channel, channelRef)
  {
    Text.LessIrreflexive(a);
    var fleet := SmallFleet(channel, channelRef, closure, names, [ONE_AT_A_TIME]);
    assert Manifest.IsFrozen(fleet, ONE_AT_A_TIME, Frozen(names));
    PublishedIsProjected(channel, channelRef, closure, names, [ONE_AT_A_TIME], [Frozen(names)]);
  }

  function AckEvent(at: CP.Stamp): HM.Event {
    HM.RemoteDispatchAck("old", T.InstantOf(at), 1)
  }

  function Ack(cp: CP.Cp, key: Key, policy: HM.RolloutPolicy, at: CP.Stamp): CP.Cp {
    CP.HostEvent(cp, key, AckEvent(at), Some(policy), at)
  }

  lemma AckAccepted(cp: CP.Cp, key: Key, policy: HM.RolloutPolicy, at: CP.Stamp)
    requires CP.Inv(cp) && key in cp.records && cp.records[key].state.Pending? && cp.records[key].lastEventSeq == 0
    ensures CP.Accepts(cp, key, AckEvent(at), Some(policy))
    ensures HM.Step(cp.records[key], AckEvent(at), policy).next.state.Activating?
  {
    assert HM.Step(cp.records[key], AckEvent(at), policy) == HM.FromPending(cp.records[key], AckEvent(at));
  }

  lemma AckActivates(cp: CP.Cp, key: Key, policy: HM.RolloutPolicy, at: CP.Stamp)
    requires CP.Inv(cp) && key in cp.records && cp.records[key].state.Pending? && cp.records[key].lastEventSeq == 0
    ensures var next := Ack(cp, key, policy, at);
            && CP.Inv(next) && next.rows.Keys == cp.rows.Keys && next.records.Keys == cp.records.Keys
            && next.records[key].state.Activating?
            && forall other :: other in cp.records && other != key ==> next.records[other] == cp.records[other]
  {
    AckAccepted(cp, key, policy, at);
    var next := HM.Step(cp.records[key], AckEvent(at), policy).next;
    Recovery.AcceptedWrites(cp, key, AckEvent(at), policy, at, next);
    CP.HostEventKeeps(cp, key, AckEvent(at), Some(policy), at);
    CP.HostEventKeepsKeys(cp, key, AckEvent(at), Some(policy), at);
  }

  /** Both hosts activating under a budget of one. */
  lemma BothInFlight(cp: CP.Cp, m: SignedManifestSet, channel: string, names: seq<string>, a: string, b: string)
    requires OneBudget(m, channel, names) && names == [a, b] && a != b
    requires BothActivating(cp, Planner.ManifestId(m, channel), names, a, b)
    ensures InFlight(CL.FleetStateOf(cp, m, map[]), EVERYONE) == 2
  {
    var id := Planner.ManifestId(m, channel);
    OnlyAdvertised(m, channel);
    var fs := CL.FleetStateOf(cp, m, map[]);
    assert BudgetWith(fs.rollouts[id].budgets, EVERYONE) == Some(Frozen(names));
    assert InFlightKeys(fs, EVERYONE) == {(id, a), (id, b)};
  }

  lemma BothAcked(cp: CP.Cp, m: SignedManifestSet, channel: string, closure: string, names: seq<string>,
                  a: string, b: string, at: CP.Stamp, soak: Instant, policy: HM.RolloutPolicy)
    requires OneBudget(m, channel, names) && names == [a, b] && a != b
    requires FreshTables(cp, Planner.ManifestId(m, channel), channel, closure, names, T.InstantOf(at), soak)
    ensures var id := Planner.ManifestId(m, channel);
            var acked := Ack(Ack(cp, (id, a), policy, at), (id, b), policy, at);
            InFlight(CL.FleetStateOf(acked, m, map[]), EVERYONE) == 2
  {
    var id := Planner.ManifestId(m, channel);
    AckPair(cp, id, channel, closure, names, a, b, at, soak, policy);
    BothInFlight(Ack(Ack(cp, (id, a), policy, at), (id, b), policy, at), m, channel, names, a, b);
  }

  ghost predicate BothActivating(cp: CP.Cp, id: string, names: seq<string>, a: string, b: string) {
    && id in cp.rows
    && (forall key :: key in cp.records && key.0 == id ==> key.1 in names)
    && (id, a) in cp.records && (id, b) in cp.records
    && cp.records[(id, a)].state.Activating? && cp.records[(id, b)].state.Activating?
  }

  lemma AckPair(cp: CP.Cp, id: string, channel: string, closure: string, names: seq<string>,
                a: string, b: string, at: CP.Stamp, soak: Instant, policy: HM.RolloutPolicy)
    requires names == [a, b] && a != b && FreshTables(cp, id, channel, closure, names, T.InstantOf(at), soak)
    ensures BothActivating(Ack(Ack(cp, (id, a), policy, at), (id, b), policy, at), id, names, a, b)
  {
    assert a in names && b in names;
    AckActivates(cp, (id, a), policy, at);
    AckSecond(Ack(cp, (id, a), policy, at), id, names, a, b, at, policy);
  }

  lemma AckSecond(cp: CP.Cp, id: string, names: seq<string>, a: string, b: string, at: CP.Stamp, policy: HM.RolloutPolicy)
    requires CP.Inv(cp) && id in cp.rows && a != b && forall key :: key in cp.records && key.0 == id ==> key.1 in names
    requires (id, a) in cp.records && cp.records[(id, a)].state.Activating?
    requires (id, b) in cp.records && cp.records[(id, b)].state.Pending? && cp.records[(id, b)].lastEventSeq == 0
    ensures BothActivating(Ack(cp, (id, b), policy, at), id, names, a, b)
  {
    AckActivates(cp, (id, b), policy, at);
  }

  lemma FreshBudget(c: Context, id: string, channel: string, closure: string, names: seq<string>)
    requires FreshView(c, id, channel, closure, names, [Frozen(names)])
    ensures Planner.CapAgreed(c, EVERYONE, 1) && InFlight(c.fleetState, EVERYONE) == 0
    ensures forall host :: Ticks.HasRoom(c, (id, host))
  {
    assert InFlightKeys(c.fleetState, EVERYONE) == {};
  }

  /** A tick may start with either host, and then queues it. */
  lemma EitherIsQueued(c: Context, id: string, channel: string, closure: string, names: seq<string>, a: string, b: string)
    returns (one: seq<Key>, two: seq<Key>)
    requires FreshView(c, id, channel, closure, names, [Frozen(names)]) && names == [a, b] && c.quarantines == map[]
    ensures Ticks.AreTicks(c, [one, two])
    ensures (id, a) in Ticks.QueuedKeys(Planner.Walk(c, one).actions)
    ensures (id, b) in Ticks.QueuedKeys(Planner.Walk(c, two).actions)
  {
    FreshBudget(c, id, channel, closure, names);
    one := FreshHostIsQueued(c, id, a, channel, closure, names, [Frozen(names)]);
    two := FreshHostIsQueued(c, id, b, channel, closure, names, [Frozen(names)]);
  }

  /** The run that breaks a cap of one: both hosts queued from the same tables, both acknowledged, both in flight. */
  ghost predicate BreaksTheCap(cp: CP.Cp, m: SignedManifestSet, id: string, a: string, b: string,
                               one: seq<Key>, two: seq<Key>, now: Instant, policy: HM.RolloutPolicy, at: CP.Stamp)
  {
    var c := CL.ContextOf(cp, m, map[], now);
    && Ticks.AreTicks(c, [one, two]) && Planner.CapAgreed(c, EVERYONE, 1) && InFlight(c.fleetState, EVERYONE) == 0
    && (id, a) in Ticks.QueuedKeys(Planner.Walk(c, one).actions)
    && (id, b) in Ticks.QueuedKeys(Planner.Walk(c, two).actions)
    && InFlight(CL.FleetStateOf(Ack(Ack(cp, (id, a), policy, at), (id, b), policy, at), m, map[]), EVERYONE) == 2
  }

  lemma FreshBreaksTheCap(cp: CP.Cp, m: SignedManifestSet, channel: string, closure: string, names: seq<string>,
                          a: string, b: string, at: CP.Stamp, soak: Instant, now: Instant, policy: HM.RolloutPolicy)
    returns (one: seq<Key>, two: seq<Key>)
    requires OneBudget(m, channel, names) && names == [a, b] && a != b
    requires FreshTables(cp, Planner.ManifestId(m, channel), channel, closure, names, T.InstantOf(at), soak)
    ensures BreaksTheCap(cp, m, Planner.ManifestId(m, channel), a, b, one, two, now, policy, at)
  {
    var id := Planner.ManifestId(m, channel);
    var c := CL.ContextOf(cp, m, map[], now);
    FreshIsViewed(cp, m, channel, closure, names, [Frozen(names)], T.InstantOf(at), soak, map[], now);
    FreshBudget(c, id, channel, closure, names);
    one, two := EitherIsQueued(c, id, channel, closure, names, a, b);
    BothAcked(cp, m, channel, closure, names, a, b, at, soak, policy);
  }

  /**
   The cap is per tick: a freshly opened rollout of two hosts under a budget of one, two ticks that list the
   hosts differently, then both acknowledgements, and two hosts are in flight.
   */
  lemma TwoTicksExceedTheCap(channel: string, channelRef: string, closure: string, a: string, b: string,
                             at: CP.Stamp, soak: Instant, now: Instant, policy: HM.RolloutPolicy)
    returns (cp: CP.Cp, m: SignedManifestSet, one: seq<Key>, two: seq<Key>)
    requires '@' !in channel && Text.Less(a, b)
    ensures Projected(m)
    ensures cp == CP.Opened(CP.EMPTY, RolloutIds.New(channel, channelRef), channel, channelRef, at,
                            CP.Joinings([a, b], closure, soak))
    ensures BreaksTheCap(cp, m, RolloutIds.New(channel, channelRef), a, b, one, two, now, policy, at)
  {
    var names, id := [a, b], RolloutIds.New(channel, channelRef);
    m := Published(channel, channelRef, closure, names, [ONE_AT_A_TIME], [Frozen(names)]);
    PairIsPublished(channel, channelRef, closure, names, a, b);
    EmptyIsConsistent();
    OpenedIsFresh(CP.EMPTY, id, channel, channelRef, closure, names, at, soak);
    cp := CP.Opened(CP.EMPTY, id, channel, channelRef, at, CP.Joinings(names, closure, soak));
    one, two := FreshBreaksTheCap(cp, m, channel, closure, names, a, b, at, soak, now, policy);
  }
}
