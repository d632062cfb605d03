/** The dispatch gates. The first gate that blocks decides. */
module Gates {
  import opened Wrappers
  import opened Fleet
  import HM = HostMachine
  import RolloutIds

  type Key = (string, string)

  datatype RolloutSummary = RolloutSummary(
    rolloutId: string, channel: string, targetRef: string, terminalAt: Option<Instant>,
    currentWave: nat, budgets: seq<RolloutBudget>)

  datatype FleetState = FleetState(
    hostStates: map<Key, HM.HostRolloutState>,
    rollouts: map<string, RolloutSummary>,
    outstanding: map<string, map<string, nat>>)

  datatype SignedManifestSet = SignedManifestSet(fleet: FleetResolved, rollouts: map<string, RolloutManifest>)

  datatype GateBlock =
    | Quarantined(channel: string, closureHash: string)
    | ChannelEdges(predecessorChannel: string)
    | WavePromotion(hostWave: nat, currentWave: nat)
    | HostUnstaged(unstagedChannel: string)
    | HostEdge(gatingHost: string)
    | OverBudget(inFlight: nat, max: nat, selector: Selector)
    | ComplianceWave(failing: nat, complianceWave: nat)

  /** Everything a plan tick reads. */
  datatype Context = Context(
    fleetState: FleetState, manifests: SignedManifestSet, quarantines: map<string, set<string>>, now: Instant)

  type Tick = map<Selector, nat>

  function TickCount(tick: Tick, s: Selector): nat {
    if s in tick then tick[s] else 0
  }

  // ----- Quarantine

  function CheckQuarantine(c: Context, channel: string, target: string): Option<GateBlock> {
    if channel in c.quarantines && target in c.quarantines[channel] then Some(Quarantined(channel, target)) else None
  }

  // ----- Channel edges

  /** The predecessor's advertised rollout is not open yet, or open and not terminal. */
  predicate PredecessorActive(c: Context, predecessor: string) {
    predecessor in c.manifests.rollouts &&
      var id := RolloutIds.New(predecessor, c.manifests.rollouts[predecessor].channelRef);
      id in c.fleetState.rollouts ==> c.fleetState.rollouts[id].terminalAt.None?
  }

  function FirstChannelEdge(c: Context, edges: seq<Edge>, channel: string): Option<GateBlock> {
    if edges == [] then None
    else if edges[0].gated == channel && PredecessorActive(c, edges[0].gates) then Some(ChannelEdges(edges[0].gates))
    else FirstChannelEdge(c, edges[1..], channel)
  }

  // ----- Wave promotion

  function CheckWave(c: Context, host: string, rollout: string): Option<GateBlock> {
    var fleet := c.manifests.fleet;
    if host !in fleet.hosts then None
    else
      var channel := fleet.hosts[host].channel;
      if channel !in fleet.waves || fleet.waves[channel] == [] then None
      else
        match WavePosition(fleet.waves[channel], host)
        case None => Some(HostUnstaged(channel))
        case Some(wave) =>
          var current := if rollout in c.fleetState.rollouts then c.fleetState.rollouts[rollout].currentWave else 0;
          if wave > current then Some(WavePromotion(wave, current)) else None
  }

  // ----- Host edges

  predicate OrderingEligible(c: Context, rollout: string, host: string) {
    (rollout, host) in c.fleetState.hostStates &&
      var s := c.fleetState.hostStates[(rollout, host)].state;
      s.Converged? || s.Deferred?
  }

  predicate SameChannel(fleet: FleetResolved, host: string, other: string) {
    host in fleet.hosts && other in fleet.hosts && fleet.hosts[host].channel == fleet.hosts[other].channel
  }

  function FirstHostEdge(c: Context, edges: seq<Edge>, host: string, rollout: string): Option<GateBlock> {
    if edges == [] then None
    else if edges[0].gated == host && SameChannel(c.manifests.fleet, host, edges[0].gates)
            && !OrderingEligible(c, rollout, edges[0].gates)
    then Some(HostEdge(edges[0].gates))
    else FirstHostEdge(c, edges[1..], host, rollout)
  }

  function CheckHostEdges(c: Context, host: string, rollout: string): Option<GateBlock> {
    if host !in c.manifests.fleet.hosts then None
    else FirstHostEdge(c, c.manifests.fleet.edges, host, rollout)
  }

  // ----- Disruption budget

  /** The budget of this rollout that carries the selector; the first one counts. */
  function BudgetWith(budgets: seq<RolloutBudget>, s: Selector): (b: Option<RolloutBudget>)
    ensures b.Some? ==> b.value in budgets && b.value.selector == s
    ensures b.None? ==> forall x :: x in budgets ==> x.selector != s
  {
    if budgets == [] then None
    else if budgets[0].selector == s then Some(budgets[0])
    else BudgetWith(budgets[1..], s)
  }

  predicate IsInFlight(s: HM.HostState) {
    s.Activating? || s.Soaking?
  }

  /** In flight for a selector: the host of a known rollout, in that rollout's budget, activating or soaking. */
  predicate CountsFor(fs: FleetState, s: Selector, key: Key)
    requires key in fs.hostStates
  {
    && key.0 in fs.rollouts
    && BudgetWith(fs.rollouts[key.0].budgets, s).Some?
    && key.1 in BudgetWith(fs.rollouts[key.0].budgets, s).value.hosts
    && IsInFlight(fs.hostStates[key].state)
  }

  function InFlightKeys(fs: FleetState, s: Selector): set<Key> {
    set key | key in fs.hostStates && CountsFor(fs, s, key)
  }

  function InFlight(fs: FleetState, s: Selector): nat {
    |InFlightKeys(fs, s)|
  }

  /** The inner counting loop: the hosts of one rollout, in any order. */
  method CountRollout(fs: FleetState, s: Selector, id: string) returns (count: nat)
    requires id in fs.rollouts
    ensures count == |set key | key in InFlightKeys(fs, s) && key.0 == id|
  {
    count := 0;
    ghost var seen: set<Key> := {};
    var budget := BudgetWith(fs.rollouts[id].budgets, s);
    if budget.Some? {
      var keys := fs.hostStates.Keys;
      while keys != {}
        invariant keys <= fs.hostStates.Keys
        invariant forall key :: key in seen <==> key in fs.hostStates && key !in keys && key.0 == id && CountsFor(fs, s, key)
        invariant count == |seen|
        decreases keys
      {
        var key :| key in keys;
        keys := keys - {key};
        if key.0 == id && key.1 in budget.value.hosts && IsInFlight(fs.hostStates[key].state) {
          seen := seen + {key};
          count := count + 1;
        }
      }
    }
    assert seen == set key | key in InFlightKeys(fs, s) && key.0 == id;
  }

  /** The counting loop over the rollouts, in any order. */
  method CountInFlight(fs: FleetState, s: Selector) returns (count: nat)
    ensures count == InFlight(fs, s)
  {
    count := 0;
    ghost var all := InFlightKeys(fs, s);
    ghost var seen: set<Key> := {};
    var rollouts := fs.rollouts.Keys;
    while rollouts != {}
      invariant rollouts <= fs.rollouts.Keys
      invariant seen == set key | key in all && key.0 !in rollouts
      invariant count == |seen|
      decreases rollouts
    {
      var id :| id in rollouts;
      rollouts := rollouts - {id};
      var n := CountRollout(fs, s, id);
      ghost var mine := set key | key in all && key.0 == id;
      assert mine !! seen && |seen + mine| == |seen| + |mine|;
      seen := seen + mine;
      count := count + n;
    }
    assert forall key :: key in all ==> key.0 in fs.rollouts;
    assert seen == all;
  }

  /** A u32 addition that stops at the top. */
  function SaturatingAdd(a: nat, b: nat): nat {
    if a + b > U32_MAX then U32_MAX else a + b
  }

  function FirstFullBudget(fs: FleetState, budgets: seq<RolloutBudget>, host: string, tick: Tick): Option<GateBlock> {
    if budgets == [] then None
    else
      var b := budgets[0];
      var total := SaturatingAdd(InFlight(fs, b.selector), TickCount(tick, b.selector));
      if host in b.hosts && b.maxInFlight.Some? && total >= b.maxInFlight.value
      then Some(OverBudget(total, b.maxInFlight.value, b.selector))
      else FirstFullBudget(fs, budgets[1..], host, tick)
  }

  function CheckBudget(fs: FleetState, rollout: string, host: string, tick: Tick): Option<GateBlock> {
    if rollout in fs.rollouts then FirstFullBudget(fs, fs.rollouts[rollout].budgets, host, tick) else None
  }

  /**
   The gate passes exactly when every capped budget holding the host has room, counting what this tick
   already dispatched. Saturation makes no difference below the cap's own width.
   */
  lemma {:induction false} BudgetPassesIff(fs: FleetState, budgets: seq<RolloutBudget>, host: string, tick: Tick)
    ensures FirstFullBudget(fs, budgets, host, tick).None? <==>
              forall b :: b in budgets && host in b.hosts && b.maxInFlight.Some? ==>
                InFlight(fs, b.selector) + TickCount(tick, b.selector) < b.maxInFlight.value
    ensures FirstFullBudget(fs, budgets, host, tick).Some? ==>
              var block := FirstFullBudget(fs, budgets, host, tick).value;
              && block.OverBudget?
              && exists b :: b in budgets && host in b.hosts && b.selector == block.selector
                             && b.maxInFlight == Some(block.max)
                             && block.max <= InFlight(fs, b.selector) + TickCount(tick, b.selector)
  {
    if budgets != [] {
      BudgetPassesIff(fs, budgets[1..], host, tick);
      assert forall b :: b in budgets <==> b == budgets[0] || b in budgets[1..];
    }
  }

  // ----- Compliance wave

  function FailingIn(hosts: seq<string>, perHost: map<string, nat>): nat {
    if hosts == [] then 0
    else (if hosts[0] in perHost then perHost[hosts[0]] else 0) + FailingIn(hosts[1..], perHost)
  }

  function FailingBefore(waves: seq<Wave>, wave: nat, perHost: map<string, nat>): nat
    requires wave <= |waves|
  {
    if wave == 0 then 0 else FailingBefore(waves, wave - 1, perHost) + FailingIn(waves[wave - 1].hosts, perHost)
  }

  function CheckCompliance(c: Context, host: string, rollout: string): Option<GateBlock> {
    var fleet := c.manifests.fleet;
    if host !in fleet.hosts || fleet.hosts[host].channel !in fleet.waves || rollout !in c.fleetState.outstanding
    then None
    else
      var waves := fleet.waves[fleet.hosts[host].channel];
      match WavePosition(waves, host)
      case None => None
      case Some(wave) =>
        var failing := FailingBefore(waves, wave, c.fleetState.outstanding[rollout]);
        if wave > 0 && failing > 0 then Some(ComplianceWave(failing, wave)) else None
  }

  lemma {:induction false} FailingInZeroIff(hosts: seq<string>, perHost: map<string, nat>)
    ensures FailingIn(hosts, perHost) == 0 <==> forall h :: h in hosts && h in perHost ==> perHost[h] == 0
  {
    if hosts != [] {
      FailingInZeroIff(hosts[1..], perHost);
      assert hosts == [hosts[0]] + hosts[1..];
    }
  }

  lemma {:induction false} FailingBeforeZeroIff(waves: seq<Wave>, wave: nat, perHost: map<string, nat>)
    requires wave <= |waves|
    ensures FailingBefore(waves, wave, perHost) == 0 <==>
            forall j, h :: 0 <= j < wave && h in waves[j].hosts && h in perHost ==> perHost[h] == 0
  {
    if wave > 0 {
      FailingBeforeZeroIff(waves, wave - 1, perHost);
      FailingInZeroIff(waves[wave - 1].hosts, perHost);
    }
  }

  /** For a staged host the gate passes exactly when no host of an earlier wave has an outstanding failure. */
  lemma ComplianceIff(c: Context, host: string, rollout: string)
    requires host in c.manifests.fleet.hosts && c.manifests.fleet.hosts[host].channel in c.manifests.fleet.waves
    requires rollout in c.fleetState.outstanding
    requires WavePosition(c.manifests.fleet.waves[c.manifests.fleet.hosts[host].channel], host).Some?
    ensures var waves := c.manifests.fleet.waves[c.manifests.fleet.hosts[host].channel];
            var failing := c.fleetState.outstanding[rollout];
            CheckCompliance(c, host, rollout).None? <==>
            forall j, h :: 0 <= j < WavePosition(waves, host).value && h in waves[j].hosts && h in failing ==>
                             failing[h] == 0
  {
    var waves := c.manifests.fleet.waves[c.manifests.fleet.hosts[host].channel];
    FailingBeforeZeroIff(waves, WavePosition(waves, host).value, c.fleetState.outstanding[rollout]);
  }

  // ----- All gates

  /** The gates that do not look at the tick's own dispatches, those before the budget gate. */
  function CheckEarly(c: Context, rollout: string, host: string, target: string, channel: string): Option<GateBlock> {
    if CheckQuarantine(c, channel, target).Some? then CheckQuarantine(c, channel, target)
    else if FirstChannelEdge(c, c.manifests.fleet.channelEdges, channel).Some? then
      FirstChannelEdge(c, c.manifests.fleet.channelEdges, channel)
    else if CheckWave(c, host, rollout).Some? then CheckWave(c, host, rollout)
    else CheckHostEdges(c, host, rollout)
  }

  function Evaluate(c: Context, rollout: string, host: string, target: string, channel: string, tick: Tick)
    : Option<GateBlock>
  {
    if CheckEarly(c, rollout, host, target, channel).Some? then CheckEarly(c, rollout, host, target, channel)
    else if CheckBudget(c.fleetState, rollout, host, tick).Some? then CheckBudget(c.fleetState, rollout, host, tick)
    else CheckCompliance(c, host, rollout)
  }
}
