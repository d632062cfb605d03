/**
 The verdict of the dispatch gates, read off the context's own fields: what a host must meet to be dispatched,
 and what each refusal says.
 */
module Verdicts {
  import opened Wrappers
  import opened Fleet
  import opened Gates
  import HM = HostMachine

  // ----- The six conditions

  predicate NotQuarantined(c: Context, channel: string, closure: string) {
    channel in c.quarantines ==> closure !in c.quarantines[channel]
  }

  /** The channel publishes nothing, or what it publishes is open and terminal. */
  predicate DoneOrUnpublished(c: Context, channel: string) {
    channel in c.manifests.rollouts ==>
      var id := channel + "@" + c.manifests.rollouts[channel].channelRef;
      id in c.fleetState.rollouts && c.fleetState.rollouts[id].terminalAt.Some?
  }

  predicate PredecessorsDone(c: Context, channel: string) {
    forall e :: e in c.manifests.fleet.channelEdges && e.gated == channel ==> DoneOrUnpublished(c, e.gates)
  }

  /** The waves that stage the host; none when its channel has none, or the fleet does not know the host. */
  function WavesFor(c: Context, host: string): seq<Wave> {
    var fleet := c.manifests.fleet;
    if host in fleet.hosts && fleet.hosts[host].channel in fleet.waves then fleet.waves[fleet.hosts[host].channel] else []
  }

  predicate IsFirstWave(waves: seq<Wave>, host: string, wave: nat) {
    wave < |waves| && host in waves[wave].hosts && forall i :: 0 <= i < wave ==> host !in waves[i].hosts
  }

  function CursorOf(c: Context, rollout: string): nat {
    if rollout in c.fleetState.rollouts then c.fleetState.rollouts[rollout].currentWave else 0
  }

  /** A wave up to the cursor names the host, or no waves stage it. */
  predicate WaveReached(c: Context, rollout: string, host: string) {
    var waves := WavesFor(c, host);
    waves != [] ==> exists w :: 0 <= w < |waves| && w <= CursorOf(c, rollout) && host in waves[w].hosts
  }

  predicate OnItsChannel(c: Context, host: string, other: string) {
    var hosts := c.manifests.fleet.hosts;
    host in hosts && other in hosts && hosts[host].channel == hosts[other].channel
  }

  predicate DoneIn(c: Context, rollout: string, host: string) {
    (rollout, host) in c.fleetState.hostStates &&
    (c.fleetState.hostStates[(rollout, host)].state.Converged? || c.fleetState.hostStates[(rollout, host)].state.Deferred?)
  }

  /** Every host of its channel that it must follow has converged or is deferred in this rollout. */
  predicate LeadersDone(c: Context, rollout: string, host: string) {
    forall e :: e in c.manifests.fleet.edges && e.gated == host && OnItsChannel(c, host, e.gates) ==>
      DoneIn(c, rollout, e.gates)
  }

  /** Position `i` of the budgets is the first with this selector. */
  predicate FirstWith(budgets: seq<RolloutBudget>, s: Selector, i: nat) {
    i < |budgets| && budgets[i].selector == s && forall j :: 0 <= j < i ==> budgets[j].selector != s
  }

  /** The host is activating or soaking, in a rollout whose first budget with the selector holds it. */
  ghost predicate Occupies(fs: FleetState, s: Selector, key: Key) {
    && key in fs.hostStates && (fs.hostStates[key].state.Activating? || fs.hostStates[key].state.Soaking?)
    && key.0 in fs.rollouts
    && exists i: nat :: FirstWith(fs.rollouts[key.0].budgets, s, i) && key.1 in fs.rollouts[key.0].budgets[i].hosts
  }

  ghost function Occupied(fs: FleetState, s: Selector): nat {
    |set key | key in fs.hostStates && Occupies(fs, s, key)|
  }

  /** Each capped budget that holds the host has room beside what is in flight and what this tick used. */
  ghost predicate Room(c: Context, rollout: string, host: string, used: Selector -> nat) {
    rollout in c.fleetState.rollouts ==>
      forall b :: b in c.fleetState.rollouts[rollout].budgets && host in b.hosts && b.maxInFlight.Some? ==>
        Occupied(c.fleetState, b.selector) + used(b.selector) < b.maxInFlight.value
  }

  predicate FailsIn(c: Context, rollout: string, host: string) {
    && rollout in c.fleetState.outstanding && host in c.fleetState.outstanding[rollout]
    && c.fleetState.outstanding[rollout][host] > 0
  }

  /** No host of a wave before the host's own has an outstanding enforce failure. */
  ghost predicate EarlierWavesComply(c: Context, rollout: string, host: string) {
    var waves := WavesFor(c, host);
    forall w: nat, j, h :: IsFirstWave(waves, host, w) && 0 <= j < w && h in waves[j].hosts ==> !FailsIn(c, rollout, h)
  }

  /** Everything a dispatch needs. */
  ghost predicate MayDispatch(c: Context, rollout: string, host: string, closure: string, channel: string,
                              used: Selector -> nat)
  {
    && NotQuarantined(c, channel, closure) && PredecessorsDone(c, channel)
    && WaveReached(c, rollout, host) && LeadersDone(c, rollout, host)
    && Room(c, rollout, host, used) && EarlierWavesComply(c, rollout, host)
  }

  // ----- What a refusal says

  /** Position `i` is the first channel edge that holds the channel back. */
  predicate FirstOpenEdge(c: Context, channel: string, i: nat) {
    var edges := c.manifests.fleet.channelEdges;
    && i < |edges| && edges[i].gated == channel && !DoneOrUnpublished(c, edges[i].gates)
    && forall j :: 0 <= j < i && edges[j].gated == channel ==> DoneOrUnpublished(c, edges[j].gates)
  }

  predicate HoldsBack(c: Context, rollout: string, host: string, e: Edge) {
    e.gated == host && OnItsChannel(c, host, e.gates) && !DoneIn(c, rollout, e.gates)
  }

  predicate FirstLeader(c: Context, rollout: string, host: string, i: nat) {
    var edges := c.manifests.fleet.edges;
    i < |edges| && HoldsBack(c, rollout, host, edges[i]) && forall j :: 0 <= j < i ==> !HoldsBack(c, rollout, host, edges[j])
  }

  ghost predicate IsFull(c: Context, b: RolloutBudget, host: string, used: Selector -> nat) {
    host in b.hosts && b.maxInFlight.Some? && b.maxInFlight.value <= Occupied(c.fleetState, b.selector) + used(b.selector)
  }

  ghost predicate FirstFull(c: Context, rollout: string, host: string, used: Selector -> nat, i: nat)
    requires rollout in c.fleetState.rollouts
  {
    var budgets := c.fleetState.rollouts[rollout].budgets;
    i < |budgets| && IsFull(c, budgets[i], host, used) && forall j :: 0 <= j < i ==> !IsFull(c, budgets[j], host, used)
  }

  /** The block names the first of the six conditions that fails, and what makes it fail. */
  ghost predicate Refuses(c: Context, rollout: string, host: string, closure: string, channel: string,
                          used: Selector -> nat, block: GateBlock)
  {
    var staged := NotQuarantined(c, channel, closure) && PredecessorsDone(c, channel);
    var waves := WavesFor(c, host);
    match block
    case Quarantined(ch, cl) => ch == channel && cl == closure && !NotQuarantined(c, channel, closure)
    case ChannelEdges(p) =>
      NotQuarantined(c, channel, closure)
      && exists i: nat :: FirstOpenEdge(c, channel, i) && p == c.manifests.fleet.channelEdges[i].gates
    case HostUnstaged(ch) =>
      && staged && waves != [] && ch == c.manifests.fleet.hosts[host].channel
      && forall w :: 0 <= w < |waves| ==> host !in waves[w].hosts
    case WavePromotion(wave, cursor) =>
      staged && IsFirstWave(waves, host, wave) && cursor == CursorOf(c, rollout) && cursor < wave
    case HostEdge(leader) =>
      && staged && WaveReached(c, rollout, host)
      && exists i: nat :: FirstLeader(c, rollout, host, i) && leader == c.manifests.fleet.edges[i].gates
    case OverBudget(count, cap, s) =>
      && staged && WaveReached(c, rollout, host) && LeadersDone(c, rollout, host)
      && rollout in c.fleetState.rollouts
      && exists i: nat :: FirstFull(c, rollout, host, used, i)
                     && var b := c.fleetState.rollouts[rollout].budgets[i];
                        && s == b.selector && Some(cap) == b.maxInFlight
                        && (count == Occupied(c.fleetState, s) + used(s)
                            || count == U32_MAX < Occupied(c.fleetState, s) + used(s))
    case ComplianceWave(failing, wave) =>
      && staged && WaveReached(c, rollout, host) && LeadersDone(c, rollout, host) && Room(c, rollout, host, used)
      && IsFirstWave(waves, host, wave) && failing > 0 && !EarlierWavesComply(c, rollout, host)
  }

  // ----- Gate by gate

  lemma {:induction false} ChannelEdgeIff(c: Context, edges: seq<Edge>, channel: string)
    ensures FirstChannelEdge(c, edges, channel).None? <==>
              forall e :: e in edges && e.gated == channel ==> DoneOrUnpublished(c, e.gates)
    ensures FirstChannelEdge(c, edges, channel).Some? ==>
              exists i :: 0 <= i < |edges| && edges[i].gated == channel && !DoneOrUnpublished(c, edges[i].gates)
                          && FirstChannelEdge(c, edges, channel) == Some(ChannelEdges(edges[i].gates))
                          && forall j :: 0 <= j < i && edges[j].gated == channel ==> DoneOrUnpublished(c, edges[j].gates)
  {
    if edges != [] {
      ChannelEdgeIff(c, edges[1..], channel);
      assert edges == [edges[0]] + edges[1..];
      if FirstChannelEdge(c, edges, channel).Some? {
        if edges[0].gated == channel && !DoneOrUnpublished(c, edges[0].gates) {
          assert FirstChannelEdge(c, edges, channel) == Some(ChannelEdges(edges[0].gates));
        } else {
          var i :| 0 <= i < |edges[1..]| && edges[1..][i].gated == channel && !DoneOrUnpublished(c, edges[1..][i].gates)
                   && FirstChannelEdge(c, edges[1..], channel) == Some(ChannelEdges(edges[1..][i].gates))
                   && forall j :: 0 <= j < i && edges[1..][j].gated == channel ==> DoneOrUnpublished(c, edges[1..][j].gates);
          assert edges[i + 1] == edges[1..][i];
          forall j | 0 <= j < i + 1 && edges[j].gated == channel ensures DoneOrUnpublished(c, edges[j].gates) {
            if j > 0 { assert edges[1..][j - 1] == edges[j]; }
          }
        }
      }
    }
  }

  lemma {:induction false} HostEdgeIff(c: Context, edges: seq<Edge>, host: string, rollout: string)
    ensures FirstHostEdge(c, edges, host, rollout).None? <==> forall e :: e in edges ==> !HoldsBack(c, rollout, host, e)
    ensures FirstHostEdge(c, edges, host, rollout).Some? ==>
              exists i :: 0 <= i < |edges| && HoldsBack(c, rollout, host, edges[i])
                          && FirstHostEdge(c, edges, host, rollout) == Some(HostEdge(edges[i].gates))
                          && forall j :: 0 <= j < i ==> !HoldsBack(c, rollout, host, edges[j])
  {
    if edges != [] {
      HostEdgeIff(c, edges[1..], host, rollout);
      assert edges == [edges[0]] + edges[1..];
      if FirstHostEdge(c, edges, host, rollout).Some? {
        if HoldsBack(c, rollout, host, edges[0]) {
          assert FirstHostEdge(c, edges, host, rollout) == Some(HostEdge(edges[0].gates));
        } else {
          var i :| 0 <= i < |edges[1..]| && HoldsBack(c, rollout, host, edges[1..][i])
                   && FirstHostEdge(c, edges[1..], host, rollout) == Some(HostEdge(edges[1..][i].gates))
                   && forall j :: 0 <= j < i ==> !HoldsBack(c, rollout, host, edges[1..][j]);
          assert edges[i + 1] == edges[1..][i];
          forall j | 0 <= j < i + 1 ensures !HoldsBack(c, rollout, host, edges[j]) {
            if j > 0 { assert edges[1..][j - 1] == edges[j]; }
          }
        }
      }
    }
  }

  lemma WaveIff(c: Context, host: string, rollout: string)
    ensures CheckWave(c, host, rollout).None? <==> WaveReached(c, rollout, host)
    ensures var waves := WavesFor(c, host);
            match CheckWave(c, host, rollout)
            case None => true
            case Some(HostUnstaged(channel)) =>
              && waves != [] && channel == c.manifests.fleet.hosts[host].channel
              && forall w :: 0 <= w < |waves| ==> host !in waves[w].hosts
            case Some(WavePromotion(wave, cursor)) =>
              IsFirstWave(waves, host, wave) && cursor == CursorOf(c, rollout) && cursor < wave
            case _ => false
  {
  }

  lemma {:induction false} FirstWithIff(budgets: seq<RolloutBudget>, s: Selector)
    ensures BudgetWith(budgets, s).None? ==> forall i: nat :: !FirstWith(budgets, s, i)
    ensures BudgetWith(budgets, s).Some? ==>
              exists i: nat :: FirstWith(budgets, s, i) && budgets[i] == BudgetWith(budgets, s).value
    ensures forall i: nat, j: nat :: FirstWith(budgets, s, i) && FirstWith(budgets, s, j) ==> i == j
  {
    if budgets != [] && budgets[0].selector == s {
      assert FirstWith(budgets, s, 0);
    } else if budgets != [] {
      FirstWithIff(budgets[1..], s);
      if BudgetWith(budgets, s).Some? {
        var i: nat :| FirstWith(budgets[1..], s, i) && budgets[1..][i] == BudgetWith(budgets[1..], s).value;
        forall j | 0 <= j < i + 1 ensures budgets[j].selector != s {
          if j > 0 { assert budgets[1..][j - 1] == budgets[j]; }
        }
        assert budgets[i + 1] == budgets[1..][i];
        assert FirstWith(budgets, s, i + 1);
      }
    }
  }

  lemma CountsIff(fs: FleetState, s: Selector, key: Key)
    requires key in fs.hostStates
    ensures CountsFor(fs, s, key) <==> Occupies(fs, s, key)
  {
    if key.0 in fs.rollouts { FirstWithIff(fs.rollouts[key.0].budgets, s); }
  }

  lemma InFlightIsOccupied(fs: FleetState, s: Selector)
    ensures InFlight(fs, s) == Occupied(fs, s)
  {
    forall key | key in fs.hostStates ensures CountsFor(fs, s, key) <==> Occupies(fs, s, key) { CountsIff(fs, s, key); }
    assert InFlightKeys(fs, s) == set key | key in fs.hostStates && Occupies(fs, s, key);
  }

  /** Budget `i` is the first full one, and the block describes it. */
  ghost predicate FullAt(c: Context, budgets: seq<RolloutBudget>, host: string, used: Selector -> nat, i: nat,
                         block: GateBlock)
  {
    && i < |budgets| && IsFull(c, budgets[i], host, used) && (forall j :: 0 <= j < i ==> !IsFull(c, budgets[j], host, used))
    && var s := budgets[i].selector;
       block == OverBudget(SaturatingAdd(Occupied(c.fleetState, s), used(s)), budgets[i].maxInFlight.value, s)
  }

  lemma FullHere(c: Context, budgets: seq<RolloutBudget>, host: string, used: Selector -> nat, block: GateBlock)
    requires budgets != [] && IsFull(c, budgets[0], host, used)
    requires var s := budgets[0].selector;
             block == OverBudget(SaturatingAdd(Occupied(c.fleetState, s), used(s)), budgets[0].maxInFlight.value, s)
    ensures exists i: nat :: FullAt(c, budgets, host, used, i, block)
  {
    assert FullAt(c, budgets, host, used, 0, block);
  }

  lemma FullLater(c: Context, budgets: seq<RolloutBudget>, host: string, used: Selector -> nat, i: nat, block: GateBlock)
    requires budgets != [] && !IsFull(c, budgets[0], host, used) && FullAt(c, budgets[1..], host, used, i, block)
    ensures FullAt(c, budgets, host, used, i + 1, block)
  {
    assert budgets[i + 1] == budgets[1..][i];
    forall j | 0 <= j < i + 1 ensures !IsFull(c, budgets[j], host, used) {
      if j > 0 { assert budgets[1..][j - 1] == budgets[j]; }
    }
  }

  lemma {:induction false} FullIff(c: Context, budgets: seq<RolloutBudget>, host: string, tick: Tick, used: Selector -> nat)
    requires forall s :: used(s) == TickCount(tick, s)
    ensures var full := FirstFullBudget(c.fleetState, budgets, host, tick);
            && (full.None? ==> forall b :: b in budgets ==> !IsFull(c, b, host, used))
            && (full.Some? ==> exists i: nat :: FullAt(c, budgets, host, used, i, full.value))
  {
    if budgets != [] {
      FullIff(c, budgets[1..], host, tick, used);
      InFlightIsOccupied(c.fleetState, budgets[0].selector);
      assert budgets == [budgets[0]] + budgets[1..];
      if IsFull(c, budgets[0], host, used) {
        var block := FirstFullBudget(c.fleetState, budgets, host, tick).value;
        FullHere(c, budgets, host, used, block);
      } else if FirstFullBudget(c.fleetState, budgets[1..], host, tick).Some? {
        var block := FirstFullBudget(c.fleetState, budgets[1..], host, tick).value;
        var i: nat :| FullAt(c, budgets[1..], host, used, i, block);
        FullLater(c, budgets, host, used, i, block);
      }
    }
  }

  lemma ComplyIff(c: Context, host: string, rollout: string)
    ensures CheckCompliance(c, host, rollout).None? <==> EarlierWavesComply(c, rollout, host)
    ensures match CheckCompliance(c, host, rollout)
            case None => true
            case Some(ComplianceWave(failing, wave)) => failing > 0 && IsFirstWave(WavesFor(c, host), host, wave)
            case _ => false
  {
    var waves := WavesFor(c, host);
    if WavePosition(waves, host).Some? {
      var wave := WavePosition(waves, host).value;
      assert IsFirstWave(waves, host, wave) && forall w: nat :: IsFirstWave(waves, host, w) ==> w == wave;
      if rollout in c.fleetState.outstanding {
        var failing := c.fleetState.outstanding[rollout];
        FailingBeforeZeroIff(waves, wave, failing);
        forall j, h | 0 <= j < wave && h in waves[j].hosts
          ensures FailsIn(c, rollout, h) <==> h in failing && failing[h] != 0
        {}
        if FailingBefore(waves, wave, failing) != 0 {
          var j, h :| 0 <= j < wave && h in waves[j].hosts && h in failing && failing[h] != 0;
          assert FailsIn(c, rollout, h);
        }
      }
    }
  }

  // ----- All gates

  lemma EarlyVerdict(c: Context, rollout: string, host: string, closure: string, channel: string, used: Selector -> nat)
    ensures match CheckEarly(c, rollout, host, closure, channel)
            case None =>
              && NotQuarantined(c, channel, closure) && PredecessorsDone(c, channel)
              && WaveReached(c, rollout, host) && LeadersDone(c, rollout, host)
            case Some(block) => Refuses(c, rollout, host, closure, channel, used, block)
  {
    ChannelEdgeIff(c, c.manifests.fleet.channelEdges, channel);
    WaveIff(c, host, rollout);
    HostEdgeIff(c, c.manifests.fleet.edges, host, rollout);
  }

  /**
   The gates let a host through exactly when it meets all six conditions; otherwise they name the first one it
   fails, with the culprit.
   */
  lemma EvaluateIs(c: Context, rollout: string, host: string, closure: string, channel: string, tick: Tick,
                   used: Selector -> nat)
    requires forall s :: used(s) == TickCount(tick, s)
    ensures match Evaluate(c, rollout, host, closure, channel, tick)
            case None => MayDispatch(c, rollout, host, closure, channel, used)
            case Some(block) => Refuses(c, rollout, host, closure, channel, used, block)
  {
    EarlyVerdict(c, rollout, host, closure, channel, used);
    if rollout in c.fleetState.rollouts {
      var budgets := c.fleetState.rollouts[rollout].budgets;
      FullIff(c, budgets, host, tick, used);
      assert forall i: nat, block :: FullAt(c, budgets, host, used, i, block) ==> FirstFull(c, rollout, host, used, i);
    }
    ComplyIff(c, host, rollout);
  }

  /** A refusal is never for nothing. */
  lemma RefusedMayNot(c: Context, rollout: string, host: string, closure: string, channel: string,
                      used: Selector -> nat, block: GateBlock)
    requires Refuses(c, rollout, host, closure, channel, used, block)
    ensures !MayDispatch(c, rollout, host, closure, channel, used)
  {
    match block
    case ChannelEdges(p) =>
      var i: nat :| FirstOpenEdge(c, channel, i) && p == c.manifests.fleet.channelEdges[i].gates;
      assert c.manifests.fleet.channelEdges[i] in c.manifests.fleet.channelEdges;
    case HostEdge(leader) =>
      var i: nat :| FirstLeader(c, rollout, host, i) && leader == c.manifests.fleet.edges[i].gates;
      assert c.manifests.fleet.edges[i] in c.manifests.fleet.edges;
    case OverBudget(_, _, s) =>
      var budgets := c.fleetState.rollouts[rollout].budgets;
      var i: nat :| FirstFull(c, rollout, host, used, i);
      assert budgets[i] in budgets;
    case _ =>
  }
}
