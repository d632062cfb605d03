/**
 One planner tick. It opens rollouts for manifests that have none, then walks the pending hosts of the
 open rollouts, in whatever order the maps list them, and queues or defers each one.
 */
module Planner {
  import opened Wrappers
  import opened Fleet
  import opened Gates
  import HM = HostMachine
  import RolloutIds
  import opened Verdicts

  datatype PlanAction =
    | OpenRollout(rolloutId: string, channel: string, targetRef: string)
    | QueueDispatch(host: string, rollout: string, targetClosure: string, soakDueAt: Instant)
    | DeferDispatch(host: string, rollout: string, block: GateBlock)

  // ----- Opening

  function ManifestId(m: SignedManifestSet, channel: string): string
    requires channel in m.rollouts
  {
    RolloutIds.New(channel, m.rollouts[channel].channelRef)
  }

  /** One open for each channel whose advertised rollout is unknown. */
  function OpenSet(c: Context): set<PlanAction> {
    set channel | channel in c.manifests.rollouts && ManifestId(c.manifests, channel) !in c.fleetState.rollouts ::
      OpenRollout(ManifestId(c.manifests, channel), channel, c.manifests.rollouts[channel].channelRef)
  }

  method PlanOpens(c: Context) returns (actions: seq<PlanAction>)
    ensures multiset(actions) == multiset(OpenSet(c))
  {
    actions := [];
    ghost var done: set<PlanAction> := {};
    var channels := c.manifests.rollouts.Keys;
    while channels != {}
      invariant channels <= c.manifests.rollouts.Keys
      invariant forall a :: a in done <==> a in OpenSet(c) && a.channel !in channels
      invariant multiset(actions) == multiset(done)
      decreases channels
    {
      var channel :| channel in channels;
      channels := channels - {channel};
      var manifest := c.manifests.rollouts[channel];
      var id := RolloutIds.New(channel, manifest.channelRef);
      if id !in c.fleetState.rollouts {
        var open := OpenRollout(id, channel, manifest.channelRef);
        assert open !in done;
        assert multiset(done + {open}) == multiset(done) + multiset{open};
        actions := actions + [open];
        done := done + {open};
      }
    }
    assert done == OpenSet(c);
  }

  // ----- One host

  datatype Acc = Acc(tick: Tick, actions: seq<PlanAction>)

  /** Count a dispatch against every budget of the rollout that holds the host. */
  function Bump(tick: Tick, budgets: seq<RolloutBudget>, host: string): Tick
    decreases |budgets|
  {
    if budgets == [] then tick
    else
      var b := budgets[0];
      Bump(if host in b.hosts then tick[b.selector := TickCount(tick, b.selector) + 1] else tick, budgets[1..], host)
  }

  predicate IsOpen(c: Context, rollout: string) {
    rollout in c.fleetState.rollouts && c.fleetState.rollouts[rollout].terminalAt.None?
  }

  /** Pending, not yet acknowledged, in an open rollout. */
  predicate Eligible(c: Context, key: Key) {
    && key in c.fleetState.hostStates
    && IsOpen(c, key.0)
    && c.fleetState.hostStates[key].state.Pending?
    && c.fleetState.hostStates[key].dispatchAckedAt.None?
  }

  function GateFor(c: Context, key: Key, tick: Tick): Option<GateBlock>
    requires Eligible(c, key)
  {
    Evaluate(c, key.0, key.1, c.fleetState.hostStates[key].targetClosure,
             c.fleetState.rollouts[key.0].channel, tick)
  }

  function Visit(c: Context, acc: Acc, key: Key): Acc {
    if !Eligible(c, key) then acc
    else
      var s := c.fleetState.hostStates[key];
      match GateFor(c, key, acc.tick)
      case Some(block) => acc.(actions := acc.actions + [DeferDispatch(key.1, key.0, block)])
      case None =>
        Acc(Bump(acc.tick, c.fleetState.rollouts[key.0].budgets, key.1),
            acc.actions + [QueueDispatch(key.1, key.0, s.targetClosure, s.soakDueAt.GetOr(c.now))])
  }

  function Walk(c: Context, order: seq<Key>): Acc {
    if order == [] then Acc(map[], [])
    else Visit(c, Walk(c, order[..|order| - 1]), order[|order| - 1])
  }

  lemma WalkExtends(c: Context, order: seq<Key>, key: Key)
    ensures Walk(c, order + [key]) == Visit(c, Walk(c, order), key)
  {
    assert (order + [key])[..|order|] == order;
  }

  predicate NoRepeats(order: seq<Key>) {
    forall i, j :: 0 <= i < j < |order| ==> order[i] != order[j]
  }

  /** The host states of every open rollout, each once. */
  ghost predicate IsOrder(c: Context, order: seq<Key>) {
    NoRepeats(order) && forall key :: key in order <==> key in c.fleetState.hostStates && IsOpen(c, key.0)
  }

  /** The loops finish one rollout before they start the next. */
  ghost predicate Grouped(order: seq<Key>) {
    forall i, j, k :: 0 <= i < j < k < |order| && order[i].0 == order[k].0 ==> order[j].0 == order[i].0
  }

  /** The orders in which the two loops can visit the host states. */
  ghost predicate LoopOrder(c: Context, order: seq<Key>) {
    IsOrder(c, order) && Grouped(order)
  }

  lemma GroupedAppend(order: seq<Key>, key: Key)
    requires Grouped(order)
    requires forall i, j :: 0 <= i < j < |order| && order[i].0 == key.0 ==> order[j].0 == key.0
    ensures Grouped(order + [key])
    ensures forall i, j :: 0 <= i < j < |order + [key]| && (order + [key])[i].0 == key.0 ==> (order + [key])[j].0 == key.0
  {}

  function KeyOf(a: PlanAction): Key {
    match a
    case OpenRollout(id, channel, _) => (id, channel)
    case QueueDispatch(host, rollout, _, _) => (rollout, host)
    case DeferDispatch(host, rollout, _) => (rollout, host)
  }

  /**
   The dispatch loops: open rollouts outside, their host states inside. The actions are those of walking
   an order that visits exactly the host states of open rollouts, one rollout after the other.
   */
  method PlanDispatches(c: Context) returns (actions: seq<PlanAction>)
    ensures exists order :: LoopOrder(c, order) && actions == Walk(c, order).actions
    ensures Decisions(c, actions)
  {
    actions := [];
    ghost var order: seq<Key> := [];
    var tick: Tick := map[];
    var rollouts := c.fleetState.rollouts.Keys;
    while rollouts != {}
      invariant rollouts <= c.fleetState.rollouts.Keys
      invariant NoRepeats(order) && Grouped(order)
      invariant forall key :: key in order <==>
                  key in c.fleetState.hostStates && IsOpen(c, key.0) && key.0 !in rollouts
      invariant Walk(c, order) == Acc(tick, actions)
      decreases rollouts
    {
      var rollout :| rollout in rollouts;
      rollouts := rollouts - {rollout};
      var summary := c.fleetState.rollouts[rollout];
      if summary.terminalAt.None? {
        var keys := c.fleetState.hostStates.Keys;
        assert forall i :: 0 <= i < |order| ==> order[i] in order;
        while keys != {}
          invariant keys <= c.fleetState.hostStates.Keys
          invariant NoRepeats(order) && Grouped(order)
          invariant forall i, j :: 0 <= i < j < |order| && order[i].0 == rollout ==> order[j].0 == rollout
          invariant forall key :: key in order <==>
                      key in c.fleetState.hostStates && IsOpen(c, key.0) && key.0 !in rollouts
                      && (key.0 == rollout ==> key !in keys)
          invariant Walk(c, order) == Acc(tick, actions)
          decreases keys
        {
          var key :| key in keys;
          keys := keys - {key};
          if key.0 == rollout {
            assert key !in order;
            WalkExtends(c, order, key);
            GroupedAppend(order, key);
            order := order + [key];
            var s := c.fleetState.hostStates[key];
            if s.state.Pending? && s.dispatchAckedAt.None? {
              var block := Evaluate(c, rollout, key.1, s.targetClosure, summary.channel, tick);
              if block.Some? {
                actions := actions + [DeferDispatch(key.1, rollout, block.value)];
              } else {
                tick := Bump(tick, summary.budgets, key.1);
                actions := actions + [QueueDispatch(key.1, rollout, s.targetClosure, s.soakDueAt.GetOr(c.now))];
              }
            }
          }
        }
      }
    }
    assert LoopOrder(c, order);
    OrderDecides(c, order);
  }

  // ----- Exactly one decision for each eligible host

  function EligibleKeys(c: Context): set<Key> {
    set key | key in c.fleetState.hostStates && Eligible(c, key)
  }

  function Keys(actions: seq<PlanAction>): seq<Key> {
    seq(|actions|, i requires 0 <= i < |actions| => KeyOf(actions[i]))
  }

  /** One visit decides an eligible host and touches nothing else. */
  lemma VisitDecides(c: Context, acc: Acc, key: Key)
    ensures if !Eligible(c, key) then Visit(c, acc, key) == acc
            else
              var next := Visit(c, acc, key).actions;
              && |next| == |acc.actions| + 1 && next[..|acc.actions|] == acc.actions
              && KeyOf(next[|acc.actions|]) == key && !next[|acc.actions|].OpenRollout?
  {
  }

  lemma KeysAppend(actions: seq<PlanAction>, a: PlanAction)
    ensures Keys(actions + [a]) == Keys(actions) + [KeyOf(a)]
  {
  }

  ghost function DecidedKeys(c: Context, order: seq<Key>): set<Key> {
    set key | key in order && Eligible(c, key)
  }

  lemma DecidedExtends(c: Context, front: seq<Key>, last: Key)
    requires NoRepeats(front + [last])
    ensures if Eligible(c, last)
            then multiset(DecidedKeys(c, front + [last])) == multiset(DecidedKeys(c, front)) + multiset{last}
            else DecidedKeys(c, front + [last]) == DecidedKeys(c, front)
  {
    var order := front + [last];
    assert forall i :: 0 <= i < |front| ==> order[i] == front[i];
    assert order[|front|] == last;
    assert last !in front;
    if Eligible(c, last) {
      assert DecidedKeys(c, order) == DecidedKeys(c, front) + {last};
    }
  }

  lemma {:induction false} WalkDecidesOnce(c: Context, order: seq<Key>)
    requires NoRepeats(order)
    ensures multiset(Keys(Walk(c, order).actions)) == multiset(DecidedKeys(c, order))
    ensures forall a :: a in Walk(c, order).actions ==> !a.OpenRollout?
  {
    if order == [] {
      assert DecidedKeys(c, order) == {};
    } else {
      var front, last := order[..|order| - 1], order[|order| - 1];
      assert order == front + [last];
      WalkDecidesOnce(c, front);
      VisitDecides(c, Walk(c, front), last);
      DecidedExtends(c, front, last);
      if Eligible(c, last) {
        var before, after := Walk(c, front).actions, Walk(c, order).actions;
        assert after == before + [after[|before|]];
        KeysAppend(before, after[|before|]);
      }
    }
  }

  /**
   Exact planning: for every order of the maps, each pending unacknowledged host of an open rollout gets
   exactly one decision, queue or defer, and no other host gets any.
   */
  lemma PlanIsExact(c: Context, order: seq<Key>)
    requires IsOrder(c, order)
    ensures multiset(Keys(Walk(c, order).actions)) == multiset(EligibleKeys(c))
  {
    WalkDecidesOnce(c, order);
    assert DecidedKeys(c, order) == EligibleKeys(c);
  }

  // ----- The budget bound

  /** Some budget of the rollout with this selector holds the host. */
  predicate HeldBy(c: Context, s: Selector, rollout: string, host: string) {
    rollout in c.fleetState.rollouts &&
      exists b :: b in c.fleetState.rollouts[rollout].budgets && b.selector == s && host in b.hosts
  }

  /** How many hosts under the selector were queued. */
  function Dispatched(c: Context, s: Selector, actions: seq<PlanAction>): nat {
    if actions == [] then 0
    else
      var a := actions[|actions| - 1];
      Dispatched(c, s, actions[..|actions| - 1])
      + if a.QueueDispatch? && HeldBy(c, s, a.rollout, a.host) then 1 else 0
  }

  lemma DispatchedAppend(c: Context, s: Selector, actions: seq<PlanAction>, a: PlanAction)
    ensures Dispatched(c, s, actions + [a]) ==
              Dispatched(c, s, actions) + if a.QueueDispatch? && HeldBy(c, s, a.rollout, a.host) then 1 else 0
  {
    assert (actions + [a])[..|actions|] == actions;
  }

  /** Entries of `budgets` with this selector that hold the host. */
  function Holdings(budgets: seq<RolloutBudget>, s: Selector, host: string): nat {
    if budgets == [] then 0
    else (if budgets[0].selector == s && host in budgets[0].hosts then 1 else 0) + Holdings(budgets[1..], s, host)
  }

  lemma {:induction false} BumpAdds(tick: Tick, budgets: seq<RolloutBudget>, s: Selector, host: string)
    ensures TickCount(Bump(tick, budgets, host), s) == TickCount(tick, s) + Holdings(budgets, s, host)
    decreases |budgets|
  {
    if budgets != [] {
      var b := budgets[0];
      BumpAdds(if host in b.hosts then tick[b.selector := TickCount(tick, b.selector) + 1] else tick,
               budgets[1..], s, host);
    }
  }

  lemma {:induction false} HoldingsPositive(budgets: seq<RolloutBudget>, s: Selector, host: string)
    ensures Holdings(budgets, s, host) > 0 <==> exists b :: b in budgets && b.selector == s && host in b.hosts
  {
    if budgets != [] {
      HoldingsPositive(budgets[1..], s, host);
      assert forall b :: b in budgets <==> b == budgets[0] || b in budgets[1..];
    }
  }

  /** Every budget with this selector, in any open rollout, has the cap `m`. */
  predicate CapAgreed(c: Context, s: Selector, m: nat) {
    forall id :: id in c.fleetState.rollouts && IsOpen(c, id) ==>
      forall b :: b in c.fleetState.rollouts[id].budgets && b.selector == s ==> b.maxInFlight == Some(m)
  }

  /** One visit: the tick counter covers the dispatches, and a dispatch happens only below the cap. */
  lemma VisitWithinCap(c: Context, acc: Acc, key: Key, s: Selector, m: nat)
    requires CapAgreed(c, s, m)
    requires Dispatched(c, s, acc.actions) <= TickCount(acc.tick, s)
    ensures var next := Visit(c, acc, key);
            && Dispatched(c, s, next.actions) <= TickCount(next.tick, s)
            && (Dispatched(c, s, next.actions) > Dispatched(c, s, acc.actions) ==>
                  InFlight(c.fleetState, s) + Dispatched(c, s, next.actions) <= m)
            && Dispatched(c, s, acc.actions) <= Dispatched(c, s, next.actions)
  {
    if Eligible(c, key) {
      var next := Visit(c, acc, key);
      DispatchedAppend(c, s, acc.actions, next.actions[|acc.actions|]);
      if GateFor(c, key, acc.tick).None? {
        var budgets := c.fleetState.rollouts[key.0].budgets;
        BumpAdds(acc.tick, budgets, s, key.1);
        HoldingsPositive(budgets, s, key.1);
        BudgetPassesIff(c.fleetState, budgets, key.1, acc.tick);
      }
    }
  }

  lemma {:induction false} WalkWithinCap(c: Context, order: seq<Key>, s: Selector, m: nat)
    requires CapAgreed(c, s, m)
    ensures Dispatched(c, s, Walk(c, order).actions) <= TickCount(Walk(c, order).tick, s)
    ensures InFlight(c.fleetState, s) + Dispatched(c, s, Walk(c, order).actions)
            <= if m > InFlight(c.fleetState, s) then m else InFlight(c.fleetState, s)
  {
    if order != [] {
      var front := order[..|order| - 1];
      WalkWithinCap(c, front, s, m);
      VisitWithinCap(c, Walk(c, front), order[|order| - 1], s, m);
    }
  }

  /**
   The per-tick budget bound: for every order of the maps, hosts in flight under a selector plus hosts
   queued under it this tick never exceed the larger of the cap and what was in flight already.
   */
  lemma BudgetBound(c: Context, order: seq<Key>, s: Selector, m: nat)
    requires IsOrder(c, order) && CapAgreed(c, s, m)
    ensures InFlight(c.fleetState, s) + Dispatched(c, s, Walk(c, order).actions)
            <= if m > InFlight(c.fleetState, s) then m else InFlight(c.fleetState, s)
  {
    WalkWithinCap(c, order, s, m);
  }

  // ----- The budget is not wasted

  /** No rollout lists the selector twice for one host, so the tick counter counts hosts. */
  ghost predicate ListedOnce(c: Context, s: Selector) {
    forall id, host :: id in c.fleetState.rollouts ==> Holdings(c.fleetState.rollouts[id].budgets, s, host) <= 1
  }

  predicate BlockedBy(a: PlanAction, s: Selector) {
    a.DeferDispatch? && a.block.OverBudget? && a.block.selector == s
  }

  lemma EarlyNeverOverBudget(c: Context, rollout: string, host: string, target: string, channel: string)
    ensures CheckEarly(c, rollout, host, target, channel).Some? ==>
              !CheckEarly(c, rollout, host, target, channel).value.OverBudget?
  {
    ChannelEdgeShape(c, c.manifests.fleet.channelEdges, channel);
    HostEdgeShape(c, c.manifests.fleet.edges, host, rollout);
  }

  lemma {:induction false} ChannelEdgeShape(c: Context, edges: seq<Edge>, channel: string)
    ensures FirstChannelEdge(c, edges, channel).Some? ==> FirstChannelEdge(c, edges, channel).value.ChannelEdges?
  {
    if edges != [] { ChannelEdgeShape(c, edges[1..], channel); }
  }

  lemma {:induction false} HostEdgeShape(c: Context, edges: seq<Edge>, host: string, rollout: string)
    ensures FirstHostEdge(c, edges, host, rollout).Some? ==> FirstHostEdge(c, edges, host, rollout).value.HostEdge?
  {
    if edges != [] { HostEdgeShape(c, edges[1..], host, rollout); }
  }

  lemma VisitCountsExactly(c: Context, acc: Acc, key: Key, s: Selector, m: nat)
    requires CapAgreed(c, s, m) && ListedOnce(c, s)
    requires Dispatched(c, s, acc.actions) == TickCount(acc.tick, s)
    ensures var next := Visit(c, acc, key);
            && Dispatched(c, s, next.actions) == TickCount(next.tick, s)
            && Dispatched(c, s, acc.actions) <= Dispatched(c, s, next.actions)
            && (forall a :: a in next.actions && a !in acc.actions && BlockedBy(a, s) ==>
                  m <= InFlight(c.fleetState, s) + Dispatched(c, s, next.actions))
  {
    if Eligible(c, key) {
      var next := Visit(c, acc, key);
      var a := next.actions[|acc.actions|];
      DispatchedAppend(c, s, acc.actions, a);
      var budgets := c.fleetState.rollouts[key.0].budgets;
      BudgetPassesIff(c.fleetState, budgets, key.1, acc.tick);
      if GateFor(c, key, acc.tick).None? {
        BumpAdds(acc.tick, budgets, s, key.1);
        HoldingsPositive(budgets, s, key.1);
        assert Holdings(budgets, s, key.1) <= 1;
      } else {
        EarlyNeverOverBudget(c, key.0, key.1, c.fleetState.hostStates[key].targetClosure,
                             c.fleetState.rollouts[key.0].channel);
      }
    }
  }

  /**
   The bound is met, not just respected: if any host was deferred for lack of room under a selector, then
   at the end of the tick the selector's cap is used up.
   */
  lemma {:induction false} DeferralMeansFull(c: Context, order: seq<Key>, s: Selector, m: nat)
    requires CapAgreed(c, s, m) && ListedOnce(c, s)
    ensures Dispatched(c, s, Walk(c, order).actions) == TickCount(Walk(c, order).tick, s)
    ensures forall a :: a in Walk(c, order).actions && BlockedBy(a, s) ==>
              m <= InFlight(c.fleetState, s) + Dispatched(c, s, Walk(c, order).actions)
  {
    if order != [] {
      var front := order[..|order| - 1];
      DeferralMeansFull(c, front, s, m);
      VisitCountsExactly(c, Walk(c, front), order[|order| - 1], s, m);
    }
  }

  // ----- What a queued host has passed

  /** Everything the gates that ignore the tick demand of a dispatch. */
  ghost predicate Cleared(c: Context, key: Key) {
    && Eligible(c, key)
    && var target, channel := c.fleetState.hostStates[key].targetClosure, c.fleetState.rollouts[key.0].channel;
       && CheckEarly(c, key.0, key.1, target, channel).None?
       && CheckCompliance(c, key.1, key.0).None?
  }

  lemma {:induction false} QueuedIsCleared(c: Context, order: seq<Key>)
    ensures forall a :: a in Walk(c, order).actions && a.QueueDispatch? ==>
              Cleared(c, KeyOf(a)) && a.targetClosure == c.fleetState.hostStates[KeyOf(a)].targetClosure
  {
    if order != [] {
      var front, last := order[..|order| - 1], order[|order| - 1];
      QueuedIsCleared(c, front);
      var before, after := Walk(c, front).actions, Walk(c, order).actions;
      forall a | a in after && a.QueueDispatch?
        ensures Cleared(c, KeyOf(a)) && a.targetClosure == c.fleetState.hostStates[KeyOf(a)].targetClosure
      {
        if a !in before { assert after == before + [a] && KeyOf(a) == last; }
      }
    }
  }

  lemma {:induction false} ChannelEdgesClear(c: Context, edges: seq<Edge>, channel: string)
    requires FirstChannelEdge(c, edges, channel).None?
    ensures forall e :: e in edges && e.gated == channel ==> !PredecessorActive(c, e.gates)
  {
    if edges != [] { ChannelEdgesClear(c, edges[1..], channel); }
  }

  lemma {:induction false} HostEdgesClear(c: Context, edges: seq<Edge>, host: string, rollout: string)
    requires FirstHostEdge(c, edges, host, rollout).None?
    ensures forall e :: e in edges && e.gated == host && SameChannel(c.manifests.fleet, host, e.gates) ==>
              OrderingEligible(c, rollout, e.gates)
  {
    if edges != [] { HostEdgesClear(c, edges[1..], host, rollout); }
  }

  /**
   What every queued dispatch may rely on: the closure is not quarantined on its channel, every
   predecessor channel's advertised rollout is terminal, the host's wave has been reached, and every
   host it must follow on its channel has converged or is deferred.
   */
  lemma QueuedIsSafe(c: Context, order: seq<Key>, a: PlanAction)
    requires a in Walk(c, order).actions && a.QueueDispatch?
    ensures a.rollout in c.fleetState.rollouts
    ensures var channel := c.fleetState.rollouts[a.rollout].channel;
            && (channel in c.quarantines ==> a.targetClosure !in c.quarantines[channel])
            && (forall e :: e in c.manifests.fleet.channelEdges && e.gated == channel ==>
                  !PredecessorActive(c, e.gates))
    ensures a.host in c.manifests.fleet.hosts ==>
              var channel := c.manifests.fleet.hosts[a.host].channel;
              && (channel in c.manifests.fleet.waves && c.manifests.fleet.waves[channel] != [] ==>
                    var wave := WavePosition(c.manifests.fleet.waves[channel], a.host);
                    wave.Some? && wave.value <= c.fleetState.rollouts[a.rollout].currentWave)
              && (forall e :: e in c.manifests.fleet.edges && e.gated == a.host
                              && SameChannel(c.manifests.fleet, a.host, e.gates) ==>
                    OrderingEligible(c, a.rollout, e.gates))
  {
    QueuedIsCleared(c, order);
    assert Cleared(c, (a.rollout, a.host));
    ChannelEdgesClear(c, c.manifests.fleet.channelEdges, c.fleetState.rollouts[a.rollout].channel);
    if a.host in c.manifests.fleet.hosts {
      HostEdgesClear(c, c.manifests.fleet.edges, a.host, a.rollout);
    }
  }

  // ----- The whole tick

  /** The actions are the opens in some order, then the decisions of some walk. */
  ghost predicate IsTick(c: Context, opens: seq<PlanAction>, order: seq<Key>, actions: seq<PlanAction>) {
    LoopOrder(c, order) && multiset(opens) == multiset(OpenSet(c)) && actions == opens + Walk(c, order).actions
  }

  /** A whole tick also stays within every agreed cap: opening a rollout dispatches nothing. */
  lemma TickWithinCap(c: Context, opens: seq<PlanAction>, order: seq<Key>, actions: seq<PlanAction>, s: Selector, m: nat)
    requires IsTick(c, opens, order, actions) && CapAgreed(c, s, m)
    ensures InFlight(c.fleetState, s) + Dispatched(c, s, actions)
            <= if m > InFlight(c.fleetState, s) then m else InFlight(c.fleetState, s)
  {
    BudgetBound(c, order, s, m);
    forall a | a in opens ensures a.OpenRollout? {
      assert a in multiset(opens);
    }
    DispatchedAfterOpens(c, s, opens, Walk(c, order).actions);
  }

  lemma {:induction false} DispatchedAfterOpens(c: Context, s: Selector, opens: seq<PlanAction>, actions: seq<PlanAction>)
    requires forall a :: a in opens ==> a.OpenRollout?
    ensures Dispatched(c, s, opens + actions) == Dispatched(c, s, actions)
    decreases |actions|, |opens|
  {
    var all := opens + actions;
    if actions != [] {
      var front, last := actions[..|actions| - 1], actions[|actions| - 1];
      DispatchedAfterOpens(c, s, opens, front);
      assert actions == front + [last] && all == (opens + front) + [last];
      DispatchedAppend(c, s, front, last);
      DispatchedAppend(c, s, opens + front, last);
    } else if opens != [] {
      var front, last := opens[..|opens| - 1], opens[|opens| - 1];
      DispatchedAfterOpens(c, s, front, actions);
      assert all == front + [last] && front + actions == front && last in opens;
      DispatchedAppend(c, s, front, last);
    } else {
      assert all == actions;
    }
  }

  // ----- The whole tick, on the context's own fields

  /** What the dispatches so far used of the budgets with a selector: one for each listing that holds the host. */
  function Charged(c: Context, actions: seq<PlanAction>, s: Selector): nat {
    if actions == [] then 0
    else
      var a := actions[|actions| - 1];
      Charged(c, actions[..|actions| - 1], s)
      + if a.QueueDispatch? && a.rollout in c.fleetState.rollouts
        then Holdings(c.fleetState.rollouts[a.rollout].budgets, s, a.host) else 0
  }

  lemma ChargedAppend(c: Context, actions: seq<PlanAction>, a: PlanAction, s: Selector)
    ensures Charged(c, actions + [a], s) == Charged(c, actions, s)
            + if a.QueueDispatch? && a.rollout in c.fleetState.rollouts
              then Holdings(c.fleetState.rollouts[a.rollout].budgets, s, a.host) else 0
  {
    assert (actions + [a])[..|actions|] == actions;
  }

  function UsedBy(c: Context, actions: seq<PlanAction>): Selector -> nat {
    s => Charged(c, actions, s)
  }

  /** Pending, without an acknowledgement, in a rollout that is open. */
  predicate Waiting(c: Context, key: Key) {
    && key in c.fleetState.hostStates && c.fleetState.hostStates[key].state.Pending?
    && c.fleetState.hostStates[key].dispatchAckedAt.None?
    && key.0 in c.fleetState.rollouts && c.fleetState.rollouts[key.0].terminalAt.None?
  }

  /**
   A decision about a waiting host, made after `before`: it is queued, with its own closure and deadline, only
   if it meets every condition; and it is deferred only with the first condition it fails.
   */
  ghost predicate Decides(c: Context, before: seq<PlanAction>, a: PlanAction) {
    match a
    case OpenRollout(_, _, _) => false
    case QueueDispatch(host, rollout, closure, soak) =>
      && Waiting(c, (rollout, host))
      && var s := c.fleetState.hostStates[(rollout, host)];
         && closure == s.targetClosure && soak == (if s.soakDueAt.Some? then s.soakDueAt.value else c.now)
         && MayDispatch(c, rollout, host, closure, c.fleetState.rollouts[rollout].channel, UsedBy(c, before))
    case DeferDispatch(host, rollout, block) =>
      && Waiting(c, (rollout, host))
      && Refuses(c, rollout, host, c.fleetState.hostStates[(rollout, host)].targetClosure,
                 c.fleetState.rollouts[rollout].channel, UsedBy(c, before), block)
  }

  /** Each waiting host is decided once, after those listed before it. */
  ghost predicate Decisions(c: Context, actions: seq<PlanAction>) {
    && AllDecide(c, actions)
    && (forall i, j :: 0 <= i < j < |actions| ==> KeyOf(actions[i]) != KeyOf(actions[j]))
    && forall key :: Waiting(c, key) ==> exists i :: 0 <= i < |actions| && KeyOf(actions[i]) == key
  }

  /** Each channel whose manifest has no rollout yet is opened once. */
  ghost predicate Opens(c: Context, actions: seq<PlanAction>) {
    && (forall a :: a in actions ==>
          && a.OpenRollout? && a.channel in c.manifests.rollouts && a.rolloutId !in c.fleetState.rollouts
          && a.targetRef == c.manifests.rollouts[a.channel].channelRef && a.rolloutId == a.channel + "@" + a.targetRef)
    && (forall i, j :: 0 <= i < j < |actions| ==> actions[i] != actions[j])
    && forall channel :: channel in c.manifests.rollouts
                         && channel + "@" + c.manifests.rollouts[channel].channelRef !in c.fleetState.rollouts ==>
         exists a :: a in actions && a.OpenRollout? && a.channel == channel
  }

  ghost predicate InStep(c: Context, acc: Acc) {
    forall s :: TickCount(acc.tick, s) == UsedBy(c, acc.actions)(s)
  }

  lemma WaitingIsEligible(c: Context, key: Key)
    ensures Waiting(c, key) <==> Eligible(c, key)
  {}

  lemma VisitStaysInStep(c: Context, acc: Acc, key: Key)
    requires InStep(c, acc)
    ensures InStep(c, Visit(c, acc, key))
  {
    if Eligible(c, key) {
      var next := Visit(c, acc, key);
      var a := next.actions[|acc.actions|];
      assert next.actions == acc.actions + [a];
      forall s ensures TickCount(next.tick, s) == UsedBy(c, next.actions)(s) {
        assert TickCount(acc.tick, s) == UsedBy(c, acc.actions)(s);
        ChargedAppend(c, acc.actions, a, s);
        BumpAdds(acc.tick, c.fleetState.rollouts[key.0].budgets, s, key.1);
      }
    }
  }

  /** One visit to a waiting host adds the right decision. */
  lemma VisitDecision(c: Context, acc: Acc, key: Key) returns (a: PlanAction)
    requires InStep(c, acc) && Eligible(c, key)
    ensures Visit(c, acc, key).actions == acc.actions + [a] && Decides(c, acc.actions, a)
  {
    a := Visit(c, acc, key).actions[|acc.actions|];
    WaitingIsEligible(c, key);
    EvaluateIs(c, key.0, key.1, c.fleetState.hostStates[key].targetClosure,
               c.fleetState.rollouts[key.0].channel, acc.tick, UsedBy(c, acc.actions));
  }

  ghost predicate AllDecide(c: Context, actions: seq<PlanAction>) {
    forall i :: 0 <= i < |actions| ==> Decides(c, actions[..i], actions[i])
  }

  lemma AllDecideAppend(c: Context, actions: seq<PlanAction>, a: PlanAction)
    requires AllDecide(c, actions) && Decides(c, actions, a)
    ensures AllDecide(c, actions + [a])
  {
    var longer := actions + [a];
    forall i | 0 <= i < |longer| ensures Decides(c, longer[..i], longer[i]) {
      if i < |actions| { assert longer[..i] == actions[..i] && longer[i] == actions[i]; }
      else { assert longer[..i] == actions; }
    }
  }

  lemma {:induction false} WalkDecides(c: Context, order: seq<Key>)
    ensures InStep(c, Walk(c, order)) && AllDecide(c, Walk(c, order).actions)
  {
    if order != [] {
      var front, last := order[..|order| - 1], order[|order| - 1];
      WalkDecides(c, front);
      VisitStaysInStep(c, Walk(c, front), last);
      if Eligible(c, last) {
        var a := VisitDecision(c, Walk(c, front), last);
        AllDecideAppend(c, Walk(c, front).actions, a);
      }
    }
  }

  lemma DecidedOnce(c: Context, order: seq<Key>)
    requires IsOrder(c, order)
    ensures var actions := Walk(c, order).actions;
            && (forall i, j :: 0 <= i < j < |actions| ==> KeyOf(actions[i]) != KeyOf(actions[j]))
            && forall key :: Waiting(c, key) ==> exists i :: 0 <= i < |actions| && KeyOf(actions[i]) == key
  {
    PlanIsExact(c, order);
    var actions := Walk(c, order).actions;
    var keys := Keys(actions);
    assert forall key :: multiset(EligibleKeys(c))[key] <= 1;
    forall i, j | 0 <= i < j < |actions| ensures KeyOf(actions[i]) != KeyOf(actions[j]) {
      if keys[i] == keys[j] {
        Repeated(keys, i, j);
      }
    }
    forall key | Waiting(c, key) ensures exists i :: 0 <= i < |actions| && KeyOf(actions[i]) == key {
      assert key in multiset(EligibleKeys(c)) && key in multiset(keys) && key in keys;
      var i :| 0 <= i < |keys| && keys[i] == key;
    }
  }

  lemma Repeated<T>(items: seq<T>, i: nat, j: nat)
    requires i < j < |items| && items[i] == items[j]
    ensures multiset(items)[items[i]] >= 2
  {
    assert items == items[..j] + items[j..];
    assert items[..j][i] in multiset(items[..j]) && items[j..][0] in multiset(items[j..]);
  }

  lemma OpenSetOpens(c: Context, opens: seq<PlanAction>)
    requires multiset(opens) == multiset(OpenSet(c))
    ensures Opens(c, opens)
  {
    forall a | a in opens ensures a in OpenSet(c) { assert a in multiset(opens); }
    forall i, j | 0 <= i < j < |opens| ensures opens[i] != opens[j] {
      if opens[i] == opens[j] { Repeated(opens, i, j); }
    }
    forall channel | channel in c.manifests.rollouts
                     && channel + "@" + c.manifests.rollouts[channel].channelRef !in c.fleetState.rollouts
      ensures exists a :: a in opens && a.OpenRollout? && a.channel == channel
    {
      var a := OpenRollout(ManifestId(c.manifests, channel), channel, c.manifests.rollouts[channel].channelRef);
      assert a in OpenSet(c) && a in multiset(opens);
    }
  }

  lemma OrderDecides(c: Context, order: seq<Key>)
    requires IsOrder(c, order)
    ensures Decisions(c, Walk(c, order).actions)
  {
    WalkDecides(c, order);
    DecidedOnce(c, order);
  }

  /** Opens first, then the decisions. */
  ghost predicate IsPlan(c: Context, actions: seq<PlanAction>) {
    exists n :: 0 <= n <= |actions| && Opens(c, actions[..n]) && Decisions(c, actions[n..])
  }

  /** Every tick, whatever the map orders, is such a plan. */
  lemma TickIsPlan(c: Context, opens: seq<PlanAction>, order: seq<Key>, actions: seq<PlanAction>)
    requires IsTick(c, opens, order, actions)
    ensures IsPlan(c, actions)
  {
    OpenSetOpens(c, opens);
    OrderDecides(c, order);
    var n := |opens|;
    assert actions[..n] == opens && actions[n..] == Walk(c, order).actions;
    assert Opens(c, actions[..n]) && Decisions(c, actions[n..]);
  }

  method PlanNext(c: Context) returns (actions: seq<PlanAction>)
    ensures exists opens, order :: IsTick(c, opens, order, actions)
    ensures IsPlan(c, actions)
  {
    var opens := PlanOpens(c);
    var dispatches := PlanDispatches(c);
    ghost var order :| LoopOrder(c, order) && dispatches == Walk(c, order).actions;
    actions := opens + dispatches;
    assert IsTick(c, opens, order, actions);
    TickIsPlan(c, opens, order, actions);
  }
}
