/**
 What the map order may change. Every order of the loops decides the same hosts; which of them are queued,
 within one tick and over several ticks without an acknowledgement, is settled here.
 */
module Ticks {
  import opened Wrappers
  import opened Fleet
  import opened Gates
  import opened Planner

  // ----- Hosts a tick could queue

  /** Every capped budget of the rollout that holds the host has room before the tick. */
  predicate HasRoom(c: Context, key: Key)
    requires key.0 in c.fleetState.rollouts
  {
    forall b | b in c.fleetState.rollouts[key.0].budgets ::
      key.1 in b.hosts && b.maxInFlight.Some? ==> InFlight(c.fleetState, b.selector) < b.maxInFlight.value
  }

  ghost predicate IsPlaceable(c: Context, key: Key) {
    key in c.fleetState.hostStates && Cleared(c, key) && HasRoom(c, key)
  }

  ghost function Placeable(c: Context): set<Key> {
    set key | key in c.fleetState.hostStates && IsPlaceable(c, key)
  }

  predicate Under(c: Context, s: Selector, key: Key) {
    HeldBy(c, s, key.0, key.1)
  }

  ghost function PlaceableUnder(c: Context, s: Selector): set<Key> {
    set key | key in Placeable(c) && Under(c, s, key)
  }

  function QueuedKeys(actions: seq<PlanAction>): set<Key> {
    set a | a in actions && a.QueueDispatch? :: KeyOf(a)
  }

  /** Exactly when the gates let an eligible host through, given what the tick dispatched so far. */
  lemma PassesIff(c: Context, key: Key, tick: Tick)
    requires Eligible(c, key)
    ensures GateFor(c, key, tick).None? <==>
            && Cleared(c, key)
            && forall b :: b in c.fleetState.rollouts[key.0].budgets && key.1 in b.hosts && b.maxInFlight.Some? ==>
                             InFlight(c.fleetState, b.selector) + TickCount(tick, b.selector) < b.maxInFlight.value
  {
    BudgetPassesIff(c.fleetState, c.fleetState.rollouts[key.0].budgets, key.1, tick);
  }

  lemma VisitAppends(c: Context, acc: Acc, key: Key) returns (a: PlanAction)
    requires Eligible(c, key)
    ensures Visit(c, acc, key).actions == acc.actions + [a] && KeyOf(a) == key && !a.OpenRollout?
    ensures a.QueueDispatch? <==> GateFor(c, key, acc.tick).None?
  {
    var next := Visit(c, acc, key).actions;
    a := next[|acc.actions|];
  }

  lemma VisitQueues(c: Context, acc: Acc, key: Key)
    ensures QueuedKeys(Visit(c, acc, key).actions) ==
            QueuedKeys(acc.actions) + if Eligible(c, key) && GateFor(c, key, acc.tick).None? then {key} else {}
  {
    if Eligible(c, key) {
      var a := VisitAppends(c, acc, key);
      QueuedAppend(acc.actions, a);
    }
  }

  lemma QueuedAppend(actions: seq<PlanAction>, a: PlanAction)
    ensures QueuedKeys(actions + [a]) == QueuedKeys(actions) + if a.QueueDispatch? then {KeyOf(a)} else {}
  {
    assert forall x :: x in actions + [a] <==> x in actions || x == a;
  }

  lemma LastIsNew(order: seq<Key>)
    requires NoRepeats(order) && order != []
    ensures var front, last := order[..|order| - 1], order[|order| - 1];
            NoRepeats(front) && last !in front && forall key :: key in order <==> key in front || key == last
  {
    assert order == order[..|order| - 1] + [order[|order| - 1]];
  }

  /** No order queues a host that has no place of its own. */
  lemma {:induction false} QueuedArePlaceable(c: Context, order: seq<Key>)
    ensures forall key :: key in QueuedKeys(Walk(c, order).actions) ==> key in order && IsPlaceable(c, key)
    decreases |order|
  {
    if order != [] {
      var front, last := order[..|order| - 1], order[|order| - 1];
      QueuedArePlaceable(c, front);
      VisitQueues(c, Walk(c, front), last);
      if Eligible(c, last) { PassesIff(c, last, Walk(c, front).tick); }
      assert forall key :: key in front ==> key in order;
    }
  }

  /** The host visited first is queued if it has a place at all, and is the first one decided. */
  lemma {:induction false} FirstIsServed(c: Context, order: seq<Key>)
    requires order != [] && Eligible(c, order[0])
    ensures var actions := Walk(c, order).actions;
            && actions != [] && KeyOf(actions[0]) == order[0]
            && (IsPlaceable(c, order[0]) ==> order[0] in QueuedKeys(actions))
    decreases |order|
  {
    var front, last := order[..|order| - 1], order[|order| - 1];
    VisitQueues(c, Walk(c, front), last);
    VisitDecides(c, Walk(c, front), last);
    if front == [] {
      PassesIff(c, last, map[]);
    } else {
      FirstIsServed(c, front);
      var before, after := Walk(c, front).actions, Walk(c, order).actions;
      assert after[..|before|] == before;
    }
  }

  // ----- Orders with a given host first

  lemma JoinGroups(a: seq<Key>, b: seq<Key>, rollout: string)
    requires NoRepeats(a) && NoRepeats(b) && Grouped(b)
    requires forall key :: key in a ==> key.0 == rollout
    requires forall key :: key in b ==> key.0 != rollout
    ensures NoRepeats(a + b) && Grouped(a + b)
  {
    var order := a + b;
    forall i | 0 <= i < |order|
      ensures i < |a| ==> order[i] == a[i] && order[i].0 == rollout
      ensures i >= |a| ==> order[i] == b[i - |a|] && order[i].0 != rollout
    {
      if i < |a| { assert a[i] in a; } else { assert b[i - |a|] in b; }
    }
    forall i, j | 0 <= i < j < |order| ensures order[i] != order[j] {}
    forall i, j, k | 0 <= i < j < k < |order| && order[i].0 == order[k].0 ensures order[j].0 == order[i].0 {}
  }

  function OpenKeys(c: Context, rollout: string): set<Key> {
    set key | key in c.fleetState.hostStates && IsOpen(c, key.0) && key.0 == rollout
  }

  lemma {:induction false} ListGroups(c: Context, rollouts: set<string>) returns (order: seq<Key>)
    ensures NoRepeats(order) && Grouped(order)
    ensures forall key :: key in order <==> key in c.fleetState.hostStates && IsOpen(c, key.0) && key.0 in rollouts
    decreases |rollouts|
  {
    if rollouts == {} {
      order := [];
    } else {
      var rollout :| rollout in rollouts;
      var rest := ListGroups(c, rollouts - {rollout});
      var group := ListOf(OpenKeys(c, rollout));
      JoinGroups(group, rest, rollout);
      order := group + rest;
    }
  }

  /** The loops may start with any host of any open rollout. */
  lemma OrderStartingWith(c: Context, first: Key) returns (order: seq<Key>)
    requires first in c.fleetState.hostStates && IsOpen(c, first.0)
    ensures LoopOrder(c, order) && order != [] && order[0] == first
  {
    var rest := ListGroups(c, c.fleetState.rollouts.Keys - {first.0});
    var others := ListOf(OpenKeys(c, first.0) - {first});
    var group := [first] + others;
    JoinGroups(group, rest, first.0);
    order := group + rest;
  }

  // ----- Several ticks

  ghost predicate QueuedIn(c: Context, ticks: seq<seq<Key>>, key: Key) {
    exists i :: 0 <= i < |ticks| && key in QueuedKeys(Walk(c, ticks[i]).actions)
  }

  /** The hosts under a selector that some tick queued; nothing is acknowledged, so every tick sees the same fleet. */
  ghost function QueuedUnder(c: Context, s: Selector, ticks: seq<seq<Key>>): set<Key> {
    set key | key in c.fleetState.hostStates && Under(c, s, key) && QueuedIn(c, ticks, key)
  }

  ghost predicate AreTicks(c: Context, ticks: seq<seq<Key>>) {
    forall i :: 0 <= i < |ticks| ==> LoopOrder(c, ticks[i])
  }

  /** Acknowledging all of them would respect the cap, if any was queued at all. */
  ghost predicate Within(c: Context, s: Selector, m: nat, keys: set<Key>) {
    keys == {} || InFlight(c.fleetState, s) + |keys| <= m
  }

  lemma SubsetIsSmaller<T>(a: set<T>, b: set<T>)
    requires a <= b
    ensures |a| <= |b|
  {
    if a != {} {
      var x :| x in a;
      SubsetIsSmaller(a - {x}, b - {x});
    }
  }

  lemma TicksQueuePlaceable(c: Context, s: Selector, ticks: seq<seq<Key>>)
    ensures QueuedUnder(c, s, ticks) <= PlaceableUnder(c, s)
  {
    forall key | key in QueuedUnder(c, s, ticks) ensures key in PlaceableUnder(c, s) {
      var i :| 0 <= i < |ticks| && key in QueuedKeys(Walk(c, ticks[i]).actions);
      QueuedArePlaceable(c, ticks[i]);
    }
  }

  /** Some ticks, one for each host, that between them queue all of the given hosts. */
  lemma {:induction false} TicksQueueing(c: Context, keys: set<Key>) returns (ticks: seq<seq<Key>>)
    requires keys <= Placeable(c)
    ensures AreTicks(c, ticks) && forall key :: key in keys ==> QueuedIn(c, ticks, key)
    decreases |keys|
  {
    if keys == {} {
      ticks := [];
    } else {
      var key :| key in keys;
      var rest := TicksQueueing(c, keys - {key});
      var order := OrderStartingWith(c, key);
      FirstIsServed(c, order);
      ticks := [order] + rest;
      TicksPrepend(c, order, rest);
    }
  }

  lemma TicksPrepend(c: Context, order: seq<Key>, rest: seq<seq<Key>>)
    ensures LoopOrder(c, order) && AreTicks(c, rest) ==> AreTicks(c, [order] + rest)
    ensures forall key :: QueuedIn(c, rest, key) || key in QueuedKeys(Walk(c, order).actions) ==>
                            QueuedIn(c, [order] + rest, key)
  {
    var ticks := [order] + rest;
    assert ticks[0] == order && forall i :: 0 <= i < |rest| ==> ticks[i + 1] == rest[i];
    forall key | QueuedIn(c, rest, key) ensures QueuedIn(c, ticks, key) {
      var i :| 0 <= i < |rest| && key in QueuedKeys(Walk(c, rest[i]).actions);
      assert key in QueuedKeys(Walk(c, ticks[i + 1]).actions);
    }
  }

  /**
   Exactly when a cap outlives the tick: over any number of ticks without an acknowledgement, in any
   orders, the hosts queued under a selector fit beside those in flight iff all hosts that could be
   queued under it fit at once.
   */
  lemma TicksWithinCapIff(c: Context, s: Selector, m: nat)
    ensures (forall ticks :: AreTicks(c, ticks) ==> Within(c, s, m, QueuedUnder(c, s, ticks)))
            <==> Within(c, s, m, PlaceableUnder(c, s))
  {
    if Within(c, s, m, PlaceableUnder(c, s)) {
      forall ticks | AreTicks(c, ticks) ensures Within(c, s, m, QueuedUnder(c, s, ticks)) {
        TicksQueuePlaceable(c, s, ticks);
        SubsetIsSmaller(QueuedUnder(c, s, ticks), PlaceableUnder(c, s));
      }
    } else {
      var ticks := TicksQueueing(c, PlaceableUnder(c, s));
      TicksQueuePlaceable(c, s, ticks);
      assert QueuedUnder(c, s, ticks) == PlaceableUnder(c, s);
    }
  }

  // ----- One tick, any order

  /** Selector `s` is capped at `m` somewhere in an open rollout. */
  ghost predicate Capped(c: Context, s: Selector, m: nat) {
    exists id, b :: id in c.fleetState.rollouts && IsOpen(c, id) && b in c.fleetState.rollouts[id].budgets
                    && b.selector == s && b.maxInFlight == Some(m)
  }

  /** Rollouts that share a capped selector agree on its cap, and none lists it twice for one host. */
  ghost predicate CapsAreClear(c: Context) {
    forall s, m :: Capped(c, s, m) ==> CapAgreed(c, s, m) && ListedOnce(c, s)
  }

  /** Under each cap there is room for every host that could be queued. */
  ghost predicate EverythingFits(c: Context) {
    forall s, m :: Capped(c, s, m) ==> Within(c, s, m, PlaceableUnder(c, s))
  }

  ghost function KeysUnder(c: Context, s: Selector, keys: set<Key>): set<Key> {
    set key | key in keys && Under(c, s, key)
  }

  /** The planner's count of dispatches is the number of hosts queued. */
  lemma {:induction false} DispatchedIsCount(c: Context, s: Selector, order: seq<Key>)
    requires NoRepeats(order)
    ensures Dispatched(c, s, Walk(c, order).actions) == |KeysUnder(c, s, QueuedKeys(Walk(c, order).actions))|
    decreases |order|
  {
    if order == [] {
      assert KeysUnder(c, s, QueuedKeys([])) == {};
    } else {
      var front, last := order[..|order| - 1], order[|order| - 1];
      DispatchedIsCount(c, s, front);
      QueuedArePlaceable(c, front);
      LastIsNew(order);
      VisitCounts(c, s, Walk(c, front), last);
    }
  }

  lemma VisitCounts(c: Context, s: Selector, acc: Acc, key: Key)
    requires key !in QueuedKeys(acc.actions)
    requires Dispatched(c, s, acc.actions) == |KeysUnder(c, s, QueuedKeys(acc.actions))|
    ensures var next := Visit(c, acc, key).actions;
            Dispatched(c, s, next) == |KeysUnder(c, s, QueuedKeys(next))|
  {
    if Eligible(c, key) {
      var a := VisitAppends(c, acc, key);
      AppendCounts(c, s, acc.actions, a);
    }
  }

  lemma AppendCounts(c: Context, s: Selector, actions: seq<PlanAction>, a: PlanAction)
    requires a.QueueDispatch? ==> KeyOf(a) !in QueuedKeys(actions)
    requires Dispatched(c, s, actions) == |KeysUnder(c, s, QueuedKeys(actions))|
    ensures Dispatched(c, s, actions + [a]) == |KeysUnder(c, s, QueuedKeys(actions + [a]))|
  {
    DispatchedAppend(c, s, actions, a);
    QueuedAppend(actions, a);
    if a.QueueDispatch? {
      KeysUnderGrows(c, s, QueuedKeys(actions), KeyOf(a));
    } else {
      assert QueuedKeys(actions + [a]) == QueuedKeys(actions);
    }
  }

  lemma KeysUnderGrows(c: Context, s: Selector, keys: set<Key>, key: Key)
    requires key !in keys
    ensures |KeysUnder(c, s, keys + {key})| == |KeysUnder(c, s, keys)| + if Under(c, s, key) then 1 else 0
  {
    if Under(c, s, key) {
      assert KeysUnder(c, s, keys + {key}) == KeysUnder(c, s, keys) + {key};
    } else {
      assert KeysUnder(c, s, keys + {key}) == KeysUnder(c, s, keys);
    }
  }

  lemma RoomUnder(c: Context, front: seq<Key>, key: Key, s: Selector, m: nat)
    requires CapAgreed(c, s, m) && ListedOnce(c, s) && Within(c, s, m, PlaceableUnder(c, s))
    requires NoRepeats(front) && key !in front && key in PlaceableUnder(c, s)
    ensures InFlight(c.fleetState, s) + TickCount(Walk(c, front).tick, s) < m
  {
    QueuedArePlaceable(c, front);
    DeferralMeansFull(c, front, s, m);
    DispatchedIsCount(c, s, front);
    var queued := KeysUnder(c, s, QueuedKeys(Walk(c, front).actions));
    SubsetIsSmaller(queued + {key}, PlaceableUnder(c, s));
  }

  /** With room for all, a host that could be queued is queued whenever it is visited. */
  lemma RoomWhenVisited(c: Context, front: seq<Key>, key: Key)
    requires CapsAreClear(c) && EverythingFits(c) && NoRepeats(front) && key !in front && IsPlaceable(c, key)
    ensures GateFor(c, key, Walk(c, front).tick).None?
  {
    var tick := Walk(c, front).tick;
    forall b | b in c.fleetState.rollouts[key.0].budgets && key.1 in b.hosts && b.maxInFlight.Some?
      ensures InFlight(c.fleetState, b.selector) + TickCount(tick, b.selector) < b.maxInFlight.value
    {
      assert Capped(c, b.selector, b.maxInFlight.value);
      RoomUnder(c, front, key, b.selector, b.maxInFlight.value);
    }
    PassesIff(c, key, tick);
  }

  lemma {:induction false} AllPlaced(c: Context, order: seq<Key>)
    requires CapsAreClear(c) && EverythingFits(c) && NoRepeats(order)
    ensures forall key :: key in QueuedKeys(Walk(c, order).actions) <==> key in order && IsPlaceable(c, key)
    decreases |order|
  {
    if order != [] {
      var front, last := order[..|order| - 1], order[|order| - 1];
      AllPlaced(c, front);
      LastIsNew(order);
      VisitQueues(c, Walk(c, front), last);
      if IsPlaceable(c, last) { RoomWhenVisited(c, front, last); }
      QueuedArePlaceable(c, order);
    }
  }

  ghost predicate SameQueued(c: Context) {
    forall x, y :: LoopOrder(c, x) && LoopOrder(c, y) ==>
      QueuedKeys(Walk(c, x).actions) == QueuedKeys(Walk(c, y).actions)
  }

  /** If the order never matters, every host that could be queued is queued. */
  lemma SameMeansAll(c: Context, order: seq<Key>)
    requires SameQueued(c) && LoopOrder(c, order)
    ensures QueuedKeys(Walk(c, order).actions) == Placeable(c)
  {
    QueuedArePlaceable(c, order);
    forall key | key in Placeable(c) ensures key in QueuedKeys(Walk(c, order).actions) {
      var other := OrderStartingWith(c, key);
      FirstIsServed(c, other);
    }
  }

  /**
   Exactly when one tick's dispatches do not depend on the map order: iff under each cap all hosts that
   could be queued fit at once. Then every order queues all of them.
   */
  lemma OrderDoesNotMatterIff(c: Context)
    requires CapsAreClear(c)
    ensures SameQueued(c) <==> EverythingFits(c)
    ensures EverythingFits(c) ==>
            forall order :: LoopOrder(c, order) ==> QueuedKeys(Walk(c, order).actions) == Placeable(c)
  {
    if EverythingFits(c) {
      forall order | LoopOrder(c, order) ensures QueuedKeys(Walk(c, order).actions) == Placeable(c) {
        AllPlaced(c, order);
      }
    }
    if SameQueued(c) {
      forall s, m | Capped(c, s, m) ensures Within(c, s, m, PlaceableUnder(c, s)) {
        FullTickFits(c, s, m);
      }
    }
  }

  lemma FullTickFits(c: Context, s: Selector, m: nat)
    requires CapsAreClear(c) && SameQueued(c) && Capped(c, s, m)
    ensures Within(c, s, m, PlaceableUnder(c, s))
  {
    if key :| key in PlaceableUnder(c, s) {
      var order := OrderStartingWith(c, key);
      SameMeansAll(c, order);
      DispatchedIsCount(c, s, order);
      assert KeysUnder(c, s, Placeable(c)) == PlaceableUnder(c, s);
      var b :| b in c.fleetState.rollouts[key.0].budgets && b.selector == s && key.1 in b.hosts;
      assert b.maxInFlight == Some(m);
      BudgetBound(c, order, s, m);
    }
  }

  // ----- The list itself

  ghost predicate SameList(c: Context) {
    forall x, y :: LoopOrder(c, x) && LoopOrder(c, y) ==> Walk(c, x).actions == Walk(c, y).actions
  }

  lemma {:induction false} SoleWalk(c: Context, order: seq<Key>, sole: Key)
    requires NoRepeats(order) && forall key :: key in order && Eligible(c, key) ==> key == sole
    ensures Walk(c, order) == if sole in order then Visit(c, Acc(map[], []), sole) else Acc(map[], [])
    decreases |order|
  {
    if order != [] {
      var front, last := order[..|order| - 1], order[|order| - 1];
      LastIsNew(order);
      SoleWalk(c, front, sole);
    }
  }

  /** As a list the decisions are the same for every order exactly when at most one host is to be decided. */
  lemma OneListIff(c: Context)
    ensures SameList(c) <==> |EligibleKeys(c)| <= 1
  {
    if |EligibleKeys(c)| <= 1 {
      var sole := SoleElement(EligibleKeys(c), ("", ""));
      assert forall key :: Eligible(c, key) ==> key in EligibleKeys(c);
      forall x, y | LoopOrder(c, x) && LoopOrder(c, y) ensures Walk(c, x).actions == Walk(c, y).actions {
        SoleWalk(c, x, sole);
        SoleWalk(c, y, sole);
        assert forall key :: key in x <==> key in y;
      }
    } else {
      var k, l := TwoElements(EligibleKeys(c));
      var x := OrderStartingWith(c, k);
      var y := OrderStartingWith(c, l);
      FirstIsServed(c, x);
      FirstIsServed(c, y);
      assert KeyOf(Walk(c, x).actions[0]) != KeyOf(Walk(c, y).actions[0]);
    }
  }

  lemma SoleElement<T>(keys: set<T>, default: T) returns (sole: T)
    requires |keys| <= 1
    ensures forall key :: key in keys ==> key == sole
    ensures sole == default || sole in keys
  {
    sole := default;
    if key :| key in keys {
      sole := key;
      var rest := keys - {key};
      assert keys == rest + {key} && |rest| == 0;
      assert forall other :: other in keys && other != key ==> other in rest;
    }
  }

  lemma TwoElements<T>(keys: set<T>) returns (k: T, l: T)
    requires |keys| > 1
    ensures k in keys && l in keys && k != l
  {
    k :| k in keys;
    var rest := keys - {k};
    assert keys == rest + {k} && |rest| > 0;
    l :| l in rest;
  }

  // ----- The whole tick

  ghost predicate MayReturn(c: Context, actions: seq<PlanAction>) {
    exists opens, order :: IsTick(c, opens, order, actions)
  }

  ghost predicate OneAnswer(c: Context) {
    forall x, y :: MayReturn(c, x) && MayReturn(c, y) ==> x == y
  }

  lemma {:induction false} ListActions(actions: set<PlanAction>) returns (list: seq<PlanAction>)
    ensures multiset(list) == multiset(actions)
    decreases |actions|
  {
    if actions == {} {
      list := [];
    } else {
      var a :| a in actions;
      var rest := ListActions(actions - {a});
      list := [a] + rest;
      assert multiset(actions) == multiset(actions - {a}) + multiset{a};
    }
  }

  lemma ListStartingWith(actions: set<PlanAction>, first: PlanAction) returns (list: seq<PlanAction>)
    requires first in actions
    ensures multiset(list) == multiset(actions) && list != [] && list[0] == first
  {
    var rest := ListActions(actions - {first});
    list := [first] + rest;
    assert multiset(actions) == multiset(actions - {first}) + multiset{first};
  }

  lemma ShortListIsUnique(actions: set<PlanAction>, a: seq<PlanAction>, b: seq<PlanAction>)
    requires |actions| <= 1 && multiset(a) == multiset(actions) == multiset(b)
    ensures a == b
  {
    assert |multiset(a)| == |a| && |multiset(b)| == |b|;
    if a != [] {
      assert a[0] in multiset(a) && b[0] in multiset(b);
      var sole := SoleElement(actions, a[0]);
      assert a[0] in actions && b[0] in actions;
    }
  }

  lemma TickReturns(c: Context, opens: seq<PlanAction>, order: seq<Key>)
    requires LoopOrder(c, order) && multiset(opens) == multiset(OpenSet(c))
    ensures MayReturn(c, opens + Walk(c, order).actions)
  {
    assert IsTick(c, opens, order, opens + Walk(c, order).actions);
  }

  lemma SmallTickIsOne(c: Context, x: seq<PlanAction>, y: seq<PlanAction>)
    requires SameList(c) && |OpenSet(c)| <= 1 && MayReturn(c, x) && MayReturn(c, y)
    ensures x == y
  {
    var opensX, orderX :| IsTick(c, opensX, orderX, x);
    var opensY, orderY :| IsTick(c, opensY, orderY, y);
    ShortListIsUnique(OpenSet(c), opensX, opensY);
  }

  lemma OneAnswerOneList(c: Context, x: seq<Key>, y: seq<Key>)
    requires OneAnswer(c) && LoopOrder(c, x) && LoopOrder(c, y)
    ensures Walk(c, x).actions == Walk(c, y).actions
  {
    var opens := ListActions(OpenSet(c));
    TickReturns(c, opens, x);
    TickReturns(c, opens, y);
    var one, two := opens + Walk(c, x).actions, opens + Walk(c, y).actions;
    assert one[|opens|..] == Walk(c, x).actions && two[|opens|..] == Walk(c, y).actions;
  }

  /** A tick returns the same list for every map order exactly when it opens and decides at most one thing each. */
  lemma OneAnswerIff(c: Context)
    ensures OneAnswer(c) <==> |EligibleKeys(c)| <= 1 && |OpenSet(c)| <= 1
  {
    OneListIff(c);
    if |EligibleKeys(c)| <= 1 && |OpenSet(c)| <= 1 {
      forall x, y | MayReturn(c, x) && MayReturn(c, y) ensures x == y { SmallTickIsOne(c, x, y); }
    }
    if OneAnswer(c) {
      forall x, y | LoopOrder(c, x) && LoopOrder(c, y) ensures Walk(c, x).actions == Walk(c, y).actions {
        OneAnswerOneList(c, x, y);
      }
      if |OpenSet(c)| > 1 { TwoOpensDiffer(c); }
    }
  }

  lemma TwoOpensDiffer(c: Context)
    requires |OpenSet(c)| > 1
    ensures !OneAnswer(c)
  {
    var a, b := TwoElements(OpenSet(c));
    var order := ListGroups(c, c.fleetState.rollouts.Keys);
    assert LoopOrder(c, order);
    var x := ListStartingWith(OpenSet(c), a);
    var y := ListStartingWith(OpenSet(c), b);
    var decisions := Walk(c, order).actions;
    TickReturns(c, x, order);
    TickReturns(c, y, order);
    assert (x + decisions)[0] == a && (y + decisions)[0] == b;
  }
}
