/** Projecting one channel of the signed fleet into its rollout manifest, and the ids that follow from it. */
module Manifest {
  import opened Wrappers
  import opened Fleet
  import RolloutIds
  import Text

  datatype ProjectError = ChannelMissing(channel: string) | PolicyMissing(policy: string) | FleetUnsigned

  // ----- Sorting by name

  ghost predicate Ascending(names: seq<string>) {
    forall i, j :: 0 <= i < j < |names| ==> Text.Less(names[i], names[j])
  }

  lemma AscendingTail(names: seq<string>)
    requires Ascending(names) && names != []
    ensures Ascending(names[1..]) && names[0] !in names[1..]
  {
    if names[0] in names[1..] {
      var i :| 0 <= i < |names[1..]| && names[1..][i] == names[0];
      assert Text.Less(names[0], names[i + 1]);
      Text.LessIrreflexive(names[0]);
    }
  }

  lemma AscendingPrepend(first: string, names: seq<string>)
    requires Ascending(names) && forall n :: n in names ==> Text.Less(first, n)
    ensures Ascending([first] + names)
  {}

  /** A set of names has one ascending listing. */
  lemma {:induction false} AscendingIsUnique(a: seq<string>, b: seq<string>)
    requires Ascending(a) && Ascending(b)
    requires forall n :: n in a <==> n in b
    ensures a == b
    decreases |a|
  {
    assert forall i :: 0 <= i < |a| ==> a[i] in b;
    assert forall i :: 0 <= i < |b| ==> b[i] in a;
    if a != [] && b != [] {
      if a[0] != b[0] {
        FirstIsLeast(a, b[0]);
        FirstIsLeast(b, a[0]);
        Text.LessTransitive(a[0], b[0], a[0]);
        Text.LessIrreflexive(a[0]);
      }
      AscendingTail(a);
      AscendingTail(b);
      assert a == [a[0]] + a[1..] && b == [b[0]] + b[1..];
      assert forall n :: n in a[1..] <==> n in a && n != a[0];
      assert forall n :: n in b[1..] <==> n in b && n != b[0];
      AscendingIsUnique(a[1..], b[1..]);
    }
  }

  lemma FirstIsLeast(names: seq<string>, n: string)
    requires Ascending(names) && names != [] && n in names && n != names[0]
    ensures Text.Less(names[0], n)
  {}

  function InsertName(name: string, names: seq<string>): (r: seq<string>)
    ensures forall n :: n in r <==> n == name || n in names
    decreases |names|
  {
    if names == [] || Text.Less(name, names[0]) then [name] + names
    else
      var tail := InsertName(name, names[1..]);
      assert names == [names[0]] + names[1..];
      [names[0]] + tail
  }

  lemma {:induction false} InsertKeepsAscending(name: string, names: seq<string>)
    requires Ascending(names) && name !in names
    ensures Ascending(InsertName(name, names))
    decreases |names|
  {
    if names == [] {
    } else if Text.Less(name, names[0]) {
      forall n | n in names ensures Text.Less(name, n) {
        if n != names[0] {
          FirstIsLeast(names, n);
          Text.LessTransitive(name, names[0], n);
        }
      }
      AscendingPrepend(name, names);
    } else {
      AscendingTail(names);
      InsertKeepsAscending(name, names[1..]);
      Text.LessTotal(name, names[0]);
      forall n | n in InsertName(name, names[1..]) ensures Text.Less(names[0], n) {
        if n != name { FirstIsLeast(names, n); }
      }
      AscendingPrepend(names[0], InsertName(name, names[1..]));
    }
  }

  /** The library sort on distinct names. */
  function Sorted(names: seq<string>): (r: seq<string>)
    ensures forall n :: n in r <==> n in names
    decreases |names|
  {
    if names == [] then []
    else
      assert names == [names[0]] + names[1..];
      InsertName(names[0], Sorted(names[1..]))
  }

  ghost predicate Distinct(names: seq<string>) {
    forall i, j :: 0 <= i < j < |names| ==> names[i] != names[j]
  }

  lemma {:induction false} SortedAscends(names: seq<string>)
    requires Distinct(names)
    ensures Ascending(Sorted(names))
    decreases |names|
  {
    if names != [] {
      SortedAscends(names[1..]);
      InsertKeepsAscending(names[0], Sorted(names[1..]));
    }
  }

  // ----- What a projection is

  /** Hosts of the channel that have a closure. */
  predicate Carries(fleet: FleetResolved, channel: string, name: string) {
    name in fleet.hosts && fleet.hosts[name].channel == channel && fleet.hosts[name].closureHash.Some?
  }

  /** The first wave that names the host; 0 when none does, or the channel has no waves. */
  function WaveIndex(fleet: FleetResolved, channel: string, name: string): nat {
    if channel in fleet.waves then WavePosition(fleet.waves[channel], name).GetOr(0) else 0
  }

  function Names(hostSet: seq<HostWave>): (r: seq<string>)
    ensures |r| == |hostSet| && forall i :: 0 <= i < |r| ==> r[i] == hostSet[i].hostname
    decreases |hostSet|
  {
    if hostSet == [] then [] else [hostSet[0].hostname] + Names(hostSet[1..])
  }

  ghost predicate IsHostSet(fleet: FleetResolved, channel: string, hostSet: seq<HostWave>) {
    && Ascending(Names(hostSet))
    && (forall name :: name in Names(hostSet) <==> Carries(fleet, channel, name))
    && forall i :: 0 <= i < |hostSet| ==> hostSet[i] == Entry(fleet, channel, hostSet[i].hostname)
  }

  function Entry(fleet: FleetResolved, channel: string, name: string): HostWave {
    HostWave(name, WaveIndex(fleet, channel, name),
             if name in fleet.hosts then fleet.hosts[name].closureHash.GetOr("") else "")
  }

  ghost predicate IsFrozen(fleet: FleetResolved, declared: DisruptionBudget, frozen: RolloutBudget) {
    && frozen.selector == declared.selector
    && frozen.maxInFlight == declared.maxInFlight && frozen.maxInFlightPct == declared.maxInFlightPct
    && Ascending(frozen.hosts)
    && forall name :: name in frozen.hosts <==>
                      name in fleet.hosts && Matches(declared.selector, name, fleet.hosts[name])
  }

  ghost predicate AllFrozen(fleet: FleetResolved, budgets: seq<RolloutBudget>, n: nat)
    requires n <= |fleet.disruptionBudgets|
  {
    |budgets| == n && forall i :: 0 <= i < n ==> IsFrozen(fleet, fleet.disruptionBudgets[i], budgets[i])
  }

  function ShortCommit(ciCommit: Option<string>): string {
    match ciCommit
    case Some(commit) => if |commit| <= 8 then commit else commit[..8]
    case None => "unknown"
  }

  ghost predicate IsProjection(
    fleet: FleetResolved, channel: string, hash: string, signedAt: Instant, ciCommit: Option<string>, algorithm: string,
    m: RolloutManifest)
  {
    && channel in fleet.channels && fleet.channels[channel].rolloutPolicy in fleet.rolloutPolicies
    && IsHostSet(fleet, channel, m.hostSet) && m.hostSet != []
    && AllFrozen(fleet, m.disruptionBudgets, |fleet.disruptionBudgets|)
    && m.healthGate == fleet.rolloutPolicies[fleet.channels[channel].rolloutPolicy].healthGate
    && m == RolloutManifest(
              1, channel + "@" + ShortCommit(ciCommit), channel, ciCommit.GetOr(""), hash, m.hostSet, m.healthGate,
              m.disruptionBudgets, Meta(1, Some(signedAt), ciCommit, Some(algorithm)))
  }

  /** Which of the outcomes applies, and the manifest itself when there is one. */
  ghost predicate IsOutcome(
    fleet: FleetResolved, channel: string, hash: string, signedAt: Instant, ciCommit: Option<string>, algorithm: string,
    r: Result<Option<RolloutManifest>, ProjectError>)
  {
    if channel !in fleet.channels then r == Failure(ChannelMissing(channel))
    else if fleet.channels[channel].rolloutPolicy !in fleet.rolloutPolicies then
      r == Failure(PolicyMissing(fleet.channels[channel].rolloutPolicy))
    else if forall name :: name in fleet.hosts ==> !Carries(fleet, channel, name) then r == Success(None)
    else r.Success? && r.value.Some? && IsProjection(fleet, channel, hash, signedAt, ciCommit, algorithm, r.value.value)
  }

  // ----- Canonical form

  lemma HostSetIsUnique(fleet: FleetResolved, channel: string, a: seq<HostWave>, b: seq<HostWave>)
    requires IsHostSet(fleet, channel, a) && IsHostSet(fleet, channel, b)
    ensures a == b
  {
    AscendingIsUnique(Names(a), Names(b));
    assert |a| == |Names(a)| == |b|;
    forall i | 0 <= i < |a| ensures a[i] == b[i] {
      assert Names(a)[i] == a[i].hostname && Names(b)[i] == b[i].hostname;
    }
  }

  lemma FrozenIsUnique(fleet: FleetResolved, declared: DisruptionBudget, a: RolloutBudget, b: RolloutBudget)
    requires IsFrozen(fleet, declared, a) && IsFrozen(fleet, declared, b)
    ensures a == b
  {
    AscendingIsUnique(a.hosts, b.hosts);
  }

  /** Whatever order the hosts map lists its entries in, the manifest is the same, field for field. */
  lemma ProjectionIsCanonical(
    fleet: FleetResolved, channel: string, hash: string, signedAt: Instant, ciCommit: Option<string>, algorithm: string,
    a: RolloutManifest, b: RolloutManifest)
    requires IsProjection(fleet, channel, hash, signedAt, ciCommit, algorithm, a)
    requires IsProjection(fleet, channel, hash, signedAt, ciCommit, algorithm, b)
    ensures a == b
  {
    HostSetIsUnique(fleet, channel, a.hostSet, b.hostSet);
    var x, y := a.disruptionBudgets, b.disruptionBudgets;
    forall i | 0 <= i < |x| ensures x[i] == y[i] {
      FrozenIsUnique(fleet, fleet.disruptionBudgets[i], x[i], y[i]);
    }
    assert x == y;
  }

  // ----- What each selector rule freezes

  predicate AllTagsOn(s: Selector, host: Host) {
    |s.tags| > 0 && forall i :: 0 <= i < |s.tags| ==> s.tags[i] in host.tags
  }

  predicate SomeTagOn(s: Selector, host: Host) {
    exists i :: 0 <= i < |s.tagsAny| && s.tagsAny[i] in host.tags
  }

  /** Everybody, the host's own name, its channel, tags it has all of, or tags it has one of. */
  predicate NamedBy(s: Selector, name: string, host: Host) {
    s.all || name in s.hosts || s.channel == Some(host.channel) || AllTagsOn(s, host) || SomeTagOn(s, host)
  }

  /** The frozen list holds exactly the known hosts that one of the five rules names. */
  ghost predicate FreezesExactly(fleet: FleetResolved, s: Selector, hosts: seq<string>) {
    forall name :: name in hosts <==> name in fleet.hosts && NamedBy(s, name, fleet.hosts[name])
  }

  lemma MatchesIff(s: Selector, name: string, host: Host)
    ensures Matches(s, name, host) <==> NamedBy(s, name, host)
  {
    assert AllTagsOn(s, host) <==> s.tags != [] && forall t :: t in s.tags ==> t in host.tags;
    if t :| t in s.tagsAny && t in host.tags {
      var i :| 0 <= i < |s.tagsAny| && s.tagsAny[i] == t;
      assert SomeTagOn(s, host);
    }
  }

  lemma FrozenByRule(fleet: FleetResolved, declared: DisruptionBudget, frozen: RolloutBudget)
    requires IsFrozen(fleet, declared, frozen)
    ensures FreezesExactly(fleet, declared.selector, frozen.hosts)
  {
    forall name | name in fleet.hosts
      ensures Matches(declared.selector, name, fleet.hosts[name]) <==> NamedBy(declared.selector, name, fleet.hosts[name])
    {
      MatchesIff(declared.selector, name, fleet.hosts[name]);
    }
  }

  // ----- A manifest, field by field

  /** Wave `w` is the first to name the host; a host that no wave names is in wave 0. */
  ghost predicate StagedIn(waves: seq<Wave>, name: string, w: nat) {
    && (forall i :: 0 <= i < w && i < |waves| ==> name !in waves[i].hosts)
    && ((w < |waves| && name in waves[w].hosts) || (w == 0 && forall i :: 0 <= i < |waves| ==> name !in waves[i].hosts))
  }

  /** A host of the channel, its closure, and its first wave. */
  ghost predicate Staged(fleet: FleetResolved, channel: string, h: HostWave) {
    && h.hostname in fleet.hosts && fleet.hosts[h.hostname].channel == channel
    && fleet.hosts[h.hostname].closureHash == Some(h.targetClosure)
    && StagedIn(if channel in fleet.waves then fleet.waves[channel] else [], h.hostname, h.waveIndex)
  }

  /** One entry, in ascending order, for each built host of the channel, with its closure and its first wave. */
  ghost predicate StagesExactly(fleet: FleetResolved, channel: string, hostSet: seq<HostWave>) {
    && (forall i, j :: 0 <= i < j < |hostSet| ==> Text.Less(hostSet[i].hostname, hostSet[j].hostname))
    && (forall i :: 0 <= i < |hostSet| ==> Staged(fleet, channel, hostSet[i]))
    && forall name :: name in fleet.hosts && fleet.hosts[name].channel == channel && fleet.hosts[name].closureHash.Some? ==>
         exists i :: 0 <= i < |hostSet| && hostSet[i].hostname == name
  }

  lemma EntryByField(fleet: FleetResolved, channel: string, name: string)
    requires Carries(fleet, channel, name)
    ensures var h := Entry(fleet, channel, name);
            && h.hostname == name && fleet.hosts[name].closureHash == Some(h.targetClosure)
            && StagedIn(if channel in fleet.waves then fleet.waves[channel] else [], name, h.waveIndex)
  {}

  lemma StagedByField(fleet: FleetResolved, channel: string, hostSet: seq<HostWave>)
    requires IsHostSet(fleet, channel, hostSet)
    ensures StagesExactly(fleet, channel, hostSet)
  {
    var names := Names(hostSet);
    forall i | 0 <= i < |hostSet| ensures Staged(fleet, channel, hostSet[i]) {
      assert names[i] in names;
      EntryByField(fleet, channel, hostSet[i].hostname);
    }
    forall i, j | 0 <= i < j < |hostSet| ensures Text.Less(hostSet[i].hostname, hostSet[j].hostname) {
      assert Text.Less(names[i], names[j]);
    }
    forall name | name in fleet.hosts && fleet.hosts[name].channel == channel && fleet.hosts[name].closureHash.Some?
      ensures exists i :: 0 <= i < |hostSet| && hostSet[i].hostname == name
    {
      assert Carries(fleet, channel, name);
      var i :| 0 <= i < |names| && names[i] == name;
      assert hostSet[i].hostname == name;
    }
  }

  /** The frozen budgets keep order, selector and caps. */
  ghost predicate FreezesAll(fleet: FleetResolved, budgets: seq<RolloutBudget>) {
    && |budgets| == |fleet.disruptionBudgets|
    && forall i :: 0 <= i < |budgets| ==>
         var declared := fleet.disruptionBudgets[i];
         && budgets[i].selector == declared.selector
         && budgets[i].maxInFlight == declared.maxInFlight && budgets[i].maxInFlightPct == declared.maxInFlightPct
         && Ascending(budgets[i].hosts) && FreezesExactly(fleet, declared.selector, budgets[i].hosts)
  }

  /** The commit cut to eight characters, if there is one. */
  predicate Shortened(ciCommit: Option<string>, short: string) {
    if ciCommit.None? then short == "unknown"
    else short <= ciCommit.value && |short| <= 8 && (|short| < 8 ==> short == ciCommit.value)
  }

  /** What a manifest says of its channel, each field against the fleet's own. */
  lemma ProjectionByField(
    fleet: FleetResolved, channel: string, hash: string, signedAt: Instant, ciCommit: Option<string>, algorithm: string,
    m: RolloutManifest)
    returns (short: string)
    requires IsProjection(fleet, channel, hash, signedAt, ciCommit, algorithm, m)
    ensures StagesExactly(fleet, channel, m.hostSet) && m.hostSet != []
    ensures FreezesAll(fleet, m.disruptionBudgets)
    ensures m.displayName == channel + "@" + short && Shortened(ciCommit, short)
    ensures m.channel == channel && m.channelRef == (if ciCommit.Some? then ciCommit.value else "")
    ensures m.fleetResolvedHash == hash && m.schemaVersion == 1
    ensures m.healthGate == fleet.rolloutPolicies[fleet.channels[channel].rolloutPolicy].healthGate
    ensures m.meta == Meta(1, Some(signedAt), ciCommit, Some(algorithm))
  {
    short := ShortCommit(ciCommit);
    StagedByField(fleet, channel, m.hostSet);
    var budgets := m.disruptionBudgets;
    forall i | 0 <= i < |budgets| ensures FreezesExactly(fleet, fleet.disruptionBudgets[i].selector, budgets[i].hosts) {
      FrozenByRule(fleet, fleet.disruptionBudgets[i], budgets[i]);
    }
  }

  // ----- Projecting

  /** `Selector::resolve`, then sort. */
  method FreezeBudget(fleet: FleetResolved, declared: DisruptionBudget) returns (frozen: RolloutBudget)
    ensures IsFrozen(fleet, declared, frozen)
    ensures FreezesExactly(fleet, declared.selector, frozen.hosts)
  {
    var hosts: seq<string> := [];
    var left := fleet.hosts.Keys;
    while left != {}
      invariant left <= fleet.hosts.Keys
      invariant Distinct(hosts)
      invariant forall n :: n in hosts <==>
                            n in fleet.hosts && n !in left && Matches(declared.selector, n, fleet.hosts[n])
      decreases left
    {
      var name :| name in left;
      left := left - {name};
      if Matches(declared.selector, name, fleet.hosts[name]) { hosts := hosts + [name]; }
    }
    SortedAscends(hosts);
    frozen := RolloutBudget(declared.selector, Sorted(hosts), declared.maxInFlight, declared.maxInFlightPct);
    FrozenByRule(fleet, declared, frozen);
  }

  /** Entries of the given names, in their order. */
  function Entries(fleet: FleetResolved, channel: string, names: seq<string>): (r: seq<HostWave>)
    ensures Names(r) == names
    ensures forall i :: 0 <= i < |r| ==> r[i] == Entry(fleet, channel, names[i])
    decreases |names|
  {
    if names == [] then [] else [Entry(fleet, channel, names[0])] + Entries(fleet, channel, names[1..])
  }

  method CollectHosts(fleet: FleetResolved, channel: string) returns (hostSet: seq<HostWave>)
    ensures IsHostSet(fleet, channel, hostSet)
  {
    var names: seq<string> := [];
    var left := fleet.hosts.Keys;
    while left != {}
      invariant left <= fleet.hosts.Keys
      invariant Distinct(names)
      invariant forall n :: n in names <==> Carries(fleet, channel, n) && n !in left
      decreases left
    {
      var name :| name in left;
      left := left - {name};
      if Carries(fleet, channel, name) { names := names + [name]; }
    }
    SortedAscends(names);
    hostSet := Entries(fleet, channel, Sorted(names));
  }

  method ProjectManifest(
    fleet: FleetResolved, channel: string, hash: string, signedAt: Instant, ciCommit: Option<string>, algorithm: string)
    returns (r: Result<Option<RolloutManifest>, ProjectError>)
    ensures IsOutcome(fleet, channel, hash, signedAt, ciCommit, algorithm, r)
  {
    if channel !in fleet.channels { return Failure(ChannelMissing(channel)); }
    var policyName := fleet.channels[channel].rolloutPolicy;
    if policyName !in fleet.rolloutPolicies { return Failure(PolicyMissing(policyName)); }
    var hostSet := CollectHosts(fleet, channel);
    if hostSet == [] {
      assert forall name :: name in fleet.hosts && Carries(fleet, channel, name) ==> name in Names(hostSet);
      return Success(None);
    }
    assert Names(hostSet)[0] in Names(hostSet);
    var budgets: seq<RolloutBudget> := [];
    for i := 0 to |fleet.disruptionBudgets|
      invariant AllFrozen(fleet, budgets, i)
    {
      var frozen := FreezeBudget(fleet, fleet.disruptionBudgets[i]);
      budgets := budgets + [frozen];
    }
    r := Success(Some(RolloutManifest(
      1, channel + "@" + ShortCommit(ciCommit), channel, ciCommit.GetOr(""), hash, hostSet,
      fleet.rolloutPolicies[policyName].healthGate, budgets, Meta(1, Some(signedAt), ciCommit, Some(algorithm)))));
  }

  // ----- Rollout ids of a fleet snapshot

  /** The channel yields a manifest. */
  predicate Projects(fleet: FleetResolved, channel: string) {
    && fleet.meta.signedAt.Some? && channel in fleet.channels
    && fleet.channels[channel].rolloutPolicy in fleet.rolloutPolicies
    && exists name :: name in fleet.hosts && Carries(fleet, channel, name)
  }

  function IdOf(fleet: FleetResolved, channel: string): string {
    RolloutIds.New(channel, fleet.meta.ciCommit.GetOr(""))
  }

  method ComputeRolloutId(fleet: FleetResolved, hash: string, channel: string)
    returns (r: Result<Option<string>, ProjectError>)
    ensures r.Success? && r.value.Some? <==> Projects(fleet, channel)
    ensures Projects(fleet, channel) ==> r.value == Some(IdOf(fleet, channel))
    ensures fleet.meta.signedAt.None? ==> r == Failure(FleetUnsigned)
  {
    if fleet.meta.signedAt.None? { return Failure(FleetUnsigned); }
    var m := ProjectManifest(fleet, channel, hash, fleet.meta.signedAt.value, fleet.meta.ciCommit,
                             fleet.meta.signatureAlgorithm.GetOr("ed25519"));
    match m {
      case Failure(e) => r := Failure(e);
      case Success(None) => r := Success(None);
      case Success(Some(manifest)) => r := Success(Some(RolloutIds.New(manifest.channel, manifest.channelRef)));
    }
  }

  ghost predicate IsIdFrom(fleet: FleetResolved, channels: set<string>, id: string) {
    exists channel :: channel in channels && Projects(fleet, channel) && id == IdOf(fleet, channel)
  }

  /** Channels that fail to project are dropped, not reported. */
  method CurrentRolloutIds(fleet: FleetResolved, hash: string) returns (ids: set<string>)
    ensures forall id :: id in ids <==> IsIdFrom(fleet, fleet.channels.Keys, id)
  {
    ids := {};
    var left := fleet.channels.Keys;
    while left != {}
      invariant left <= fleet.channels.Keys
      invariant forall id :: id in ids <==> IsIdFrom(fleet, fleet.channels.Keys - left, id)
      decreases left
    {
      var channel :| channel in left;
      left := left - {channel};
      var r := ComputeRolloutId(fleet, hash, channel);
      if r.Success? && r.value.Some? { ids := ids + {r.value.value}; }
    }
    assert forall id :: IsIdFrom(fleet, fleet.channels.Keys - {}, id) <==> IsIdFrom(fleet, fleet.channels.Keys, id);
  }

  ghost function ProjectingChannels(fleet: FleetResolved): set<string> {
    set channel | channel in fleet.channels && Projects(fleet, channel)
  }

  lemma {:induction false} OneIdEach(fleet: FleetResolved, channels: set<string>, ids: set<string>)
    requires forall channel :: channel in channels ==> '@' !in channel && Projects(fleet, channel)
    requires forall id :: id in ids <==> IsIdFrom(fleet, channels, id)
    ensures |ids| == |channels|
    decreases |channels|
  {
    if channels == {} {
      assert ids == {};
    } else {
      var channel :| channel in channels;
      var id := IdOf(fleet, channel);
      var rest := channels - {channel};
      assert IsIdFrom(fleet, channels, id);
      forall other | other in ids - {id} ensures IsIdFrom(fleet, rest, other) {
        var c :| c in channels && Projects(fleet, c) && other == IdOf(fleet, c);
        assert c in rest;
      }
      forall other | IsIdFrom(fleet, rest, other) ensures other in ids - {id} {
        var c :| c in rest && Projects(fleet, c) && other == IdOf(fleet, c);
        assert IsIdFrom(fleet, channels, other);
        if other == id { RolloutIds.Injective(c, fleet.meta.ciCommit.GetOr(""), channel, fleet.meta.ciCommit.GetOr("")); }
      }
      OneIdEach(fleet, rest, ids - {id});
    }
  }

  /** Exactly one id for each channel that projects. */
  lemma IdsCountChannels(fleet: FleetResolved, ids: set<string>)
    requires forall channel :: channel in fleet.channels ==> '@' !in channel
    requires forall id :: id in ids <==> IsIdFrom(fleet, fleet.channels.Keys, id)
    ensures |ids| == |ProjectingChannels(fleet)|
  {
    forall id ensures id in ids <==> IsIdFrom(fleet, ProjectingChannels(fleet), id) {
      if id in ids {
        var c :| c in fleet.channels.Keys && Projects(fleet, c) && id == IdOf(fleet, c);
        assert c in ProjectingChannels(fleet);
      }
      if IsIdFrom(fleet, ProjectingChannels(fleet), id) {
        var c :| c in ProjectingChannels(fleet) && Projects(fleet, c) && id == IdOf(fleet, c);
        assert c in fleet.channels.Keys;
      }
    }
    OneIdEach(fleet, ProjectingChannels(fleet), ids);
  }

  lemma HostSetExists(fleet: FleetResolved, channel: string) returns (hostSet: seq<HostWave>)
    ensures IsHostSet(fleet, channel, hostSet)
  {
    var names := ListOf(set name | name in fleet.hosts && Carries(fleet, channel, name));
    SortedAscends(names);
    hostSet := Entries(fleet, channel, Sorted(names));
  }

  /** A host with a closure whose channel and policy are declared. */
  predicate Deployable(fleet: FleetResolved, name: string) {
    && name in fleet.hosts && fleet.hosts[name].closureHash.Some?
    && fleet.hosts[name].channel in fleet.channels
    && fleet.channels[fleet.hosts[name].channel].rolloutPolicy in fleet.rolloutPolicies
  }

  /** The manifests of a signed fleet: one for each channel that projects. */
  ghost predicate AllProjected(fleet: FleetResolved, hash: string, algorithm: string,
                               manifests: map<string, RolloutManifest>)
  {
    && fleet.meta.signedAt.Some? && manifests.Keys == ProjectingChannels(fleet)
    && forall channel :: channel in manifests ==>
         IsProjection(fleet, channel, hash, fleet.meta.signedAt.value, fleet.meta.ciCommit, algorithm, manifests[channel])
  }

  /**
   The manifests of a fleet partition its deployable hosts: each of them is in the host set of exactly one
   manifest, its own channel's, and no other host is in any.
   */
  lemma HostSetsPartition(
    fleet: FleetResolved, hash: string, algorithm: string, manifests: map<string, RolloutManifest>, name: string)
    requires AllProjected(fleet, hash, algorithm, manifests)
    ensures Deployable(fleet, name) <==> exists channel :: channel in manifests && name in Names(manifests[channel].hostSet)
    ensures Deployable(fleet, name) ==>
              var own := fleet.hosts[name].channel; own in manifests && name in Names(manifests[own].hostSet)
    ensures forall channel :: channel in manifests && name in Names(manifests[channel].hostSet) ==>
              name in fleet.hosts && channel == fleet.hosts[name].channel
  {
    forall channel | channel in manifests
      ensures name in Names(manifests[channel].hostSet) <==> Carries(fleet, channel, name)
    {}
    if Deployable(fleet, name) {
      var channel := fleet.hosts[name].channel;
      assert Carries(fleet, channel, name) && Projects(fleet, channel);
      assert channel in manifests;
    }
    forall channel | channel in manifests && Carries(fleet, channel, name) ensures Deployable(fleet, name) {
      assert Projects(fleet, channel);
    }
  }
}
