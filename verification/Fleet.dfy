/** The signed fleet description and the per-channel rollout manifests projected from it. */
module Fleet {
  import opened Wrappers
  import HM = HostMachine

  datatype Selector = Selector(
    tags: seq<string>, tagsAny: seq<string>, hosts: seq<string>, channel: Option<string>, all: bool)

  datatype Host = Host(tags: seq<string>, channel: string, closureHash: Option<string>)

  datatype Channel = Channel(rolloutPolicy: string)

  datatype RolloutPolicy = RolloutPolicy(healthGate: string, onHealthFailure: HM.OnHealthFailure)

  datatype Wave = Wave(hosts: seq<string>)

  /** `gated` waits for `gates`. */
  datatype Edge = Edge(gated: string, gates: string)

  datatype DisruptionBudget = DisruptionBudget(
    selector: Selector, maxInFlight: Option<u32>, maxInFlightPct: Option<u32>)

  datatype RolloutBudget = RolloutBudget(
    selector: Selector, hosts: seq<string>, maxInFlight: Option<u32>, maxInFlightPct: Option<u32>)

  datatype Meta = Meta(
    schemaVersion: u32, signedAt: Option<Instant>, ciCommit: Option<string>, signatureAlgorithm: Option<string>)

  datatype FleetResolved = FleetResolved(
    schemaVersion: u32,
    hosts: map<string, Host>,
    channels: map<string, Channel>,
    rolloutPolicies: map<string, RolloutPolicy>,
    waves: map<string, seq<Wave>>,
    edges: seq<Edge>,
    channelEdges: seq<Edge>,
    disruptionBudgets: seq<DisruptionBudget>,
    meta: Meta)

  datatype HostWave = HostWave(hostname: string, waveIndex: nat, targetClosure: string)

  datatype RolloutManifest = RolloutManifest(
    schemaVersion: u32, displayName: string, channel: string, channelRef: string, fleetResolvedHash: string,
    hostSet: seq<HostWave>, healthGate: string, disruptionBudgets: seq<RolloutBudget>, meta: Meta)

  /** Any rule that fires matches: all, host list, channel, all tags, any tag. */
  predicate Matches(s: Selector, name: string, host: Host) {
    || s.all
    || name in s.hosts
    || (s.channel.Some? && host.channel == s.channel.value)
    || (s.tags != [] && forall t :: t in s.tags ==> t in host.tags)
    || (exists t :: t in s.tagsAny && t in host.tags)
  }

  /** Position of the first wave that names the host. */
  function WavePosition(waves: seq<Wave>, host: string): (p: Option<nat>)
    ensures p.Some? ==> p.value < |waves| && host in waves[p.value].hosts
    ensures p.Some? ==> forall i :: 0 <= i < p.value ==> host !in waves[i].hosts
    ensures p.None? ==> forall i :: 0 <= i < |waves| ==> host !in waves[i].hosts
  {
    if waves == [] then None
    else if host in waves[0].hosts then Some(0)
    else
      match WavePosition(waves[1..], host)
      case Some(i) => Some(i + 1)
      case None => None
  }
}
