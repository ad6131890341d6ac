/** The dashboard's picture of the lattice, built from events alone. */
module Dashboard {
  import opened Events
  import opened Options

  datatype ActorInfo = ActorInfo(count: int, status: string)

  datatype ProviderInfo = ProviderInfo(contractId: string, status: string)

  /** Keyed by public key and link name. */
  type Providers = map<(string, string), ProviderInfo>

  datatype HostInfo = HostInfo(
    actors: map<string, ActorInfo>,
    providers: Providers,
    labels: Option<Labels>
  )

  type Hosts = map<string, HostInfo>

  /** An event from a host never heard of starts from an inventory with nothing in it. */
  function HostOf(hosts: Hosts, host: string): HostInfo {
    if host in hosts then hosts[host] else HostInfo(map[], map[], None)
  }

  function AddActor(hosts: Hosts, host: string, pk: string): Hosts {
    var info := HostOf(hosts, host);
    var count := (if pk in info.actors then info.actors[pk].count else 0) + 1;
    hosts[host := info.(actors := info.actors[pk := ActorInfo(count, "Awaiting")])]
  }

  function RemoveActor(hosts: Hosts, host: string, pk: string): Hosts {
    var info := HostOf(hosts, host);
    var actors :=
      if pk !in info.actors then info.actors
      else if info.actors[pk].count == 1 then info.actors - {pk}
      else info.actors[pk := info.actors[pk].(count := info.actors[pk].count - 1)];
    hosts[host := info.(actors := actors)]
  }

  function AddProvider(hosts: Hosts, host: string, pk: string, link: string, contract: string): Hosts {
    var info := HostOf(hosts, host);
    if (pk, link) in info.providers then hosts
    else hosts[host := info.(providers := info.providers[(pk, link) := ProviderInfo(contract, "Awaiting")])]
  }

  function RemoveProvider(hosts: Hosts, host: string, pk: string, link: string): Hosts {
    var info := HostOf(hosts, host);
    hosts[host := info.(providers := info.providers - {(pk, link)})]
  }

  /** An actor of that key takes precedence over a provider; an unknown key changes nothing. */
  function UpdateStatus(hosts: Hosts, host: string, pk: string, link: string, status: string): Hosts {
    var info := HostOf(hosts, host);
    if pk in info.actors then
      hosts[host := info.(actors := info.actors[pk := info.actors[pk].(status := status)])]
    else if (pk, link) in info.providers then
      hosts[host := info.(providers := info.providers[(pk, link) := info.providers[(pk, link)].(status := status)])]
    else hosts
  }

  /** A heartbeat's providers replace the old ones; those known before keep what was known about them. */
  function ListedProviders(known: Providers, listed: seq<ProviderListing>): Providers {
    if listed == [] then map[]
    else
      var last, others := listed[|listed| - 1], ListedProviders(known, listed[..|listed| - 1]);
      var key := (last.publicKey, last.linkName);
      others[key := if key in known then known[key] else ProviderInfo(last.contractId, "Awaiting")]
  }

  function ProcessEvent(hosts: Hosts, e: Event): Hosts {
    match e
    case ActorStarted(host, pk) => AddActor(hosts, host, pk)
    case ActorStopped(host, pk) => RemoveActor(hosts, host, pk)
    case ProviderStarted(host, pk, link, contract) => AddProvider(hosts, host, pk, link, contract)
    case ProviderStopped(host, pk, link) => RemoveProvider(hosts, host, pk, link)
    case HostStarted(host, labels) => hosts[host := HostInfo(map[], map[], Some(labels))]
    case HostStopped(host) => hosts - {host}
    case HostHeartbeat(host, actors, providers, labels) =>
      hosts[host := HostInfo(
        map pk | pk in actors :: ActorInfo(actors[pk], "Awaiting"),
        ListedProviders(HostOf(hosts, host).providers, providers),
        Some(labels))]
    case HealthCheckPassed(host, pk, link) => UpdateStatus(hosts, host, pk, link, "Healthy")
    case HealthCheckFailed(host, pk, link) => UpdateStatus(hosts, host, pk, link, "Unhealthy")
    case _ => hosts
  }

  function ProcessAll(hosts: Hosts, events: seq<Event>): Hosts
    decreases |events|
  {
    if events == [] then hosts else ProcessAll(ProcessEvent(hosts, events[0]), events[1..])
  }

  lemma {:induction false} ProcessAppended(hosts: Hosts, a: seq<Event>, b: seq<Event>)
    ensures ProcessAll(hosts, a + b) == ProcessAll(ProcessAll(hosts, a), b)
    decreases |a|
  {
    if a == [] {
      assert a + b == b;
    } else {
      assert (a + b)[1..] == a[1..] + b;
      ProcessAppended(ProcessEvent(hosts, a[0]), a[1..], b);
    }
  }

  /** The count the dashboard shows. */
  function Shown(hosts: Hosts, host: string, pk: string): int {
    if host in hosts && pk in hosts[host].actors then hosts[host].actors[pk].count else 0
  }

  // ---------- counts ----------

  ghost predicate WellCounted(hosts: Hosts) {
    forall h, p :: h in hosts && p in hosts[h].actors ==> hosts[h].actors[p].count >= 1
  }

  ghost predicate HonestHeartbeats(events: seq<Event>) {
    forall e :: e in events && e.HostHeartbeat? ==> forall p :: p in e.actors ==> e.actors[p] >= 1
  }

  /** No stored count is ever below one, whatever events come in whatever order. */
  lemma {:induction false} CountsStayPositive(hosts: Hosts, events: seq<Event>)
    requires WellCounted(hosts) && HonestHeartbeats(events)
    ensures WellCounted(ProcessAll(hosts, events))
    decreases |events|
  {
    if events != [] {
      assert events[0] in events && forall e :: e in events[1..] ==> e in events;
      CountsStayPositive(ProcessEvent(hosts, events[0]), events[1..]);
    }
  }
}
