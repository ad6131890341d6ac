/** The lattice events a host publishes and the dashboard reads. */
module Events {

  type Labels = map<string, string>

  datatype ProviderListing = ProviderListing(publicKey: string, linkName: string, contractId: string)

  datatype Event =
    | ActorStarted(host: string, publicKey: string)
    | ActorStartFailed(host: string, publicKey: string)
    | ActorStopped(host: string, publicKey: string)
    | ActorUpdated(host: string, publicKey: string)
    | ActorUpdateFailed(host: string, publicKey: string)
    | ActorsStarted(host: string, publicKey: string, count: nat)
    | ActorsStartFailed(host: string, reason: string)
    | ActorsStopped(host: string, publicKey: string, count: nat, remaining: int)
    | ProviderStarted(host: string, publicKey: string, linkName: string, contractId: string)
    | ProviderStopped(host: string, publicKey: string, linkName: string)
    | HealthCheckPassed(host: string, publicKey: string, linkName: string)
    | HealthCheckFailed(host: string, publicKey: string, linkName: string)
    | HealthCheckStatus(host: string, publicKey: string, linkName: string)
    | HostStarted(host: string, labels: Labels)
    | HostStopped(host: string)
    | HostHeartbeat(host: string, actors: map<string, int>, providers: seq<ProviderListing>, labels: Labels)
}
