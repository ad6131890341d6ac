# A model of the wasmCloud host

This project models the stateful protocols of the wasmCloud OTP host and proves what they guarantee, for every
input, run or interleaving. Where a guarantee fails, one lemma gives an input or a run in which it does and another
says exactly when it holds. `dafny verify dfyconfig.toml` checks all of it.

How the parts fit together:

- `Linkdefs`, `MetadataStream`, `Lattice`, `Topics`, `Replication` and `Aliases` are the replication of lattice metadata. A node
  changes its own tables first and writes to the JetStream bucket later; the bucket keeps one message per key; every
  node applies what it is sent. `Replication` puts any number of nodes, unwritten changes, deliveries, dropped
  messages and late joiners into one state machine; `Aliases` says which actor a node answers a call alias with.
- `LegacyMigration` is the loop that moves an old cache stream into the bucket.
- `OciCache`, `Policy` and `Credentials` are the caches that have to agree with something simpler than themselves;
  `OciFetches` lets fetches into the first overlap.
- `Invocations` and `Payloads` are the path of a call: signing and validating it, and moving large payloads through
  the object store; `SignedPayloads` joins the two. `Callback` is the hand-off between the wasm runtime and Elixir through a mutex and a condition
  variable.
- `Actors` says what starting, stopping, scaling and updating actors do to the state of an application;
  `ActorSupervisor` does it in place; `ActorRuns` is any run of such operations over any number of hosts.
  `RoundRobin` chooses the instance that answers a call.
- `Dashboard` is the dashboard's event processing. `Mirror` and, for one lattice, `LatticeMirror` compare it with
  `ActorRuns`, each event processed once; `LatticeMonitor` has the two paths events take to the dashboard. `Health`
  compares it with provider probes.
- `Options`, `Strings`, `Hashes` and `Events` are shared by the others.

Tables changed in place are classes whose methods are proved equal to functions on values; the properties are proved
about those functions. Protocols between processes are state machines: `Enabled` and `Next` over a `Step`, and
`Reaches` for runs.

Assumptions: hashes are ideal (a digest is its input), signatures are ideal (a token says who signed it), bucket and
file writes that are made succeed and complete, the stream delivers in order what it does not drop, and a fresh
request or invocation id is new.

## What the proofs found

Each entry names the lemma with the failing input or run, then the one with the exact condition.

- A start with a count below 1 walks the range from 1 downwards and starts `2 - count` instances
  (`ActorRuns.StartOfNoneStartsTwo`, `ActorRuns.StartAddsCountIff`). A module that does not compile starts none, and the
  start still succeeds.
- A scale that succeeds can miss the desired count when the reference resolves to another actor
  (`ActorRuns.ScaleMisses`, `ActorRuns.ScaleLeavesDesiredIff`).
- Purging a reference map from the bucket has no effect on nodes that hold it (`Replication.PurgedRefmapStays`,
  `Replication.Convergence`). A node keeps claims that are followed in the bucket by something that is not claims, as
  the migration can write it, and a later joiner has none (`Replication.OverwrittenClaimsDiverge`,
  `Replication.NodesAgreeIff`). Every key whose last write is of the key's kind, other than such a purge, converges.
- Two actors with one call alias leave nodes in lasting disagreement (`Replication.AliasesDiverge`,
  `Aliases.NodesAgreeOnAliasIff` for two nodes and `Aliases.AllAnswerIff` for all).
- The link definition hash is not injective when one contract id is a prefix of another (`Linkdefs.PrefixCollides`,
  `Linkdefs.HashInjectiveIffPrefixFree`, `Linkdefs.RefinesPlainMapIffPrefixFree`).
- Without a chunk store a payload over its threshold is lost without an error (`Payloads.LostWithoutStore`,
  `Payloads.PayloadsComeThroughIff`), and a large request turned away before the actor stays in the store
  (`Payloads.LeftWhenTurnedAway`, `Payloads.StoreHoldsWhatIsOwed`).
- Overlapping fetches of one image can leave the digest of one beside the content of the other, and a later fetch then
  returns what is no longer served (`OciFetches.OverlapGoesStale`, `OciFetches.MatchingIffLastWritesAgree`,
  `OciFetches.NeverStaleIff`). An image stored without a digest does the same without any overlap
  (`OciFetches.DigestlessGoesStale`, `OciCache.StoreKeepsMatchingIff`, `OciFetches.HistoryStaleIff`).
- A stop filtered by annotations, or a second host in the lattice, can end the subscription of a running actor
  (`ActorRuns.AnnotationEndsSubscription`, `ActorRuns.SecondHostEndsSubscription`,
  `ActorRuns.TerminateKeepsSubscribedIff`).
- A stopped host always leaves its actors' subscriptions behind (`ActorRuns.HostDownKeepsSubscriptions`), though the
  RPC server's documentation ends them with the last instance
  (host_core/lib/host_core/actors/actor_rpc_server.ex:7). A stop ends one exactly with the last instance
  (`ActorRuns.LastStopUnsubscribes`).
- The remaining count a stop announces can be wrong, even negative (`ActorRuns.RemainingIsNegative`,
  `ActorRuns.RemainingIsRightIff`).
- One legacy message of an unknown kind ends the whole migration, because the clause meant for it takes three
  arguments where four are passed; a link definition that cannot be decoded ends it too, since logging its error
  raises (`LegacyMigration.UnknownKindStops`, `LegacyMigration.GarbledLinkdefStops`,
  `LegacyMigration.CompletesIffRecognised`). Claims are moved without a look at what they are
  (`LegacyMigration.MigratedIsFaithfulIff`).
- The id of an invocation is not part of what is signed, and large payloads are stored under it: an emptied invocation
  under another call's id is accepted and given that call's payload (`SignedPayloads.RelabelledGetsAnothers`,
  `SignedPayloads.TakenIsSignedIff`).
- A dashboard takes the events of its application's second and further hosts twice and shows wrong counts for them
  until the next heartbeat (`LatticeMonitor.OneIsShownAsTwo`, `LatticeMonitor.OneIsShownAsNone`,
  `LatticeMonitor.AlwaysRightIff`).
- An operation name with a '/' makes the signed hash and URLs ambiguous (`Invocations.SlashedOperationsAreAmbiguous`,
  `Invocations.AcceptedWithTokenIff`).
- A heartbeat that omits a provider makes the dashboard forget its status, for as long as its probes go on as before
  (`Health.StuckAwaiting`, `Health.StatusIsRightIff`).
- A key is not read back from its subject when it or the lattice prefix has a '.', or when the prefix contains the
  bucket's own name (`Topics.TopicReadsBackIff`).

Where the code and its comments disagree the model follows the code: an override replaces a decision and keeps both
table entries, though the comment above it speaks of deleting them
(host_core/lib/host_core/policy/manager.ex:162-179), and a four-token subject is read with its second token as the
domain (host_core/lib/host_core/jetstream/metadata_cache_loader.ex:154-159) although a subject written with a domain
has six tokens, which the tokenizer does not read (`Topics.DomainTopicsAreNotRead`); JetStream delivers such a message
under the subject without the domain.

## Model

| member | source | states |
|---|---|---|
| Linkdefs.Manager.LookupLinkDefinition | host_core/lib/host_core/linkdefs/manager.ex:26-31 | a lookup by id gives the stored definition, or nothing |
| Linkdefs.Manager.CacheLinkDefinition | host_core/lib/host_core/linkdefs/manager.ex:37-63 | stores the definition under the id given, or under the hash of its triple when there is none; sends nothing |
| Linkdefs.Manager.UncacheLinkDefinition | host_core/lib/host_core/linkdefs/manager.ex:69-71 | removes one id from the table and nothing else |
| Linkdefs.Manager.PutLinkDefinition | host_core/lib/host_core/linkdefs/manager.ex:78-109 | table and messages after a put: local entry first, then the announcement, then the bucket write if a host can supply its domain |
| Linkdefs.Manager.DelLinkDefinition | host_core/lib/host_core/linkdefs/manager.ex:121-142 | table and messages after a delete: nothing for an unknown id, no local removal or bucket purge without a host, the announcement either way |
| Linkdefs.Manager.DelLinkDefinitionByTriple | host_core/lib/host_core/linkdefs/manager.ex:111-119 | a delete by triple is the delete of the id found for it |
| Linkdefs.HashInjectiveIffPrefixFree | host_core/lib/host_core/jetstream/client.ex:270-277 | for actor ids of one length, the hash of the undelimited concatenation tells all triples apart exactly when no contract id in use is a prefix of another |
| Linkdefs.PrefixCollides | host_core/lib/host_core/jetstream/client.ex:270-277 | any two contract ids one of which is a prefix of the other give two different triples with one hash |
| Linkdefs.RefinesPlainMapIffPrefixFree | host_core/lib/host_core/linkdefs/manager.ex:19-142 | through every sequence of puts and deletes, lookups by triple answer as a map keyed by triples would, exactly when contract ids are prefix-free |
| Linkdefs.RunRepresents | host_core/lib/host_core/linkdefs/manager.ex:37-142 | the invariant behind it: each stored entry is under the hash of its own triple and is the plain map's entry, and every plain entry is stored |
| Linkdefs.EnumerationAgrees | host_core/lib/host_core/linkdefs/manager.ex:214-218 | listing the table yields exactly the plain map's entries, each once |
| MetadataStream.CompactionKeepsReplay | host_core/lib/host_core/jetstream/client.ex:43-64 | whatever replaced messages a reader misses, replaying the rest gives the table of the full history |
| MetadataStream.RetainIsLastPerSubject | host_core/lib/host_core/jetstream/client.ex:49 | a stream that pushes out the previous message of a key holds, after every write, exactly the last message of each key |
| MetadataStream.LastPerSubjectIsShortest | host_core/lib/host_core/jetstream/client.ex:104 | delivery of the last message of each key is the shortest such history |
| MetadataStream.ReplayAt | host_core/lib/host_core/jetstream/metadata_cache_loader.ex:32-52 | a replayed table holds under each key the body of its last message, a purge leaving nothing |
| Lattice.MetadataCacheLoader.InsertClaims | host_core/lib/host_core/claims/manager.ex:37-50 | claims are stored, and the call alias only if it has two characters or more and is not taken yet |
| Lattice.MetadataCacheLoader.KeyAdded | host_core/lib/host_core/jetstream/metadata_cache_loader.ex:54-105 | all four tables after an added key of any kind, decodable or not |
| Lattice.MetadataCacheLoader.KeyDeleted | host_core/lib/host_core/jetstream/metadata_cache_loader.ex:107-141 | all four tables after a deleted key: link definitions and claims go, reference maps and aliases stay |
| Lattice.MetadataCacheLoader.Request | host_core/lib/host_core/jetstream/metadata_cache_loader.ex:32-52 | a delete or purge header decides between the two, whatever the body |
| Lattice.HandledFaithfullyIff | host_core/lib/host_core/jetstream/metadata_cache_loader.ex:54-141 | handling a message makes a node hold what the message means, and changes no other replicated key, exactly for well-formed messages other than reference map purges |
| LegacyMigration.MigratedIsWritable | host_core/lib/host_core/jetstream/legacy_cache_loader.ex:60-92 | whatever the migration writes is among the bucket writes the runs allow |
| Replication.Convergence | host_core/lib/host_core/jetstream/metadata_cache_loader.ex:84-135 | once nothing waits to be written or handled, a node holds for a key what the full history of bucket writes leaves there, exactly when the last write is one nodes act upon as meant, or what the node last filed there is the same; where the last write purges a reference map, exactly when the node never put or handled a record for that URL |
| Replication.NodeHoldsLastFiled | host_core/lib/host_core/linkdefs/manager.ex:37-71 | through any run a node holds under a key what it last put, deleted or filed there |
| Replication.RefmapsAreThoseMapped | host_core/lib/host_core/refmaps/manager.ex:25-34 | a node has a reference map entry for a URL exactly when it once put or handled a record for it |
| Replication.NodesAgreeIff | host_core/lib/host_core/linkdefs/manager.ex:78-142 | two settled nodes agree on a key exactly when its last write is one nodes act upon as meant, or both last filed the same there |
| Replication.NodesAgree | host_core/lib/host_core/linkdefs/manager.ex:78-142 | so their link definition, claims and reference map tables are equal, each if the last write of each of its keys is such |
| Replication.OverwrittenClaimsDiverge | host_core/lib/host_core/jetstream/metadata_cache_loader.ex:54-69 | a settled run in which claims were followed in the bucket by something that is not claims, and one node holds the claims and a later joiner none |
| Replication.DeliveriesLeadToBucket | host_core/lib/host_core/jetstream/metadata_cache_loader.ex:84-126 | in every reachable state, for each key a node has no unwritten change of and whose last write nodes act upon as meant, its last pending delivery, or else its cached value, is the bucket's value |
| Replication.StepKeeps | host_core/lib/host_core/linkdefs/manager.ex:78-142 | every step of the protocol keeps that invariant: local puts and deletes, bucket writes, deliveries, dropped messages, joins and outside writes |
| Replication.BucketIsRetained | host_core/lib/host_core/jetstream/client.ex:43-64 | the retained stream has one message a key and says what the full history says |
| Replication.JoinKeeps | host_core/lib/host_core/jetstream/client.ex:96-110 | a node joining late, sent the last message of each key, satisfies the invariant from its first moment |
| Replication.LoseKeeps | host_core/lib/host_core/jetstream/client.ex:49 | dropping a superseded message before a consumer reads it keeps the invariant |
| Replication.SettlesInBoundedSteps | host_core/lib/host_core/jetstream/metadata_cache_loader.ex:32-52 | without new local writes every run of writes and deliveries uses up one unit of a finite amount of work a step, and some such step exists until all is quiet |
| Replication.AliasesAndRefmapsStay | host_core/lib/host_core/claims/manager.ex:46-50 | an alias, once set on a node, never changes there, and a reference map entry never disappears |
| Replication.AliasesDiverge | host_core/lib/host_core/claims/manager.ex:46-50 | a settled run in which two nodes answer the same call alias with different actors |
| Aliases.AliasIsFirstClaim | host_core/lib/host_core/claims/manager.ex:37-50 | through any run a node answers an alias of two characters or more with the actor of the first claims with it that the node put or handled |
| Aliases.NodesAgreeOnAliasIff | host_core/lib/host_core/claims/manager.ex:46-50 | two nodes agree on an alias exactly when their first claims of it name one actor |
| Aliases.SettledNodeAnswers | host_core/lib/host_core/claims/manager.ex:46-50 | if only one actor ever claimed an alias in the bucket, and its last claims still do, every settled node, late joiners included, answers with it |
| Aliases.JoinerAnswersFirstRetained | host_core/lib/host_core/jetstream/client.ex:96-110 | a node that joins and catches up answers with the first claim among the messages the stream retains |
| Aliases.AllAnswerIff | host_core/lib/host_core/claims/manager.ex:46-50 | for a given sequence of bucket writes, every settled run ends with every node answering an alias with one actor exactly when no other actor claimed it there and the actor's last claims still carry it |
| Replication.PurgedRefmapStays | host_core/lib/host_core/jetstream/metadata_cache_loader.ex:128-141 | a settled run in which a purged reference map is still on a node |
| Topics.TopicReadsBackIff | host_core/lib/host_core/jetstream/metadata_cache_loader.ex:143-164 | a key printed into a subject without a domain is read back with its lattice prefix exactly when neither has a dot and the prefix does not contain the bucket's name |
| Topics.RecordReadsBack | host_core/lib/host_core/jetstream/client.ex:292-293 | so record kind, id and lattice are those the writer meant |
| Topics.DomainTopicsAreNotRead | host_core/lib/host_core/jetstream/client.ex:295-296 | a subject as written for a JetStream domain is not a key to the loader, which sees it only without that prefix |
| LegacyMigration.MigrateBucketKeys | host_core/lib/host_core/jetstream/client.ex:306-315 | the receive loop leaves the bucket, and finishes or not, as handling the messages one after the other does |
| LegacyMigration.CompletesIffRecognised | host_core/lib/host_core/jetstream/legacy_cache_loader.ex:17-98 | the migration goes through exactly when every message has four tokens of a known kind and, other than for claims, a body of that kind (or, for reference maps, one that does not decode), or too few tokens to be looked at |
| LegacyMigration.UnrecognisedStops | host_core/lib/host_core/jetstream/legacy_cache_loader.ex:17-98 | a message that cannot be handled ends the migration: everything before it is moved, everything after it left behind |
| LegacyMigration.UnknownKindStops | host_core/lib/host_core/jetstream/legacy_cache_loader.ex:94-98 | one message of an unknown kind, wherever it comes, is such a message |
| LegacyMigration.GarbledLinkdefStops | host_core/lib/host_core/jetstream/legacy_cache_loader.ex:55-57 | and so is a link definition that does not decode |
| LegacyMigration.MigratedLinkdef | host_core/lib/host_core/jetstream/legacy_cache_loader.ex:32-58 | in a migration that goes through, every link definition ends under the hash of its own triple with the fields of its last version not marked deleted; one with none keeps what the bucket had |
| LegacyMigration.OtherKeysUntouched | host_core/lib/host_core/jetstream/legacy_cache_loader.ex:17-92 | keys no message addresses are unchanged, whether or not the migration finishes |
| LegacyMigration.MigratedIsFaithfulIff | host_core/lib/host_core/jetstream/legacy_cache_loader.ex:60-68 | every node files what was migrated as meant exactly unless a claims topic carried something that is not claims, which is moved all the same |
| LegacyMigration.MigratedRecord | host_core/lib/host_core/jetstream/legacy_cache_loader.ex:60-92 | in a migration that goes through, each claims and reference map key ends with the last record moved to it, claims by the key in their topic and reference maps by their URL, or with what the bucket had |
| LegacyMigration.MigrationReplaysWrites | host_core/lib/host_core/jetstream/legacy_cache_loader.ex:17-92 | the bucket afterwards is what the messages' writes, in order, make of it |
| OciCache.Cache.CacheOciImage | host_core/native/hostcore_wasmcloud_native/src/oci.rs:143-162 | content file and digest file after a store, the digest file untouched when the image came without a digest |
| OciCache.Cache.FetchOciPath | host_core/native/hostcore_wasmcloud_native/src/oci.rs:40-97 | result and files after a fetch, over its cache miss, digest match, mismatch and four failures |
| OciCache.FilesAreShared | host_core/native/hostcore_wasmcloud_native/src/oci.rs:99-123 | references share a content file exactly when they share a digest file |
| OciCache.NamesCollide | host_core/native/hostcore_wasmcloud_native/src/oci.rs:113-123 | two different references that do |
| OciCache.StoreKeepsMatchingIff | host_core/native/hostcore_wasmcloud_native/src/oci.rs:143-162 | a store keeps every non-empty digest file beside the content it names exactly when the digest left there is empty or names the new content |
| OciCache.FetchIsFresh | host_core/native/hostcore_wasmcloud_native/src/oci.rs:40-97 | one fetch keeps that invariant, changes no file on failure, and on success returns a file with what the registry served |
| OciCache.CurrentContent | host_core/native/hostcore_wasmcloud_native/src/oci.rs:51-96 | after any history of fetches of any references, colliding or not, under a changing registry, the next successful fetch returns the content served for its reference now, given that pulled images carry their manifest's digest and digests name contents |
| OciFetches.MatchingIffLastWritesAgree | host_core/native/hostcore_wasmcloud_native/src/oci.rs:64-96 | after any number of overlapping fetches, with images that may lack a digest, the digest files match exactly when for each mangled name the last content written is that of the last digest written |
| OciFetches.OneFetchAgrees | host_core/native/hostcore_wasmcloud_native/src/oci.rs:143-162 | they do for a name whose last content and last digest were written by one fetch |
| OciFetches.StaleIff | host_core/native/hostcore_wasmcloud_native/src/oci.rs:40-97 | a later fetch returns other content than is served exactly when the digest last written under its name is the one served now and came with other content than was last written |
| OciFetches.NeverStaleIff | host_core/native/hostcore_wasmcloud_native/src/oci.rs:40-97 | no later fetch is stale, whatever is served, exactly when for every name the last content and digest agree |
| OciFetches.OwnImageIff | host_core/native/hostcore_wasmcloud_native/src/oci.rs:64-96 | once a fetch that stored an image has ended, its file holds that image exactly when the last content written under its name is its own or equal to it |
| OciFetches.UnpulledIsServedIff | host_core/native/hostcore_wasmcloud_native/src/oci.rs:73-94 | a fetch that ends without a pull returns the content served exactly when the last content and digest under its name agree at that moment |
| OciFetches.FetchAlone | host_core/native/hostcore_wasmcloud_native/src/oci.rs:40-97 | the steps of a fetch that nothing overlaps do what the whole fetch does |
| OciFetches.HistoryIsRun | host_core/native/hostcore_wasmcloud_native/src/oci.rs:40-97 | any history of fetches one after the other is a run of the steps |
| OciFetches.HistoryStaleIff | host_core/native/hostcore_wasmcloud_native/src/oci.rs:156-160 | in such a history a fetch is stale exactly when the last image stored under its name that had a digest had the one served now, and other content than the last image stored |
| OciFetches.OverlapGoesStale | host_core/native/hostcore_wasmcloud_native/src/oci.rs:143-162 | a run of two overlapping fetches of what the registry honestly serves, after which the file does not hold what the second stored and a third fetch returns what is no longer served |
| OciFetches.DigestlessGoesStale | host_core/native/hostcore_wasmcloud_native/src/oci.rs:156-160 | a history of two fetches, one of an image without a digest, after which a third returns the wrong image |
| Payloads.ObjectStore.ChonkToObjectStore | host_core/native/hostcore_wasmcloud_native/src/objstore.rs:11-18 | the store after a put; nothing happens without a store |
| Payloads.ObjectStore.UnchonkFromObjectStore | host_core/native/hostcore_wasmcloud_native/src/objstore.rs:20-33 | store and result after a take: object gone, error for a missing one, empty and no error without a store |
| Payloads.ObjectStore.GenerateInvocation | host_core/native/hostcore_wasmcloud_native/src/lib.rs:552-578 | request and store after building an invocation, large payloads moved to the store |
| Payloads.PayloadsComeThroughIff | host_core/lib/host_core/actors/actor_module.ex:564-611 | in any interleaving of invocations the actor is invoked with exactly the payload sent, and the caller told exactly what came back, if and only if a store is set up or the payload is within its threshold |
| Payloads.StoreHoldsWhatIsOwed | host_core/lib/host_core/wasmcloud/rpc_invocations.ex:284-323 | the store holds exactly the large requests no actor took and the large responses no caller took; after all calls it is empty exactly when no large request was turned away |
| Payloads.LostWithoutStore | host_core/native/hostcore_wasmcloud_native/src/objstore.rs:22-32 | a run in which, without a store, the actor is invoked with nothing instead of a large payload |
| Payloads.LeftWhenTurnedAway | host_core/lib/host_core/actors/actor_module.ex:582 | a run that ends with every caller answered and a large request still in the store |
| Payloads.KeysStayApart | host_core/lib/host_core/actors/actor_module.ex:574 | with ids of one length no id is the response key of another, and response keys determine ids |
| Payloads.StepKeeps | host_core/lib/host_core/wasmcloud/rpc_invocations.ex:306-323 | each step of each call keeps what is in flight and what is stored in agreement |
| Invocations.Sha256Digest | host_core/native/hostcore_wasmcloud_native/src/inv.rs:290-303 | reading a buffer at a time digests the whole input |
| Invocations.BuiltIsAcceptedIff | host_core/native/hostcore_wasmcloud_native/src/inv.rs:71-99 | what was built is accepted, whole or with its payload taken out, exactly by those who list a signer with a host's key |
| Invocations.AcceptedWithTokenIff | host_core/native/hostcore_wasmcloud_native/src/inv.rs:154-199 | exactly which invocations one signed token can carry, under whatever id |
| Invocations.AcceptanceFixesInvocation | host_core/native/hostcore_wasmcloud_native/src/inv.rs:133-150 | without '/' in operation names, an accepted invocation has the signed URLs, operation and, if not empty, payload; nothing is said of its id |
| SignedPayloads.TakenIsSignedIff | host_core/lib/host_core/actors/actor_module.ex:584-611 | exactly when the actor is given the payload that was signed: when it came along, or when the store has it under the invocation's id |
| SignedPayloads.TakenInRunIff | host_core/lib/host_core/actors/actor_module.ex:584-611 | after any run of calls that is when the call, or response, the id belongs to has that payload in the store |
| SignedPayloads.OwnIdGetsOwnPayload | host_core/lib/host_core/actors/actor_module.ex:584-611 | with its own id an emptied invocation on its way is given what was signed |
| SignedPayloads.RelabelledTakesStored | host_core/native/hostcore_wasmcloud_native/src/inv.rs:154-199 | an emptied invocation under the id of another call is accepted and given that call's stored payload, and the other call then gets nothing |
| SignedPayloads.RelabelledGetsAnothers | host_core/native/hostcore_wasmcloud_native/src/inv.rs:172-176 | a run of two calls in which that payload is not the signed one |
| Invocations.SlashedOperationsAreAmbiguous | host_core/native/hostcore_wasmcloud_native/src/inv.rs:305-314 | with a '/' there is an accepted invocation that differs from the signed one in operation and payload |
| ActorSupervisor.Supervisor.StartChild | host_core/lib/host_core/actors/actor_module.ex:613-660 | registry, claims, subscription and events after one instance starts or fails to compile |
| ActorSupervisor.Supervisor.StartActorInstances | host_core/lib/host_core/actors/actor_supervisor.ex:184-213 | walking the range from 1 to the count, downwards below 1, starts one instance a number |
| ActorSupervisor.Supervisor.StartActor | host_core/lib/host_core/actors/actor_supervisor.ex:36-133 | result and whole state after a start, with its three refusals |
| ActorSupervisor.Supervisor.HaltRequiredActors | host_core/lib/host_core/actors/actor_supervisor.ex:543-553 | the first instances are taken first and only then filtered by annotation; what remains is counted before the filter |
| ActorSupervisor.Supervisor.TerminateActor | host_core/lib/host_core/actors/actor_supervisor.ex:513-535 | whole state after a stop of some or all instances, including the subscription |
| ActorSupervisor.Supervisor.ScaleActor | host_core/lib/host_core/actors/actor_supervisor.ex:467-504 | result and whole state after a scale up, down or neither, and without a reference |
| ActorSupervisor.Supervisor.UpdateInstances | host_core/lib/host_core/actors/actor_module.ex:204-237 | every running instance of the actor on the host is told once; code is replaced if the new module compiles, nothing else changes |
| ActorSupervisor.Supervisor.LiveUpdate | host_core/lib/host_core/actors/actor_supervisor.ex:317-415 | result and whole state after a live update: newer revisions only, every running instance told, those that compile replaced |
| Actors.HaltRequiredLeaves | host_core/lib/host_core/actors/actor_supervisor.ex:543-553 | which instances a stop leaves, in order: the unmatched of the first ones and all later ones |
| Actors.HaltRequiredSpares | host_core/lib/host_core/actors/actor_supervisor.ex:543-553 | no other actor or host loses an instance |
| ActorRuns.StartAddsCountIff | host_core/lib/host_core/actors/actor_supervisor.ex:194 | a successful start adds as many instances as it reports, which is the count asked for exactly when that is positive and the module compiles (or zero and it does not); the announcement carries the same number |
| ActorRuns.RemainingIsRightIff | host_core/lib/host_core/actors/actor_supervisor.ex:513-524 | the remaining count a stop announces is right exactly when there were enough instances to stop and all of those taken match its annotations |
| ActorRuns.ScaleLeavesDesiredIff | host_core/lib/host_core/actors/actor_supervisor.ex:467-504 | a scale that succeeds leaves the desired count exactly when that is not negative and, going up, the reference resolves to that very actor |
| ActorRuns.ScaleSparesOthers | host_core/lib/host_core/actors/actor_supervisor.ex:467-504 | and every other actor on every host keeps its instances, unless the reference used to scale up resolves to it |
| ActorRuns.TerminateAllClears | host_core/lib/host_core/actors/actor_supervisor.ex:537-541 | a purge leaves nothing on the host and everything elsewhere |
| ActorRuns.ReferencesAgree | host_core/lib/host_core/actors/actor_supervisor.ex:162-174 | through any run, all instances of one actor on a host carry one recorded reference |
| ActorRuns.TerminateKeepsSubscribedIff | host_core/lib/host_core/actors/actor_supervisor.ex:513-553 | exactly when a stop leaves every running actor with its subscription: a partial stop, or all instances of the actor in the lattice on that host and matching |
| ActorRuns.RunningActorsAreCallable | host_core/lib/host_core/actors/actor_rpc_supervisor.ex:20-87 | in every run without annotation-filtered stops and with one host a lattice, each running actor has its subscription |
| ActorRuns.LastStopUnsubscribes | host_core/lib/host_core/actors/actor_supervisor.ex:513-535 | a stop without annotations ends the subscription exactly when it leaves no instance on the host |
| ActorRuns.StartOfNoneStartsTwo | host_core/lib/host_core/actors/actor_supervisor.ex:194 | a run in which a start with a count of zero starts two instances |
| ActorRuns.ScaleMisses | host_core/lib/host_core/actors/actor_supervisor.ex:496-498 | a run in which a scale to one instance succeeds and leaves none |
| ActorRuns.RemainingIsNegative | host_core/lib/host_core/actors/actor_supervisor.ex:543-545 | a run in which a stop announces that -1 instances remain |
| ActorRuns.AnnotationEndsSubscription | host_core/lib/host_core/actors/actor_supervisor.ex:547-550 | a run in which a stop for an annotation no instance has ends the subscription of the one running |
| ActorRuns.SecondHostEndsSubscription | host_core/lib/host_core/actors/actor_supervisor.ex:532 | a run in which a stop on one host ends the subscription of the instance on another |
| ActorRuns.HostDownKeepsSubscriptions | host_core/lib/host_core/vhost/virtual_host.ex:348-355 | a host that stops leaves the subscriptions of its actors behind, though none of their instances runs |
| RoundRobin.CallCounter.ReadAndIncrement | host_core/lib/host_core/actors/call_counter.ex:19-22 | the counter of one actor and lattice moves by one, starting at zero, and no other changes |
| RoundRobin.CallCounter.Request | host_core/lib/host_core/actors/actor_rpc_server.ex:35-50 | counter and chosen instance of one request, with nothing running and with nothing eligible |
| RoundRobin.AnswersGoRound | host_core/lib/host_core/actors/actor_rpc_server.ex:45-50 | however other calls come in between, an actor's calls go round its instances in turn |
| RoundRobin.DispatchIsFair | host_core/lib/host_core/actors/actor_rpc_server.ex:45-50 | over any stretch of calls each instance is chosen floor or ceiling of the average, and with two or more never twice in a row, as the application's documentation promises |
| RoundRobin.KeysAreDistinct | host_core/lib/host_core/actors/call_counter.ex:24-26 | keys of equal length keep counters apart |
| RoundRobin.CountersCanBeShared | host_core/lib/host_core/actors/call_counter.ex:24-26 | without equal lengths two actors can share a counter |
| Dashboard.CountsStayPositive | wasmcloud_host/lib/wasmcloud_host/lattice/state_monitor.ex:691-735 | no stored count is ever below one, whatever events come in whatever order, as long as heartbeats list no actor with less than one instance |
| Mirror.DashboardMirrorsRun | wasmcloud_host/lib/wasmcloud_host/lattice/state_monitor.ex:203-241 | after any run of actor operations, host starts and stops and heartbeats, the events of all lattices, each processed once and in order, leave exactly the running hosts and the number of running instances of every actor on each |
| Mirror.DashboardMirrorsFromStart | wasmcloud_host/lib/wasmcloud_host/lattice/state_monitor.ex:203-414 | so everything ever published to any lattice, processed once and in order from nothing, is what runs now |
| LatticeMirror.LatticeMirrorsFromStart | wasmcloud_host/lib/wasmcloud_host/lattice/state_monitor.ex:40-42 | the events published to one lattice, each processed once and in order, leave exactly that lattice's hosts and what runs on them |
| LatticeMirror.StepPublishes | host_core/lib/host_core/actors/actor_supervisor.ex:36-553 | every operation publishes events about its own host only |
| LatticeMonitor.HeardOnceIsRight | wasmcloud_host/lib/wasmcloud_host/lattice/state_monitor.ex:119-163 | with events arriving on two paths and those of the first host left out on one, a settled dashboard shows the running instances of the first host and of every host of another application in its lattice, and such hosts only while they run |
| LatticeMonitor.AlwaysRightIff | host_core/lib/host_core/cloud_event.ex:31-41 | it is right about a host in every run exactly when that is the first host of its application or a host of another application |
| LatticeMonitor.OneIsShownAsTwo | wasmcloud_host/lib/wasmcloud_host/lattice/state_monitor.ex:136-148 | for any other host of its application, a run in which one running instance is shown as two |
| LatticeMonitor.OneIsShownAsNone | wasmcloud_host/lib/wasmcloud_host/lattice/state_monitor.ex:708-735 | and one in which a heartbeat shows two running instances, one is stopped and none is shown |
| LatticeMonitor.HeartbeatRestoresHeardOnce | wasmcloud_host/lib/wasmcloud_host/lattice/state_monitor.ex:338-414 | from any picture, a heartbeat makes the settled dashboard right about a host it hears once, from then on |
| LatticeMonitor.HeartbeatRestoresHeardTwice | wasmcloud_host/lib/wasmcloud_host/lattice/state_monitor.ex:338-414 | and about a host it hears twice until something else is done on that host |
| Mirror.HeartbeatRestores | wasmcloud_host/lib/wasmcloud_host/lattice/state_monitor.ex:338-414 | from any picture at all, one heartbeat makes a host's counts right and leaves other hosts alone |
| Mirror.InventoryCounts | host_core/lib/host_core/actors/actor_supervisor.ex:435-446 | a heartbeat's inventory has each actor with an instance, with its number of instances |
| Mirror.HostDownMirrors | host_core/lib/host_core/vhost/virtual_host.ex:434-441 | a host that purges and stops is gone from the picture |
| Mirror.TerminateMirrors | wasmcloud_host/lib/wasmcloud_host/lattice/state_monitor.ex:708-735 | one stop event for each halted instance keeps the counts right |
| Health.TransitionsAlternate | host_core/lib/host_core/providers/provider_module.ex:392-446 | passed and failed events strictly alternate, starting with passed, for any probes |
| Health.ShownStatus | wasmcloud_host/lib/wasmcloud_host/lattice/state_monitor.ex:338-461 | through any probes and heartbeats a provider is not shown if the latest heartbeat left it out, shows as awaiting until its flag has changed since it came on show, and then as its flag |
| Health.StatusIsRightIff | wasmcloud_host/lib/wasmcloud_host/lattice/state_monitor.ex:338-461 | the dashboard shows awaiting before the first answered probe and then how the latest went, exactly when the provider is on show and, once it has answered, its flag has changed since it came on show |
| Health.ListedIsRight | wasmcloud_host/lib/wasmcloud_host/lattice/state_monitor.ex:382-403 | with heartbeats that always list the provider it is always right |
| Health.StuckAwaiting | host_core/lib/host_core/providers/provider_module.ex:432-446 | a healthy provider left out of one heartbeat and back in the next shows as awaiting through any number of answered probes |
| Health.ListedKeepsKnown | wasmcloud_host/lib/wasmcloud_host/lattice/state_monitor.ex:382-403 | a heartbeat keeps what was known of the providers it lists and drops the others |
| Health.OmittedProviderIsAwaiting | wasmcloud_host/lib/wasmcloud_host/lattice/state_monitor.ex:338-414 | a heartbeat that leaves a provider out loses its status, whatever that was |
| Policy.Manager.EvaluateAction | host_core/lib/host_core/policy/manager.ex:58-93 | table and decision of one question, over policy off, cached, malformed, answered and unanswered |
| Policy.Manager.OverrideDecision | host_core/lib/host_core/policy/manager.ex:162-179 | table after an override, which an unknown request id leaves alone |
| Policy.TableIsFirstAnswerThenOverride | host_core/lib/host_core/policy/manager.ex:142-179 | for any sequence of questions and overrides, the cached decision on a question is the server's first answer to it, then the latest override naming that request; a request id points exactly at the question it got the first answer for |
| Policy.AnsweredOnce | host_core/lib/host_core/policy/manager.ex:58-93 | once the server has answered a question it is not asked it again |
| Policy.PolicyIsFollowed | host_core/lib/host_core/policy/manager.ex:100-179 | with callers, answers and overrides interleaved, half-written entries included: the cached decision is the latest said, each request id points at a question that has one, an override only changes what its request was about, and no one is told yes unless policy is off or the server or an operator said so |
| Callback.NoWakeupIsLost | host_core/native/hostcore_wasmcloud_native/src/wasmruntime.rs:131-134 | in no interleaving with posters and spurious wakeups is the handler left asleep with a result and nobody about to notify it |
| Callback.HandlerReturnsWhatWasStored | host_core/native/hostcore_wasmcloud_native/src/wasmruntime.rs:300-311 | the handler returns a value some poster stored; with one poster, that poster's |
| Callback.HandlerReturns | host_core/native/hostcore_wasmcloud_native/src/wasmruntime.rs:131-149 | from the moment a result is stored, runs are bounded, and one that cannot go on has the handler returned |
| Callback.StepKeepsLock | host_core/native/hostcore_wasmcloud_native/src/environment.rs:9-13 | the lock has at most one holder, and a result waiting for a sleeping handler has its notification to come |
| Credentials.StripSchemeIsIdempotent | host_core/lib/host_core/vhost/virtual_host.ex:531-536 | stripping schemes twice is stripping them once |
| Credentials.ExtractServerIsIdempotent | host_core/lib/host_core/vhost/virtual_host.ex:517-529 | a server's name is the server of itself |
| Credentials.SchemeDoesNotMatter | host_core/lib/host_core/vhost/virtual_host.ex:517-536 | a leading "bindle://", "oci://", "http://" or "https://" never changes the server |
| Credentials.OciServerIsHost | host_core/lib/host_core/vhost/virtual_host.ex:524-529 | an image reference is filed under what comes before its first '/', with or without a scheme |
| Credentials.BindleServerIsLast | host_core/lib/host_core/vhost/virtual_host.ex:517-522 | a bindle reference is filed under what comes after its last '@', with or without a scheme |
| Credentials.LookupIsLastAccepted | host_core/lib/host_core/vhost/virtual_host.ex:417-432 | after any puts and clears, a lookup gives the last entry accepted for the reference's server, or nothing if that is for another kind of registry |
| Credentials.OtherServersDoNotMatter | host_core/lib/host_core/vhost/virtual_host.ex:461-490 | entries put for other servers make no difference to a lookup |
| Credentials.OrderDoesNotMatter | host_core/lib/host_core/vhost/virtual_host.ex:461-490 | when the keys of a put name different servers, the order they are gone through makes no difference |

## Left out

- Callback.HandlerReturns: bounds the steps once a result is stored; that the scheduler lets threads take steps, and that Elixir ever answers, is assumed.
- Replication.Convergence: a write whose body names another link definition id or reference map URL than its key, which no part of the program makes, is not a step of the run. Bucket writes that fail and the branch of a put without a host in the lattice are not steps of the run; `Linkdefs.Manager` has that branch. Reading one's own writes in between is not promised by the program and not claimed.
- Credentials.LookupIsLastAccepted: a put with an accepted entry of an unknown registry type crashes the host process, so runs with one are outside the statement.
- Policy.PolicyIsFollowed: replies are decisions with the three fields callers read; a reply with unknown field names, which makes decoding raise, is not modelled.
- Invocations.Sha256Digest: reads that return fewer bytes than the buffer holds are not modelled.
- Mirror.DashboardMirrorsRun: each event is processed once and in order; `LatticeMonitor` has the paths on which some are heard twice. Supervisor operations are atomic, and crashes of instances between operations are not modelled.
- ActorSupervisor.Supervisor.TerminateActor: instances are listed in the order they were registered; the registry's own order is not specified.
- LegacyMigration.CompletesIffRecognised: a legacy body is of one kind; one that has the fields of several kinds at once is not modelled.
- LatticeMirror.LatticeMirrorsFromStart: each event is processed once and in order, from an empty picture.
- LatticeMonitor.AlwaysRightIff: the first host of the application stays up and stays first in its registry, whose order is not specified; neither path loses or reorders events.
- Health.ShownStatus: the provider's events are processed once and in order. Heartbeats in which an actor has the provider's own public key are excluded; keys of actors and providers differ in their first letter.
- OciFetches.MatchingIffLastWritesAgree: runs start from an empty cache directory; a directory left by an earlier process is a longer run. A file write is one step; `OciCache.Cache.CacheOciImage` has the truncation before it.
- The supervised children behind an actor's subscription: a subscription is present or absent, restart of a dead one included in present.
- Timeouts, sleeps and the 200 ms end of the migration: a caller that gives up is one that never collects its answer.
- NATS, JetStream, registries, file systems and process start beyond their stated behaviour; partial file writes; failing store puts and deletes.
- The routing and authorisation stages of an outgoing call, and claims conversions: single checks of single fields.
- Reference maps are keyed by their URL, of which the bucket key is an injective encoding; looking one up, which returns the whole table entry, is not part of the model.
- Text is its bytes and letter case is ASCII only; Unicode is not modelled.
- The dashboard's link definitions, claims and reference maps, whose events can be repeated by NATS after a delete.
- Starting and stopping of provider processes beyond their events; host configuration, labels, logging and traces.
