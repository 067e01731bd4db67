# Vexil verification

A Dafny 4.11 model of Vexil's moving parts, with proofs of what they promise together. Vexil is a feature-flag
platform for Kubernetes: an operator writes flag values into Deployments and ConfigMaps, a sidecar mirrors flags and
streams them to SDKs, and an API server manages flags, users and an audit log.

Check the project with `dafny verify dfyconfig.toml`.

## What is modelled

- **Operator.** `OperatorSpec` says what one reconcile does to a cluster, for every order in which Deployments may be
  listed and for every point at which API calls start to fail; `LabelSelectors` are the selectors it uses. `Reconciler`
  is the reconciler itself, an API server object and the nested update loops, proved against it. `OperatorDelivery` and
  `OperatorReconcile` prove what a reconcile achieves, leaves behind on failure, and never touches; `OperatorOutcome`
  says it on the fields of the flag and of the objects, with the calls that it takes. `OperatorRuns` proves confluence
  over runs.
- **Environment provider.** `EnvNames` and `EnvProvider` follow a value from the operator's injection through the
  process environment to the SDK's answer.
- **Sidecar and stream.** `SidecarStore` is the store with its bounded channels, `WatchFold` the watcher that fills it,
  `EventStream` the bytes on the wire, `FlagPaths` where a single fetch goes, `SidecarProvider` the SDK's cache and
  reconnect loop, and `SidecarProtocol` and `CacheAgreement` the interleaved system of all of them. `Serving` joins
  operator, watcher and store; `EndToEnd` joins cluster, watcher, sidecar and SDK.
- **Stores.** `AuditLog` (memory) and `AuditQuery` (PostgreSQL) answer audit queries; `Accounts` holds users and
  sessions in Go maps and in SQL tables (`Tables`) and proves the simulation.
- **Discovery.** `WorkloadMatching`, `Discovery`, `WorkloadListing` and `ContainerScan` find workloads, attach flags to
  them, list them and show their containers.
- **Deep copy.** `DeepCopy` is the generated copy of the FeatureFlag resource on the heap.
- **API server.** `Auth` is the middleware chain with the user handlers, `AuthRequests` what each request is answered and
  changes, `AuthRuns` whole runs of requests. `FlagHandlers` are the flag and cluster handlers, `FlagOutcome` what each
  request stores, field by field, and `FlagHistory` what the audit log says about them.

Calls that may fail take their outcome as a parameter: a `Budget` of successful API calls for the operator, `Outside`
values for HTTP handlers. Clocks, random tokens, ids, password comparison and JSON decoding are parameters as well.

## Where the code differs from what one may expect

The model follows the code. Where a promise is false as stated, a lemma gives the exact condition.

- A disabled flag returns early, so values delivered before stay in place (`featureflag_controller.go:50-52`).
- Only Deployments are updated, although StatefulSets and DaemonSets are discovered and labelled with flags.
- A delivery error becomes phase Failed with a nil error, so nothing retries it (`featureflag_controller.go:60-72`).
- An invalid environment selector fails the first channel, and the ConfigMap of the same flag is then never written
  (`CleanReconcileDelivers`, `InvalidSelectorSkipsConfigMap`).
- A missing ConfigMap key reads as "", so a flag with value "" never creates its key in an existing ConfigMap.
- The sidecar serves the status value first, so an edit shows only after the next reconcile (`EditIsServedLate`).
- `GetFlag` of the sidecar provider puts the name into the URL as it is and stores the answer under that name. The sidecar
  reads the decoded path segment, so a name with '?', '#' or '%' asks for another flag, and one with '/' for another
  route; the flag is then cached under a name that is not its own (`StoredUnderOwnName`, `EscapedNameIsMisfiled`).
- At the very instant of expiry the memory store still accepts a session and PostgreSQL does not (`CallAlike`).
- Different matches with equal timestamps have one order in memory and any order in PostgreSQL (`TiesLeaveAChoice`).
- Asking for the workloads of a system namespace by name lists them, the listing of all namespaces leaves them out. And
  since the scanner's set of managed ConfigMaps is not cleared between namespaces, the listing of all shows ConfigMaps
  that the listing of the one namespace does not (`ListingsAgree`).
- The scanner's comment promises only managed ConfigMaps, but a flag variable's own ConfigMap reference is shown
  without that check (`OnlyManagedAreShown`).
- Two toggles restore a boolean flag only if its value was "true" or "false" (`TogglesCancel`).
- A registered id is only a name for a connection: `AddCluster` refuses a repeated id, not a repeated server. While two
  ids reach one server, the audit log read by id does not show which flags exist (`ExactByIdIffApart`,
  `NewestTellsIffSole`, `AliasedIdsMislead`); read with the servers that the ids reach, it always does (`ReplayIsLive`).
- A role is fixed in the session at login; later role changes and deletions of the account do not end the session
  (`GateOpensExactly` speaks of the role at login for this reason).

## Model

| member | source | states |
|---|---|---|
| OperatorDelivery.InjectThenRead | internal/operator/controllers/featureflag_controller.go:108-130 | after injection the first entry of the flag's variable holds the value, and every other variable reads as before |
| OperatorDelivery.InjectNoop | internal/operator/controllers/featureflag_controller.go:112-129 | a container is left as it was exactly when the value was readable already; injecting twice is injecting once |
| OperatorDelivery.InjectFrame | internal/operator/controllers/featureflag_controller.go:108-130 | other entries, all names, references and the order stay; at most one entry is appended, and only when the name was missing; distinct names stay distinct |
| OperatorDelivery.InjectLiteral | internal/operator/controllers/featureflag_controller.go:112-129 | the entry read back is a literal one unless the container took that name from a reference before |
| OperatorDelivery.InjectDeployment | internal/operator/controllers/featureflag_controller.go:104-138 | one Deployment: every container reads the value, labels stay, nothing changes exactly when every container read it before |
| OperatorDelivery.DeliverListedCut | internal/operator/controllers/featureflag_controller.go:104-151 | a loop that fails at the k-th listed Deployment leaves those before k delivered and those from k on untouched, with exactly the updates that those before k needed |
| OperatorReconcile.DeliverStands | internal/operator/controllers/featureflag_controller.go:55-74 | however a delivery ends, it has reached a subset of the targets and has written the ConfigMap only after reaching all of them |
| OperatorReconcile.CleanReconcileDelivers | internal/operator/controllers/featureflag_controller.go:34-76 | without API failure the value becomes readable in every container of every selected Deployment and in the ConfigMap if and only if the environment selector is valid or the ConfigMap held it already; the phase is Active exactly in the first case, and the count is the number of targets |
| OperatorReconcile.InvalidSelectorSkipsConfigMap | internal/operator/controllers/featureflag_controller.go:58-72 | a concrete flag with an invalid environment selector whose ConfigMap is never written |
| OperatorReconcile.CleanReconcileClosedForm | internal/operator/controllers/featureflag_controller.go:34-76 | the whole result of a clean reconcile in closed form, the same for every listing order |
| OperatorReconcile.RetryReachesCleanState | internal/operator/controllers/featureflag_controller.go:54-76 | after an attempt that failed anywhere, a clean reconcile reaches exactly the Deployments, annotations, ConfigMaps and status that one clean run from the start reaches |
| OperatorReconcile.RetriesReachCleanState | internal/operator/controllers/featureflag_controller.go:54-76 | the same after any number of failed attempts, each with its own order and failure |
| OperatorReconcile.SecondReconcileWritesNothing | internal/operator/controllers/featureflag_controller.go:104-151 | after a clean reconcile another one issues no Deployment and no ConfigMap write |
| OperatorReconcile.ReconcileFrame | internal/operator/controllers/featureflag_controller.go:90-204 | no attempt changes unselected Deployments, other namespaces, other ConfigMaps, other keys of the flag's ConfigMap, or other flags |
| OperatorOutcome.VariableArrives | internal/operator/controllers/featureflag_controller.go:84-130 | after a clean reconcile of an enabled flag with a valid environment selector, every container of every Deployment of the flag's namespace that the selector matches reads the default value under the configured name, or under the default name when none is configured; every other name and every other Deployment reads as before |
| OperatorOutcome.ReadableMeans | internal/operator/controllers/featureflag_controller.go:84-130 | what the results on runs call readable, for an environment channel: the default value under exactly that name in exactly those containers |
| OperatorOutcome.AnnotationTells | internal/operator/controllers/featureflag_controller.go:132-138 | labels stay; the tracking annotation becomes "flag=value" exactly if some container changed, and other annotations stay |
| OperatorOutcome.NoVariableAsked | internal/operator/controllers/featureflag_controller.go:50-58 | no attempt changes a Deployment for a flag that is gone, disabled or without environment channel |
| OperatorOutcome.ConfigMapArrives | internal/operator/controllers/featureflag_controller.go:155-207 | the named ConfigMap of the flag's namespace is made with the managed label and the one entry, or given that entry with all else kept; an empty value adds no entry; no other ConfigMap changes |
| OperatorOutcome.NoConfigMapAsked | internal/operator/controllers/featureflag_controller.go:50-72 | no attempt changes a ConfigMap for a flag that is gone, disabled or without ConfigMap channel |
| OperatorOutcome.StatusTells | internal/operator/controllers/featureflag_controller.go:34-76 | whatever fails, an attempt errs exactly if the flag cannot be read or its status not be written, and a written status holds the default value, phase Disabled exactly for a disabled flag, and a count of 0 unless active |
| OperatorOutcome.ListedSpends | internal/operator/controllers/featureflag_controller.go:104-151 | a loop over listed Deployments succeeds exactly if every update that it needs can be made |
| OperatorOutcome.ActiveIffEnoughCalls | internal/operator/controllers/featureflag_controller.go:34-207 | an attempt at a deliverable flag ends active if and only if as many API calls succeed as it needs: one for the flag, one for each configured channel, and one for each write |
| OperatorOutcome.EnoughCallsSuffice | internal/operator/controllers/featureflag_controller.go:34-207 | with that many calls the attempt does exactly what one without failures does |
| OperatorOutcome.WritesTell | internal/operator/controllers/featureflag_controller.go:104-204 | a clean reconcile writes exactly the objects that differ afterwards, each with the write of its kind |
| OperatorRuns.OthersKeepReadable | internal/operator/controllers/featureflag_controller.go:104-204 | a reconcile of another flag with other slots, however it fails, takes no readable value away |
| OperatorRuns.OwnKeepsReadable | internal/operator/controllers/featureflag_controller.go:34-76 | a reconcile of the flag itself, however it fails, takes no readable value away |
| OperatorRuns.SettledFlagReadable | internal/operator/controllers/featureflag_controller.go:34-207 | after any run, an enabled flag whose environment selector is valid, or missing, and that was reconciled once without API failure since its last edit is readable |
| OperatorRuns.Confluence | internal/operator/controllers/featureflag_controller.go:34-207 | any run of edits, removals and reconciles in any order, with repeats and failures, over flags with distinct slots: if each enabled flag was reconciled once without API failure after its last edit, the values of all that have a valid environment selector, or none, are readable at once |
| OperatorRuns.SlotsAre | internal/operator/controllers/featureflag_controller.go:84-88 | two flags share a slot exactly if they live in one namespace and ask for the same variable, configured or default, or for the same key of the same ConfigMap |
| OperatorRuns.SharedSlotExcludes | internal/operator/controllers/featureflag_controller.go:84-130 | two flags with different values that share a slot are never both readable, so distinct slots are needed |
| OperatorRuns.DefaultNamesApart | internal/operator/controllers/featureflag_controller.go:84-88 | flags of legal names with default variable names have distinct slots by themselves |
| Reconciler.ApiServer.ListDeployments | internal/operator/controllers/featureflag_controller.go:99-102 | lists exactly the Deployments of the namespace that the selector matches, in some order, or fails |
| Reconciler.FeatureFlagReconciler.InjectContainer | internal/operator/controllers/featureflag_controller.go:108-130 | the innermost loop computes the injection and tells whether it changed anything |
| Reconciler.FeatureFlagReconciler.InjectContainers | internal/operator/controllers/featureflag_controller.go:104-138 | the container loop computes the new Deployment, with the annotation only if something changed |
| Reconciler.FeatureFlagReconciler.DeliverItems | internal/operator/controllers/featureflag_controller.go:104-151 | the Deployment loop makes exactly the updates of the specification and stops at the first failing one |
| Reconciler.FeatureFlagReconciler.DeliverViaEnvVar | internal/operator/controllers/featureflag_controller.go:80-152 | the environment channel, with an invalid selector, a failing list and failing updates |
| Reconciler.FeatureFlagReconciler.DeliverViaConfigMap | internal/operator/controllers/featureflag_controller.go:155-207 | the ConfigMap channel: create when missing, update only when the value differs |
| Reconciler.FeatureFlagReconciler.Reconcile | internal/operator/controllers/featureflag_controller.go:34-76 | one reconcile leaves the cluster, the calls and the error that the specification says, for the listing it saw |
| EnvNames.SuffixRoundTrip | sdks/go/vexil/env_provider.go:13-41 | over legal names, the inverse mapping of `GetAllFlags` recovers the flag name |
| EnvNames.EnvNamesInjective | sdks/go/vexil/env_provider.go:13-15 | two legal flag names never share a variable |
| EnvNames.UnderscoreCollides | sdks/go/vexil/env_provider.go:13-15 | outside the legal names the mapping is not injective |
| EnvNames.VariableSpelling | sdks/go/vexil/env_provider.go:13-15 | the variable is "FLAG_" and then the flag name, character by character, with underscores for dashes and capitals for small letters |
| EnvNames.FlagNameSpelling | sdks/go/vexil/env_provider.go:41 | the inverse mapping, character by character |
| EnvProvider.GetAllFlags | sdks/go/vexil/env_provider.go:30-49 | the loop lists exactly the flags that the environment strings stand for |
| EnvProvider.LookupReadsFirst | sdks/go/vexil/env_provider.go:17-28 | looking a name up in a container's literal environment reads its first entry of that name |
| EnvProvider.GetFlagMeans | sdks/go/vexil/env_provider.go:17-28 | a single read answers the value of the first string that assigns the flag's variable, empty or not, as an enabled flag of type string; it fails if and only if no string assigns it |
| EnvProvider.StringMeans | sdks/go/vexil/env_provider.go:32-46 | a string is listed as a flag if and only if it assigns a variable that starts with FLAG_, and as just that flag |
| EnvProvider.AllFlagsJoin | sdks/go/vexil/env_provider.go:30-49 | the listing follows the environment, string by string |
| EnvProvider.InjectedFlagIsServed | internal/operator/controllers/featureflag_controller.go:84-130 | end to end: after injection under the default name `GetFlag` answers the value, `GetAllFlags` lists the flag, and distinct names stay distinct so that nothing contradicts it |
| SidecarStore.KeptIsSubsequence | sidecar/main.go:103-112 | what a subscriber kept is an in-order subsequence of what it was offered and misses only what was dropped |
| SidecarStore.Channel.TrySend | sidecar/main.go:107-110 | a send appends, or drops when 64 are waiting, and never blocks |
| SidecarStore.FlagStore.Set | sidecar/main.go:58-63 | stores under the flag's own name and offers it once to every subscriber |
| SidecarStore.FlagStore.Delete | sidecar/main.go:65-69 | removes one name and tells no subscriber |
| SidecarStore.FlagStore.Get | sidecar/main.go:71-76 | answers the entry of that name, whose own name it is, or nothing |
| SidecarStore.FlagStore.All | sidecar/main.go:78-86 | answers every entry exactly once, whatever the map order |
| SidecarStore.FlagStore.Subscribe | sidecar/main.go:88-94 | adds an empty, open channel |
| SidecarStore.FlagStore.Unsubscribe | sidecar/main.go:96-101 | removes the channel from the set and closes it, so that no subscribed channel is closed |
| SidecarStore.FlagStore.Broadcast | sidecar/main.go:103-112 | offers the flag once to every subscriber, whatever the map order, and meets no closed channel |
| SidecarProtocol.LossyBroadcast | sidecar/main.go:88-112 | in every interleaving: consumed plus buffered values are exactly the offers that were not dropped, drops happen only at 64, and no send meets a closed channel |
| SidecarProtocol.OffersAreBroadcasts | sidecar/main.go:103-112 | the offers to a subscriber are exactly the broadcasts of the run since its subscription |
| SidecarProtocol.SubscriberSeesSubsequence | sidecar/main.go:88-112 | for every subscriber of every run: what it consumed and buffers is an in-order subsequence of the broadcasts since its subscription, at most 64 wait, and a value is missing only if 64 were waiting at its broadcast |
| SidecarProtocol.LeftHearsNothing | sidecar/main.go:96-101 | in every run after a subscriber has left it is offered nothing more |
| SidecarProtocol.FetchStores | sdks/go/vexil/sidecar_provider.go:43-62 | from any state a fetch by a plain name brings the map's flag of that name into the cache, and nothing if there is none |
| SidecarProtocol.FetchAllStores | sdks/go/vexil/sidecar_provider.go:65-81 | from any state a full fetch brings every flag of the map into the cache, and leaves other names alone |
| SidecarProtocol.CacheSound | sdks/go/vexil/sidecar_provider.go:37-123 | in every interleaving of writes, broadcasts, stream reads, cuts, reconnects and fetches each cached entry is stored under its own flag name and is a value that the sidecar's map held, unless its key is a name that is not plain and was itself fetched |
| SidecarProtocol.StoredUnderOwnName | sdks/go/vexil/sidecar_provider.go:37-63 | flags having plain names, what a single fetch makes the client store is the map's flag of that name if and only if the name is plain: it has no '?', '#', '%' or '/' and is not a dot segment |
| SidecarProtocol.EscapedNameIsMisfiled | sdks/go/vexil/sidecar_provider.go:43-62 | a flag with a dash, fetched with the dash written as %2D, is cached under the escaped name |
| FlagPaths.PlainIffOwnPath | sidecar/main.go:250-253 | of the fetches that are answered, exactly those for plain names ask the sidecar for the flag that was named |
| FlagPaths.EscapedDash | sidecar/main.go:250-253 | the sidecar reads the decoded segment, so %2D asks for the flag with a dash |
| FlagPaths.EscapedDarkMode | sidecar/main.go:250-253 | the fetch under "dark%2Dmode" asks for the flag "dark-mode" |
| FlagPaths.SlashLeavesTheRoute | sidecar/main.go:249-276 | a name with a slash leaves the route of single flags |
| FlagPaths.QueryIsCut | sdks/go/vexil/sidecar_provider.go:44 | what follows a question mark does not change which flag is asked for |
| FlagPaths.FragmentIsCut | sdks/go/vexil/sidecar_provider.go:44 | what follows a number sign is not sent, but a malformed escape in it fails the fetch |
| FlagPaths.EscapeIsByte | sidecar/main.go:250-253 | an escape of two hexadecimal digits, small or capital, is the byte that they spell, for all 256 bytes |
| CacheAgreement.StoreUnderQueue | sdks/go/vexil/sidecar_provider.go:58-63 | a fetched value only matters for names that the stream will not mention any more |
| CacheAgreement.LastOfNameWins | sdks/go/vexil/sidecar_provider.go:111-121 | reading a queue leaves under each name the last flag of that name, and keeps the names that it does not mention |
| CacheAgreement.StepKeepsCourse | sdks/go/vexil/sidecar_provider.go:37-123 | every step of a calm run keeps: reading what is on its way would make cache and store agree |
| CacheAgreement.DrainedCacheAgrees | sdks/go/vexil/sidecar_provider.go:37-123 | if at the subscription the cache is empty and no outdated answer waits to be stored, and from then on the stream stays connected, nothing is dropped or deleted and no fetch straddles an update, then a drained stream makes cache and store agree on every cached name, apart from names that were fetched although they are not plain |
| CacheAgreement.UpdateArrives | sidecar/main.go:58-63 | from any connected state without a pending broadcast an update can arrive: a calm run brings the new flag into the cache and drains the stream |
| CacheAgreement.MovesDrain | sidecar/main.go:236-247 | in every calm run without writes each broadcast, send and read takes one from the backlog and nothing else changes it, so the stream is drained exactly when the run has as many of them as the backlog |
| CacheAgreement.SomeMovePossible | sidecar/main.go:103-112 | while there is a backlog some such step is possible |
| CacheAgreement.StreamDrains | sdks/go/vexil/sidecar_provider.go:107-121 | from any connected state the stream can be drained, and the cache is then what reading everything on its way makes of it |
| CacheAgreement.WrittenIsComing | sidecar/main.go:58-63 | in a calm run every flag that is written is in the cache or on its way to it |
| SidecarProvider.Provider.GetFlag | sdks/go/vexil/sidecar_provider.go:37-63 | the cache answers first; otherwise only a decodable answer of status 200 succeeds, and it is stored under the name asked for |
| SidecarProvider.Provider.GetAllFlags | sdks/go/vexil/sidecar_provider.go:65-81 | stores every listed flag under its own name, the later over the earlier |
| SidecarProvider.Provider.ReadStream | sdks/go/vexil/sidecar_provider.go:109-121 | the line loop stores exactly the decodable payloads of the connection, in order |
| SidecarProvider.Provider.StreamUpdates | sdks/go/vexil/sidecar_provider.go:83-124 | the reconnect loop fills the cache connection by connection, and sleeps 2 to the number of refusals since the last accepted connection, at most 30 seconds |
| SidecarProvider.FirstDelay | sdks/go/vexil/sidecar_provider.go:84-98 | the first wait takes a second |
| SidecarProvider.NextDelay | sdks/go/vexil/sidecar_provider.go:94-106 | after a refusal the wait is twice as long, but at most 30 seconds; a request that cannot be built keeps it |
| SidecarProvider.DelayAfterStream | sdks/go/vexil/sidecar_provider.go:108 | a stream adds no wait, and the next wait is a second again |
| SidecarProvider.CutFillsWholeFlags | sdks/go/vexil/sidecar_provider.go:107-122 | a connection cut at any byte fills the cache as if a whole number of the framed flags had been read, and an uncut one as if all had, up to the first flag that is, with its description, too long for a line |
| SidecarProvider.ConnectionFills | sdks/go/vexil/sidecar_provider.go:87-123 | one more connection of the loop stores, over what was cached, a whole number of the framed flags, and a failed one nothing |
| SidecarProvider.CodecExists | sidecar/main.go:243-245 | what the previous row asks of JSON can be met for every list of flags, with all of up to 65000 flags fitting |
| SidecarProvider.ReadsApply | sdks/go/vexil/sidecar_provider.go:109-121 | in the interleaved system, reading the wire to its end is what the line loop does to the cache |
| SidecarProvider.CutThenRead | sdks/go/vexil/sidecar_provider.go:107-122 | a cut ends the stream, and reading on brings exactly what had arrived into the cache |
| WatchFold.Consume | sidecar/main.go:172-187 | the watch loop leaves the fold of the session's events in the store |
| WatchFold.StepKeepsTracking | sidecar/main.go:152-191 | over cluster changes, session starts and breaks: folding what is queued gives every live flag in its current version, and only flags whose deletion was missed beside them |
| WatchFold.CaughtUp | sidecar/main.go:138-194 | when a watch session is caught up, the store serves every live flag under its name with the type, disabled bit and description of its spec and its status value, or the default where that is empty; anything else is a flag whose deletion was never delivered |
| Serving.EditIsServedLate | sidecar/main.go:114-126 | an edited value is served before the next reconcile exactly when the status is empty or already equal to it |
| Serving.ReconcileBringsUpToDate | internal/operator/controllers/featureflag_controller.go:34-76 | a reconcile that reads the flag and writes its status makes the sidecar's view the spec's value, even when delivery fails or the flag is disabled, and otherwise leaves the view as it was |
| Serving.ReconciledFlagIsServed | sidecar/main.go:114-194 | operator, watcher and store together: once the status is written and the watch has caught up, the store serves the value, disabled bit, type and description of the spec |
| EndToEnd.RunProjects | sidecar/main.go:138-194 | a run of cluster, watcher, sidecar and client is a run of the watcher and a run of the protocol |
| EndToEnd.RunKeepsOneStore | sidecar/main.go:172-187 | the map that the watcher folds into is the map that the sidecar serves, in every run |
| EndToEnd.CacheShowsCluster | sidecar/main.go:152-191 | at rest after a good run every cached flag has the name, type, disabled bit and value of the live flag in its current version, unless the watch missed the deletion of that flag |
| EndToEnd.HandledIsCached | sdks/go/vexil/sidecar_provider.go:109-121 | at rest after a good run every flag that the watcher handled since the subscription is cached |
| EndToEnd.SpecReachesCache | internal/operator/controllers/featureflag_controller.go:34-76 | from the spec to the SDK: once the status is written, the watch caught up and the stream drained, the cached entry of the flag holds the value and the disabled bit of the spec |
| EndToEnd.FlagArrives | sdks/go/vexil/sidecar_provider.go:83-124 | for any flag there is such a run that ends with the flag in the cache |
| EventStream.ReceiveFrame | sidecar/main.go:243-245 | a framed payload is read back, and the rest of the stream follows |
| EventStream.FrameText | sidecar/main.go:243-245 | the bytes of one event |
| EventStream.LineMeans | sdks/go/vexil/sidecar_provider.go:111-116 | a line carries a payload exactly if it starts with "data: ", and what follows is the payload |
| EventStream.RoundTrip | sidecar/main.go:243-245 | framing one-line payloads and running the line loop returns them up to the first that does not fit a line, so all of them exactly when all fit (server-sent events, section 9.2 of the WHATWG HTML Standard) |
| EventStream.SurvivesIffIntact | sdks/go/vexil/sidecar_provider.go:107-121 | a payload survives exactly when it has no newline, no trailing carriage return and leaves its line shorter than 65536 bytes |
| EventStream.CutStream | sdks/go/vexil/sidecar_provider.go:107-121 | a stream cut at any byte yields a prefix of the payloads that fit, plus at most one truncated payload |
| AuditLog.MemoryAudit.RecordAudit | internal/apiserver/store/memory.go:36-45 | appends one event with an id and time of the store's own |
| AuditLog.MemoryAudit.ListAuditEvents | internal/apiserver/store/memory.go:47-84 | the filter loop, the reversal and the cut give the listing |
| AuditLog.MemoryAudit.SwapEnds | internal/apiserver/store/memory.go:74-77 | the two-index swap loop reverses the list in place |
| AuditLog.ListingIsNewest | internal/apiserver/store/memory.go:47-84 | with append times that never fall, the result holds as many matches as the limit allows, newest first, and no omitted match is newer than a returned one |
| AuditLog.NewestGoesFirst | internal/apiserver/store/memory.go:47-84 | one more event goes to the front of a listing exactly if it meets each of the six conditions that the filter states, and the listing is then cut at a positive limit |
| AuditQuery.Compile | internal/apiserver/store/postgres.go:97-139 | the query is conditions, then ORDER BY, then LIMIT if there is one; placeholders are numbered 1 to n without gap, one argument each; the conditions select exactly the rows that pass the filter; the limit is the filter's |
| AuditQuery.QueryPreservesMeaning | internal/apiserver/store/postgres.go:97-166 | over a table with the same events in any order, the memory store's listing is an answer of the compiled query; it is the only one if and only if no listed match shares its time with a different match |
| AuditQuery.NewestFirstUnique | internal/apiserver/store/postgres.go:134 | where times settle the order, every newest-first ordering of the same events starts the same |
| AuditQuery.TiesLeaveAChoice | internal/apiserver/store/postgres.go:134-139 | two different matches of the same time, one of them listed, give the database another answer, for every table and limit |
| AuditQuery.StrictTimesSettle | internal/apiserver/store/memory.go:36-45 | append times that rise strictly among the matches settle every listing |
| Accounts.MemoryStore.Perform | internal/apiserver/store/memory.go:86-188 | the user and session methods on Go maps |
| Accounts.MemoryStore.ListSorted | internal/apiserver/store/memory.go:127-140 | every user once, without the hash, sorted by username |
| Accounts.PostgresStore.Perform | internal/apiserver/store/postgres.go:169-284 | unique keys are kept; a read answers from the row of its key and changes nothing; a write rewrites, removes or adds the rows of its key in one table, leaves every other row as it was, and tells whether such a row existed |
| Accounts.StatementRows | internal/apiserver/store/postgres.go:169-284 | every statement has exactly that effect on the rows |
| Accounts.AccountStored | internal/apiserver/store/memory.go:110-125 | a new account is stored as given, beside all others; only a missing id or creation time is filled in |
| Accounts.CallBoth | internal/apiserver/store/memory.go:86-188 | the same call on both objects keeps them alike, and they answer the same if and only if it does not ask for a session at the instant of its expiry |
| Accounts.CallAlike | internal/apiserver/store/postgres.go:169-284 | one call keeps the two stores alike, and they answer the same if and only if it does not ask for a session at the instant of its expiry |
| Accounts.StoresAgree | internal/apiserver/store/memory.go:86-188 | any sequence of calls is answered the same by both stores if and only if it never asks for a session at that instant |
| WorkloadMatching.CacheListing | internal/apiserver/handlers/workloads.go:189-209 | caching one listing adds, for every namespace and labels, exactly the flags of that listing that aim at them |
| WorkloadMatching.BuildCache | internal/apiserver/handlers/workloads.go:176-210 | whatever order the namespaces come in, the cache answers every workload as the specification says |
| WorkloadMatching.Attach | internal/apiserver/handlers/workloads.go:213-221 | the matching loop appends to one workload, in place, the cached flags that match it |
| WorkloadMatching.Enrich | internal/apiserver/handlers/workloads.go:169-222 | every workload of the list gets its flags in place, and nothing else of it changes |
| WorkloadMatching.NamedListings | internal/apiserver/handlers/workloads.go:169-222 | in every list of workloads with namespaces, as all workload objects of Kubernetes have, each gets exactly the flags of its own namespace whose first configured selector matches it, in list order, or nothing when those flags cannot be listed |
| WorkloadMatching.AttachedByFirstChannel | internal/apiserver/handlers/workloads.go:189-221 | a flag of the workload's namespace is attached if and only if its first configured channel, in the order environment, ConfigMap, sidecar, has a selector that is valid and matches; a first channel without selector hides the later ones, and without a channel the flag is never attached |
| WorkloadMatching.AttachedAreOwn | internal/apiserver/handlers/workloads.go:213-221 | only flags of the workload's own namespace are attached, and nothing else about the workload changes |
| LabelSelectors.SelectsIff | internal/apiserver/handlers/workloads.go:204-218 | a valid selector selects the labels that hold all its pairs and meet all its expressions; an empty one selects everything and a missing one nothing |
| LabelSelectors.RefusedIff | internal/apiserver/handlers/workloads.go:204-207 | a selector is refused exactly if it asks for something and an expression has the wrong number of values for its operator, an unknown operator or an illegal text |
| LabelSelectors.RequirementMeans | internal/apiserver/handlers/workloads.go:213-218 | the four operators on the value of a label, where a missing label meets NotIn |
| WorkloadMatching.CacheRefinesNaive | internal/apiserver/handlers/workloads.go:169-222 | for lists that no cluster gives: the same if and only if no listed workload has an empty namespace, or the repetition adds nothing |
| Discovery.Scanner.LoadVexilConfigMaps | internal/discovery/scanner.go:75-80 | managed ConfigMap names accumulate, and a failing list forgets them all |
| Discovery.Scanner.ScanNamespace | internal/discovery/scanner.go:75-144 | the Deployments, StatefulSets and DaemonSets of the namespace, in that order, with labels, replicas and the containers as shown with the managed set of that moment; or a failure when one kind cannot be listed |
| Discovery.ScanShows | internal/discovery/scanner.go:82-143 | a scan shows exactly the objects of the three kinds in the namespace, each with its kind, key and labels, its replica count, or 0 where there is none, and the containers as shown |
| Discovery.OperatorAndDiscoveryAgree | internal/apiserver/handlers/workloads.go:189-221 | the count of a successful environment delivery, whatever its budget of calls, is the number of Deployment entries that discovery labels with the flag, for nil, empty and any other valid selector |
| WorkloadListing.CollectNamespaces | internal/apiserver/handlers/workloads.go:135-156 | every namespace that holds a flag, once each, sorted |
| TextOrder.RisingUnique | internal/apiserver/handlers/workloads.go:150-155 | a set of names has one sorted listing, so the map order cannot show |
| WorkloadListing.ScanCluster | internal/discovery/scanner.go:157-175 | the scans of the given namespaces in order, without system namespaces and without those that fail, each shown with the managed set gathered so far, and the set that remains |
| WorkloadListing.SystemAreSkipped | internal/discovery/scanner.go:146-175 | the four namespaces of the system and those that cannot be scanned are left out, every other one of the list is there |
| WorkloadListing.GatheredIff | internal/discovery/scanner.go:177-190 | a ConfigMap counts as managed exactly if a namespace scanned before named it, or the scanner knew it at the start, and no list of ConfigMaps has failed since |
| WorkloadListing.List | internal/apiserver/handlers/workloads.go:51-93 | the listing endpoint, for an unknown cluster, for one namespace and for all, with flags attached |
| WorkloadListing.ListingsAgree | internal/apiserver/handlers/workloads.go:51-93 | the listing of one namespace is its part of the listing of all, flags and containers included, if and only if it has no flags, or is a system namespace without workloads, or is neither and none of its containers takes in a whole ConfigMap that is managed only in a namespace scanned before |
| ContainerScan.ExtractContainersSafe | internal/discovery/scanner.go:196-249 | the nested loops show of each container exactly the flag variables and the ConfigMap references of the specification |
| ContainerScan.VariableShown | internal/discovery/scanner.go:205-233 | which variables are shown, and of each one its name, flag name, value, source and mask |
| ContainerScan.ContainerShown | internal/discovery/scanner.go:196-249 | variables and references follow the container's order, keys before whole ConfigMaps, and only managed whole ConfigMaps are shown |
| ContainerScan.HiddenPartsDoNotShow | internal/discovery/scanner.go:192-195 | containers that differ only in secrets, in other variables, in unmanaged sources or in literals beside references look the same |
| ContainerScan.OnlyManagedAreShown | internal/discovery/scanner.go:192-195 | only managed ConfigMaps are shown if and only if no flag variable takes its value from an unmanaged one |
| ContainerScan.LargerSetShowsMore | internal/discovery/scanner.go:235-243 | with a larger managed set a container looks the same if and only if it takes in no whole ConfigMap that only the larger set knows |
| DeepCopy.CopySlice | pkg/apis/v1alpha1/zz_generated.deepcopy.go:158-165 | a new slice with the same elements, nil for nil |
| DeepCopy.CopyRules | pkg/apis/v1alpha1/zz_generated.deepcopy.go:73-81 | equal rules with conditions, values and percentage in nodes made here |
| DeepCopy.CopyRule | pkg/apis/v1alpha1/zz_generated.deepcopy.go:131-145 | an equal rule in nodes made here |
| DeepCopy.CopyDelivery | pkg/apis/v1alpha1/zz_generated.deepcopy.go:178-195 | equal delivery channels and selectors in nodes made here |
| DeepCopy.CopyRollout | pkg/apis/v1alpha1/zz_generated.deepcopy.go:268-275 | equal rollout steps in nodes made here |
| DeepCopy.CopyStatus | pkg/apis/v1alpha1/zz_generated.deepcopy.go:105-118 | equal status in nodes made here |
| DeepCopy.DeepCopyInto | pkg/apis/v1alpha1/zz_generated.deepcopy.go:14-20 | writes an equal flag into `out`, whose other nodes are all new, and leaves the source as it was |
| DeepCopy.DeepCopy | pkg/apis/v1alpha1/zz_generated.deepcopy.go:23-30 | a structurally equal flag in nodes that are all new, so it shares none with the source |
| DeepCopy.EqualContentMeans | pkg/apis/v1alpha1/zz_generated.deepcopy.go:14-30 | what the rows above call equal: the same plain parts throughout, nil where the other is nil, and slices of the same elements in the same order, through rules, channels, rollout and status |
| DeepCopy.SourceIsIndependent | pkg/apis/v1alpha1/zz_generated.deepcopy.go:14-30 | no change to the copy's nodes is visible through the source |
| DeepCopy.CopyIsIndependent | pkg/apis/v1alpha1/zz_generated.deepcopy.go:14-30 | no change to the source's nodes is visible through the copy |
| Auth.RequireRole | internal/apiserver/middleware/middleware.go:125-141 | the lookup table admits exactly the listed roles |
| Auth.AuthHandler.ValidateToken | internal/apiserver/handlers/auth.go:30-32 | the stored session of the token, if it has not expired |
| Auth.AuthHandler.Login | internal/apiserver/handlers/auth.go:50-88 | all ways to fail, and the session that a success stores |
| Auth.AuthHandler.Logout | internal/apiserver/handlers/auth.go:91-100 | removes the session of the bearer token |
| Auth.AuthHandler.CreateUser | internal/apiserver/handlers/auth.go:136-179 | all ways to fail, and the account that a success stores |
| Auth.AuthHandler.UpdateUser | internal/apiserver/handlers/auth.go:187-235 | who may change what; the role is changed before the password, so a hashing failure keeps the new role |
| Auth.AuthHandler.DeleteUser | internal/apiserver/handlers/auth.go:238-258 | all ways to fail, and the account that a success removes |
| Auth.AuthHandler.ServeHTTP | internal/apiserver/middleware/middleware.go:33-72 | one request through the token check, the route's role check and the handler |
| AuthRequests.LoginAnswered | internal/apiserver/handlers/auth.go:50-88 | a login is answered 200 if and only if the body decodes, both fields are there, the account exists, the password matched and a token was made; it then stores one session of 24 hours with the account's role, and with any other answer nothing changes |
| AuthRequests.LogoutAnswered | internal/apiserver/handlers/auth.go:91-100 | a logout with a live session ends that session and no other |
| AuthRequests.SessionNeeded | internal/apiserver/middleware/middleware.go:33-72 | a request that bears no live session is answered 401 and changes nothing, unless it is a preflight, the health check or a login |
| AuthRequests.GatesAre | internal/apiserver/server.go:61-95 | the roles that each route asks for |
| AuthRequests.EndpointAnswered | internal/apiserver/middleware/middleware.go:125-141 | a role outside the route's list is answered 403, any other reaches the handler |
| AuthRequests.NewUserAnswered | internal/apiserver/handlers/auth.go:136-179 | an account is created if and only if the caller is an admin, the body is complete with one of the three roles, a hash could be made and the name is free; it gets that hash and role, and all other accounts stay |
| AuthRequests.EditUserAnswered | internal/apiserver/handlers/auth.go:187-235 | which edits are applied, and what each leaves in every field of the account |
| AuthRequests.EditUserRefused | internal/apiserver/handlers/auth.go:187-235 | which edits are refused, and how |
| AuthRequests.RemoveUserAnswered | internal/apiserver/handlers/auth.go:238-258 | an account is removed if and only if the caller is an admin, it exists and is not the caller's own; sessions stay |
| AuthRequests.MeAnswered | internal/apiserver/handlers/auth.go:103-127 | asking who one is, or for the accounts, is answered exactly with a live session, and changes nothing |
| AuthRuns.TokenStep | internal/apiserver/handlers/auth.go:50-100 | what one request changes under one token: a storing login, a logout, or nothing |
| AuthRuns.SessionsTellAlways | internal/apiserver/handlers/auth.go:50-100 | after every run the session map holds exactly the standing logins with the role they saw, and expired entries |
| AuthRuns.GateOpensExactly | internal/apiserver/middleware/middleware.go:33-141 | in every history a handler behind a role gate is entered if and only if the latest login that issued the token, with a password that matched, saw an allowed role, no logout bore the token since, and at most 24 hours have passed |
| AuthRuns.RolesStayKnown | internal/apiserver/handlers/auth.go:136-235 | user and session roles stay in admin, editor and viewer |
| AuthRuns.AccountsChangeByRight | internal/apiserver/server.go:67-76 | without an admin session a request changes no account name and no role, and at most the caller's own password; no request removes its caller's account |
| AuthRuns.OnlyAdminsChangeAccounts | internal/apiserver/server.go:67-76 | a run without admin sessions leaves the set of accounts and their roles as they were |
| FlagHandlers.FlagHandler.CreateFlag | internal/apiserver/handlers/flags.go:94-142 | all ways to fail without a trace, and the flag, active and enabled, and the audit event of a success |
| FlagHandlers.FlagHandler.UpdateFlag | internal/apiserver/handlers/flags.go:172-236 | all ways to fail without a trace, and the flag and the audit event of a success |
| FlagHandlers.FlagHandler.DeleteFlag | internal/apiserver/handlers/flags.go:239-275 | all ways to fail without a trace, and the removal and the audit event of a success |
| FlagHandlers.FlagHandler.ToggleFlag | internal/apiserver/handlers/flags.go:278-326 | all ways to fail without a trace, and the flag and the audit event of a success |
| FlagHandlers.FlagHandler.RegisterCluster | internal/apiserver/handlers/clusters.go:62-99 | all ways to fail without a trace, and the connection and the audit event of a success |
| FlagHandlers.ClusterManager.AddCluster | internal/multicluster/manager.go:65-106 | a repeated id is refused, a kubeconfig goes before a token and one of them is needed; a success connects the id to the server that the configuration reaches |
| FlagHandlers.ClusterManager.AddClusterFromConfig | internal/multicluster/manager.go:109-127 | the registration at start-up replaces an id that exists |
| FlagHandlers.FlagHandler.RemoveCluster | internal/apiserver/handlers/clusters.go:122-138 | all ways to fail without a trace, and the removal and the audit event of a success |
| FlagOutcome.CreateAnswered | internal/apiserver/handlers/flags.go:94-142 | a flag is created if and only if the body is complete, the id is registered, the server takes the name and does not have it, and the write goes through; the stored fields and the event one by one, and nothing else changes |
| FlagOutcome.UpdateAnswered | internal/apiserver/handlers/flags.go:172-236 | an update succeeds if and only if the flag can be read, the body decodes and the write goes through; each supplied field is then on the flag and each other field as before, one event is logged, and nothing else changes; otherwise nothing does |
| FlagOutcome.DeleteAnswered | internal/apiserver/handlers/flags.go:239-275 | a delete succeeds if and only if the flag can be read and the call goes through; that flag is then gone, one event is logged, and nothing else changes |
| FlagOutcome.ToggleAnswered | internal/apiserver/handlers/flags.go:278-326 | a toggle succeeds if and only if the flag can be read, is boolean and the write goes through; "true" becomes "false" and any other value "true", one event is logged, and nothing else changes |
| FlagOutcome.RegisterAnswered | internal/apiserver/handlers/clusters.go:62-99 | a registration succeeds if and only if the body is complete, the id is free, the credentials lead to a server and the client can be made |
| FlagOutcome.RemoveAnswered | internal/apiserver/handlers/clusters.go:122-138 | a removal succeeds if and only if the id is registered; the server keeps its flags |
| FlagHistory.ResourceIdIsInjective | internal/apiserver/handlers/flags.go:137 | the resource id of an audit event names one flag only |
| FlagHistory.ReplayStep | internal/apiserver/handlers/flags.go:128-141 | one success moves exactly the pair of the server it reaches and the flag its event names |
| FlagHistory.ReplayIsLive | internal/apiserver/handlers/flags.go:94-326 | over any run of flag and cluster requests the log grows by one event for each success and by none for a failure, and replaying creations and deletions, each on the server its request reached, on the flags that existed before gives exactly the flags that exist after |
| FlagHistory.SteadyReplayIsLive | internal/apiserver/handlers/flags.go:94-326 | in every run in which no id changes its server, replaying the log with each id read as its server gives exactly the live flags |
| FlagHistory.ReplayDecides | internal/apiserver/handlers/flags.go:94-326 | in a run in which no id changes its server, the log and the address book say of each flag of each server that it exists exactly when it does |
| FlagHistory.ExactByIdIffApart | internal/multicluster/manager.go:65-106 | replaying the log by id gives what the ids show, for all runs of flag requests, if and only if no two registered ids reach the same server |
| FlagHistory.AliasedIdsMislead | internal/multicluster/manager.go:65-106 | an id registered for the server of another: a flag created through the one and deleted through the other is gone, but its newest event under the first is the creation |
| FlagHistory.NewestEventTells | internal/apiserver/store/memory.go:47-84 | while only one id reaches a server, the newest listed event of a flag tells whether it exists there: it does unless that event is a deletion, and a flag without events is as it was |
| FlagHistory.NewestTellsIffSole | internal/apiserver/store/memory.go:47-84 | the newest event of a flag tells about it in all runs of flag requests if and only if no other registered id reaches the same server |
| FlagHistory.RequestFrame | internal/apiserver/handlers/flags.go:198-222 | a request changes only the flag it names on the server it reaches; edits keep type, lifecycle, status and every field that the body leaves out |
| FlagHistory.OtherIdsSee | internal/apiserver/handlers/flags.go:198-222 | another id sees the change exactly if it reaches the same server |
| FlagHistory.TogglesCancel | internal/apiserver/handlers/flags.go:300-311 | two toggles in a row restore the flags if and only if the value was "true" or "false" |

## Left out

- CacheSound: excepts names that were fetched although they are not plain; `StoredUnderOwnName` shows the exception is exact.
- DrainedCacheAgrees: makes the same exception.
- StoredUnderOwnName: takes what the client decodes from another route (a raw value, a redirect) as the parameter `elsewhere`, which may be any flag.
- InjectedFlagIsServed: speaks of a container's literal environment, without references and expansion.
- OperatorAndDiscoveryAgree: speaks of one snapshot whose flags could be listed and of a flag in a named namespace.
- ListingsAgree: speaks of listings in which only lists of managed ConfigMaps fail; other failures are in the contracts of `ScanCluster` and `List`.
- GateOpensExactly: speaks of the memory store and of requests served one at a time; `CallAlike` gives the one instant at which PostgreSQL differs, and its own clock is not modelled.
- NewestEventTells: speaks of a server that only one id reaches; `NewestTellsIffSole` shows that this is needed.
- SpecReachesCache: excepts names that were fetched although they are not plain, and asks of the run what `DrainedCacheAgrees` asks.
- EditIsServedLate: speaks of the flag as stored; the delay of the watch is in `CaughtUp`.
- Targeting rules, percentages and rollout plans: declared and copied, but evaluated nowhere.
- The web interface, Helm chart, manifests, migrations and the Node, Python and .NET SDKs.
- HTTP transport, CORS headers, logging, panic recovery, JSON syntax, bcrypt, token and id generation: foreign calls whose outcomes are parameters. `Codec` in `SidecarProvider` lists what the stream needs of JSON.
- Kubernetes clients: calls are atomic, may fail, and then change nothing. Update conflicts, caches, finalizers and the schema checks of custom resources appear only as failing calls.
- An environment entry with a value beside a reference, which Kubernetes rejects, and the expansion of `$(NAME)` in values: entries are read as their literal value.
- The syntax of label keys and values: the library's verdict is the field `legal` of a selector.
- The wrap-around of the 32-bit count of targeted workloads, and the status fields LastUpdated and ObservedGeneration.
- Upper and lower case outside ASCII in variable names.
- Requests of the sidecar provider that time out half way: a fetch is answered at one instant or not at all.
- The database's collation of a user listing, generated ids and creation times: `Answer` leaves them out.
- Errors of the database itself, and its truncation of times to microseconds.
- In `Auth`, the flag and cluster handlers behind a gate (they are in `FlagHandlers`) and the two separate readings of the clock when `Me` validates a token twice.
- Concurrent requests to the flag handlers: they are served one at a time.
- In `FlagHandlers`, a registered connection that later reaches another server because an address is reassigned outside.
- In the scanner, the cluster id that every workload carries, and which of the three lists of a namespace failed.
- Deep copies of lists and of ClusterConnection, and the library's own copies of metadata, selectors and times, which are nodes with opaque content. Slices with spare capacity or overlapping windows are not modelled: a slice is an array.
- `multicluster/manager.go` beyond the connections: names, versions and connection states.
