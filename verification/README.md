# CollectorCtrl operator: a verified model

This project models the three parts of the CollectorCtrl Kubernetes operator that carry logic, and proves what they promise:

- **the operator as a running system**: any number of Reconciles of CollectorMonitors and of emergency handler calls, interleaved at every API call and at every access to the registry of OpAMP clients, on a cluster that others edit and whose API calls may fail;
- **the OpAMP client wrapper**: its wire texts, health reports, agent description and message dispatch;
- **the configuration validator**: a walk over an arbitrary YAML tree with maps visited in arbitrary order.

`dafny verify dfyconfig.toml` checks everything.

## Reading order

| file | content |
|---|---|
| `Wrappers.dfy`, `Sequences.dfy`, `GoText.dfy` | option and result values, duplicate-free sequences, the string functions of Go that the code calls |
| `Wire.dfy` | emergency messages and acknowledgements, written and read back |
| `Opamp.dfy` | the client wrapper as a class |
| `Conditions.dfy` | `setCondition`, and the condition list as a function of the whole call history |
| `Cluster.dfy`, `Discovery.dfy`, `Connection.dfy` | Kubernetes objects, workload discovery and ConfigMap watch, the configuration of a client |
| `Fleet.dfy` | fleet health reports and drift alarms |
| `Operator.dfy` | the transition system: state, actions, runs |
| `RegistrySafety.dfy`, `StatusSafety.dfy`, `ActiveSafety.dfy`, `SnapshotSafety.dfy`, `CommitSafety.dfy`, `EmergencySafety.dfy`, `EmergencyCounts.dfy` | its invariants and the theorems over all runs |
| `Uninterrupted.dfy`, `WholeReconcile.dfy` | what the steps of one handler call, of a Reconcile in the critical section, and of a whole Reconcile amount to when nothing runs in between |
| `Reconciler.dfy` | the reconciler object: the critical sections and the emergency override as methods, each with the effect of those steps |
| `Validator.dfy`, `ValidatorTheorems.dfy` | the validator as a class, and what its reports mean |

## How the system is modelled

`Operator.State` holds the cluster store (monitors, ConfigMaps, workloads, secrets), the two registry maps and the mutex, every client ever started with what its callbacks captured, the running Reconciles with their program counters, the emergency handler calls, and a history of events. `Operator.Decide` and `Operator.DecideHandle` say what one step of a Reconcile or of a handler call does; each step makes at most one API call. What the outside contributes (success or failure, what a List returns, the time) is the `Outcome` of the step, chosen freely. A write may also be carried out and reported as failed, its response being lost. A run is any sequence of enabled actions from a fresh operator.

- **Optimistic concurrency.** `Update` and `Status().Update` carry the resourceVersion that was read and are refused if it is not the stored one, as the Kubernetes API does. That is why a handler call changes one key only.
- **Per-key serialisation** is a promise of controller-runtime and not of this code. No theorem needs it as such. `ActiveSafety.ActiveImpliesLive` assumes less, of one monitor at a time: no cleanup of the monitor (a Reconcile that found it deleted) coexists with a Reconcile that has read it; `ActiveSafety.DisconnectedHasCause` says that this overlap is the only cause of an Active monitor without a client, and `ActiveSafety.LateCleanupDisconnects` that for every monitor it is one. Serialisation rules the overlap out (`ActiveSafety.ActiveImpliesLiveIfSerialised`).
- **Captured monitors.** The callbacks keep the monitor object of the Reconcile that connected. That Reconcile goes on to change its phase, its conditions and its resourceVersion; its namespace, its spec and the resolved ConfigMap reference stay, and those are what the emergency gate, selector and target go by, whatever is edited later (`Cluster.Captured`).
- **ConfigMaps without data** are read back with a nil map, and assigning to one of its keys (`operator/controllers/collectormonitor_controller.go:344`) panics. The step that would do so crashes the operator, which ends the run; `EmergencyCounts.CrashesExactly` says when.

## Where code and documentation differ

The model follows the code.

- `deploy/README.md:118` lists the conditions `Discovered`, `ConfigMapResolved` and `OpAMPConnected`, and `docs/operator-installation-guide.md:288` the last of them. The code sets them on its copy in the failing branches only and returns without storing it, so no stored monitor ever has them: `StatusSafety.StoredStatuses`.
- `docs/operator-installation-guide.md:60` calls emergency mode opt-in, with `emergencyMode.enabled: true`. The code refuses only an explicit `false`; an absent value lets the command through (`EmergencySafety.Disabled`).
- A negative acknowledgement does not mean that nothing was written: the ConfigMap is updated before the workload is looked for, and a lost response even leaves a restart behind (`EmergencySafety.Finished`).

## Model

| member | source | states |
|---|---|---|
| RegistrySafety.RegistryAgreement | operator/controllers/collectormonitor_controller.go:218-329 | in every state of every run with the mutex free, `opampStarted` is true for exactly the keys of `opampClients`, the clients started and not stopped are exactly the registered ones, and no two keys share one; Reconciles of one key may interleave |
| RegistrySafety.StartsAndStopsAlternate | operator/controllers/collectormonitor_controller.go:606-615 | at every moment of every run the Starts of a key exceed its Stops by zero or one, so they alternate; outside the critical section the excess is one iff the key is registered |
| RegistrySafety.RegistryStep | operator/controllers/collectormonitor_controller.go:218-329 | every step of every actor keeps mutual exclusion, the agreement of maps, clients and history, and the bounded disagreement inside the critical section |
| StatusSafety.StoredStatuses | operator/controllers/collectormonitor_controller.go:82-129 | a stored status is new, or Active with a ConfigMap in the monitor's own namespace and the condition Active alone; failing Reconciles never leave a condition behind |
| CommitSafety.StoredReferenceResolved | operator/controllers/collectormonitor_controller.go:99-127 | in every run a stored reference was resolved: the monitor was stored at a moment a, and at b, no earlier and before the status, the ConfigMap existed that this monitor selects; the reference has its namespace and name, and its key is the selected one, or the first of the common keys in its data, or config.yaml |
| StatusSafety.TransitionTimeKept | operator/controllers/collectormonitor_controller.go:124-129 | once Active and until deleted, a monitor keeps its condition, so LastTransitionTime is the time of the first commit |
| StatusSafety.WatchCoversCommitted | operator/controllers/collectormonitor_controller.go:569-603 | in every run, an event on the ConfigMap a monitor committed requests that monitor exactly once, from any listing of the namespace |
| ActiveSafety.ActiveImpliesLive | operator/controllers/collectormonitor_controller.go:68-132 | as long as no cleanup of a monitor coexists with a Reconcile that has read it, the monitor if stored as Active has a live registered client of its own and a resolved ConfigMap, through deletion, re-creation, edits, API failures and overlapping Reconciles |
| ActiveSafety.ActiveImpliesLiveIfSerialised | operator/controllers/collectormonitor_controller.go:68-132 | in particular if no two Reconciles of one monitor overlap |
| ActiveSafety.DisconnectedHasCause | operator/controllers/collectormonitor_controller.go:73-78 | every run with an Active monitor without a live registered client had a moment at which a cleanup of it coexisted with a Reconcile that had read it |
| ActiveSafety.LateCleanupDisconnects | operator/controllers/collectormonitor_controller.go:73-78 | every monitor has a run in which this overlap leaves it Active and unregistered: the cleanup of a Reconcile that found it deleted runs after another one has read the new monitor, connected and committed |
| SnapshotSafety.StartProvenance | operator/controllers/collectormonitor_controller.go:72-110 | every Start on record was made from the monitor stored at a moment a, then the ConfigMap it selects at b, then the secret it names at c, in this order and before the Start, and from a workload that its selector admits |
| SnapshotSafety.SnapshotFrozen | operator/controllers/collectormonitor_controller.go:235-308 | a key that is not stopped keeps the same live client, and its agent id, headers, emergency settings and target follow from the monitor, ConfigMap and secrets as they were stored at earlier moments, whatever edits and secret rotations came since; Reconciles of other keys may hold the mutex |
| EmergencyCounts.CallsAreMessages | pkg/opamp/client.go:310-325 | over every run the handler calls correspond one to one to the emergency messages delivered; each was made by one message, to its client, which was live, with its text |
| EmergencyCounts.AcksNeverOutnumberMessages | operator/controllers/collectormonitor_controller.go:296-308 | over every run and for every client: as many acknowledgements as calls that ended enabled, hence never more than emergency messages |
| EmergencyCounts.CrashesExactly | operator/controllers/collectormonitor_controller.go:334-344 | a step crashes the operator iff it is a handler call, not disabled by the captured spec, that reads the captured ConfigMap and finds it without data; nothing is written |
| EmergencySafety.EmergencyAccounting | operator/controllers/collectormonitor_controller.go:296-308 | the history of a handler call is its delivery alone when the captured monitor disables emergency mode; else a finished call made exactly one acknowledgement: a positive one only after the write and then the restart, a negative one at any point |
| EmergencySafety.HandlerStepFrame | operator/controllers/collectormonitor_controller.go:332-380 | a handler step changes nothing, or one key of the captured ConfigMap to the commanded text, or the restart annotation of one workload admitted by the captured selector |
| EmergencySafety.OverrideStored | operator/controllers/collectormonitor_controller.go:332-349 | after a positive acknowledgement of an encoded (reason, yaml), and as long as nothing touches the ConfigMap, it holds exactly yaml under the captured key |
| EmergencySafety.OverrideReported | operator/controllers/collectormonitor_controller.go:384-467 | a Reconcile that looks up the client of its monitor, sends its health and reads the overridden ConfigMap, others running in between, makes the client answer with exactly yaml |
| Reconciler.CollectorMonitorReconciler.EnsureOpAMPConnection | operator/controllers/collectormonitor_controller.go:218-329 | a registered key is left alone; else a client built from the monitor, workload, reference and stored credential, with callbacks that hold the key, spec and reference, is started and entered in both maps; a failing secret read or Start leaves both maps as they were |
| Reconciler.CollectorMonitorReconciler.EnsureAsSteps | operator/controllers/collectormonitor_controller.go:218-329 | its effect on the registry and the clients is that of the uninterrupted steps of the transition system from the lock to the release |
| Reconciler.CollectorMonitorReconciler.CleanupAsSteps | operator/controllers/collectormonitor_controller.go:606-615 | the same for the cleanup |
| Uninterrupted.EnsuredIsRun | operator/controllers/collectormonitor_controller.go:218-329 | those steps amount to one of three outcomes: nothing, a failed attempt, or a live client in both maps and its Start on record; the mutex is free again |
| Uninterrupted.CleanedIsRun | operator/controllers/collectormonitor_controller.go:606-615 | the steps of a cleanup stop and forget the client of the key |
| Uninterrupted.RunLockedIsPath | operator/controllers/collectormonitor_controller.go:218-329 | they are enabled one after the other, so they are part of runs |
| Reconciler.CollectorMonitorReconciler.LoadAuth | operator/controllers/collectormonitor_controller.go:255-279 | with a secret reference the Authorization header is "Secret-Key " and the entry under the named key, "secret-key" by default, of the named secret in the named namespace, the monitor's own by default; without one it carries the operator's key if there is one; it fails exactly when a secret is named and cannot be read |
| Reconciler.CollectorMonitorReconciler.NewClient | operator/controllers/collectormonitor_controller.go:227-320 | the new client has the endpoint, agent id, type, labels and context that follow from monitor, workload and reference, the given headers, and handlers that captured the key, the spec, the reference and the namespace |
| Reconciler.CollectorMonitorReconciler.CleanupOpAMPClient | operator/controllers/collectormonitor_controller.go:606-615 | the key leaves both maps, its client is stopped, every other client is untouched |
| Reconciler.CollectorMonitorReconciler.ReportFleetHealth | operator/controllers/collectormonitor_controller.go:384-467 | the client of the monitor, if there is one, keeps a new text exactly if pods were listed, its health was sent and the ConfigMap holds the resolved key |
| Reconciler.CollectorMonitorReconciler.ReportAsSteps | operator/controllers/collectormonitor_controller.go:384-467 | its effect on the clients is that of the uninterrupted steps from the lookup of the client to the commit |
| WholeReconcile.ReconcileAmounts | operator/controllers/collectormonitor_controller.go:68-132 | what every uninterrupted Reconcile amounts to: nothing if the monitor cannot be read, or nothing is found, or no client can be connected; the cleanup for a deleted monitor; else the key has its client, an old one or a new live one made from what was read, which answers with the text under the resolved key if the report got through, and the commit stores phase, reference and condition if it takes effect |
| WholeReconcile.ResolveRuns | operator/controllers/collectormonitor_controller.go:80-103 | discovery goes on with the first admitted workload, the selected ConfigMap and its key, or returns without a change |
| WholeReconcile.ReportRuns | operator/controllers/collectormonitor_controller.go:385-463 | from the lookup to the commit: if the key is registered, the health send and the read succeed and the data hold the key, the client now answers with that text and one report is on record; else nothing is |
| WholeReconcile.CommitRuns | operator/controllers/collectormonitor_controller.go:124-129 | the stored monitor becomes Active with the resolved reference exactly if the write takes effect and the stored version is the one that was read |
| WholeReconcile.RunDownIsPath | operator/controllers/collectormonitor_controller.go:68-132 | these steps are enabled one after the other, so they are part of runs |
| Reconciler.CollectorMonitorReconciler.ApplyEmergencyConfig | operator/controllers/collectormonitor_controller.go:332-380 | leaves in the store and on record what the override amounts to, and reports success accordingly or the error of the call that failed, with every call failing or succeeding, its response lost or not |
| Reconciler.OverridingFrame | operator/controllers/collectormonitor_controller.go:332-380 | what it amounts to: one entry of one ConfigMap exactly if the read succeeds and the update takes effect, then the restart of one workload admitted by the captured selector exactly if the update is acknowledged, a workload is found and exists and the patch takes effect; success exactly if that patch is acknowledged |
| Reconciler.CollectorMonitorReconciler.OnEmergencyCmd | operator/controllers/collectormonitor_controller.go:296-308 | leaves the store and the record that the uninterrupted steps of the call lead to; no acknowledgement if disabled, else one with the outcome of the override and the text of its error |
| Uninterrupted.RunCallIs | operator/controllers/collectormonitor_controller.go:296-380 | the steps of a handler call from its beginning: nothing if disabled, a panic on a ConfigMap without data, else the override and one acknowledgement |
| Uninterrupted.RunCallIsPath | operator/controllers/collectormonitor_controller.go:296-380 | they are enabled one after the other, so they are part of runs |
| Conditions.MonitorStatus.SetCondition | operator/controllers/collectormonitor_controller.go:530-553 | the list is updated in place at the entry of the type, or extended |
| Conditions.HistoryDeterminesConditions | operator/controllers/collectormonitor_controller.go:530-553 | the incrementally kept list is the only one with types unique and in order of first appearance, status and message of the last call, reason from type and status, and the time of the call that opened the final run of equal statuses |
| Discovery.DiscoverWorkload | operator/controllers/collectormonitor_controller.go:135-179 | the three loops compute the search through the three listings |
| Discovery.DiscoverIsFirstMatch | operator/controllers/collectormonitor_controller.go:135-179 | when all lists succeed the result is the first workload of DaemonSets, Deployments, StatefulSets, in this order, whose kind and name are those of the selector or left open there; an error iff there is none |
| Discovery.SearchDecidedBy | operator/controllers/collectormonitor_controller.go:139-150 | an earlier match makes later lists irrelevant; a failed list decides only when nothing earlier matched |
| Discovery.FoundWasListed | operator/controllers/collectormonitor_controller.go:144-148 | what is found was listed under its kind and satisfies the selector's kind and name |
| Discovery.FirstPresent | operator/controllers/collectormonitor_controller.go:208-214 | the first of the common keys that the ConfigMap has |
| Discovery.ConfigMapKeyIs | operator/controllers/collectormonitor_controller.go:203-215 | the selected key if there is one, else relay.yaml, config.yaml or otelcol.yaml, whichever the data hold first, else config.yaml |
| Discovery.FindConfigMapKey | operator/controllers/collectormonitor_controller.go:203-215 | the loop over the common keys computes it |
| Discovery.MapConfigMapToMonitors | operator/controllers/collectormonitor_controller.go:569-603 | the loop requests the concerned monitors of the listing, nothing if listing fails |
| Discovery.RequestedOnce | operator/controllers/collectormonitor_controller.go:581-601 | a listed monitor is requested once if its committed reference or its selector names the ConfigMap, any other never |
| Discovery.RequestsInListOrder | operator/controllers/collectormonitor_controller.go:580-602 | the requests are the concerned monitors in list order |
| Cluster.RegistryKeyInjective | operator/controllers/collectormonitor_controller.go:222 | the key is ns/name, and different monitors have different keys |
| Cluster.AgentIDInjective | operator/controllers/collectormonitor_controller.go:237 | agent ids identify cluster, namespace, kind and name when all but the last are free of slashes |
| Connection.BuildIdentifies | operator/controllers/collectormonitor_controller.go:229-253 | endpoint, agent id k8s://cluster/ns/kind/name, type, labels and context of a client in terms of monitor, workload and reference; the cluster is that of the label, else unknown |
| Connection.HeadersAuthenticate | operator/controllers/collectormonitor_controller.go:256-279 | the headers of a client in terms of the stored secrets, field by field |
| Connection.AttributesAreAMap | pkg/opamp/client.go:254-280 | attributes repeated between labels and context never disagree, so in every label order the list is one and the same map of six attributes, spelled out |
| Fleet.ReportFleetHealth | operator/controllers/collectormonitor_controller.go:384-467 | nothing for a monitor without a client; else one health report for the listed pods, then one configuration report exactly when the ConfigMap and key were found; nothing is sent before a failure |
| Fleet.FleetStatusMeaning | operator/controllers/collectormonitor_controller.go:432-444 | Unknown, Healthy, Degraded, Unhealthy exactly for the empty fleet, all ready, some but not all, none |
| Fleet.FleetStatusOfPods | operator/controllers/collectormonitor_controller.go:410-444 | the four statuses in terms of the pods: none, each or none with the condition Ready with status True; the report is healthy exactly if there are pods and each has it |
| Fleet.FleetStatusPermutes | operator/controllers/collectormonitor_controller.go:410-444 | ready count and status do not depend on the order of the pods |
| Fleet.PodEntriesByName | pkg/opamp/client.go:181-187 | the health map has one entry per pod name, that of the last pod of the name |
| Fleet.ReportOfPods | pkg/opamp/client.go:162-192 | for distinct names: one entry per pod and one for the fleet; that of a pod is healthy iff the pod has the condition Ready with status True, and tells its node, its address or Pending, and its phase |
| Fleet.FleetEntryOfPods | pkg/opamp/client.go:162-180 | the entry of the fleet tells the number of pods and of those with the condition Ready with status True |
| Fleet.ReportConserves | pkg/opamp/client.go:162-192 | with distinct names: one entry per pod besides fleet, as many healthy ones as ready pods, which is the number reported; ready_pods and fleet agree iff the fleet is not empty |
| Fleet.ReportPermutes | pkg/opamp/client.go:171-187 | the whole report is independent of the listing order |
| Fleet.DetectDrift | operator/controllers/collectormonitor_controller.go:480-527 | succeeds iff there is a text, a selector and a pod with the condition Ready with status True; the event is raised iff the first such pod has a non-empty annotation that differs from the expected digest up to letter case; for a pod annotated with the digest of what it runs that is iff the hashes differ, hence only if the texts differ |
| Fleet.DriftComparesHashes | operator/controllers/collectormonitor_controller.go:512-524 | for a pod annotated with the digest of what it runs, in either letter case, an alarm is raised iff the hashes differ, hence only if the texts differ |
| Opamp.Client.Start | pkg/opamp/client.go:83-138 | description, initial health ("initializing", not healthy) and connection go out in this order, up to the first failure; the client runs iff all succeed |
| Opamp.Client.Stop | pkg/opamp/client.go:141-145 | a created client is disconnected |
| Opamp.Client.AgentDescription | pkg/opamp/client.go:254-280 | identifying attributes, and some enumeration of the labels followed by the context |
| Opamp.Client.SetHealth | pkg/opamp/client.go:157-193 | sends the health tree of the pods, nothing before Start |
| Opamp.Client.SetEffectiveConfig | pkg/opamp/client.go:196-204 | the text is kept even when telling the server fails, and is what the client then answers |
| Opamp.Client.SendEmergencyAck | pkg/opamp/client.go:207-218 | sends the acknowledgement emergency_ack:<success>:<message> as a custom message of capability collectorctrl |
| Opamp.Client.SendPodLogs | pkg/opamp/client.go:221-237 | sends the acknowledgement fetch_logs_ack:<pod>:<success>:<logs or message> as a custom message of capability collectorctrl |
| Opamp.Client.OnMessage | pkg/opamp/client.go:296-332 | at most one update call, for an arbitrary file, then the calls of the custom message |
| Opamp.DispatchExactlyOnce | pkg/opamp/client.go:310-330 | an emergency call or a logs call with the text of the message exactly for capability "collectorctrl" and type "emergency" or "fetch_logs", up to letter case, and a registered handler; no call for any other message |
| GoText.EqualFoldIs | pkg/opamp/client.go:312-313 | folding against a lower-case ASCII text, character by character |
| Wire.EmergencyRoundTrip | pkg/opamp/client.go:313-325 | parsing what the server encoded returns exactly (reason, yaml), for every yaml, iff the reason is trimmed, holds no separator and does not end in the separator's overlap |
| Wire.EmergencyCutAtFirst | pkg/opamp/client.go:313-321 | the whole data is the configuration iff there is no separator; else the configuration is what follows the first one, and the reason the trimmed text before it without its prefix |
| GoText.TrimSpaceIs | pkg/opamp/client.go:319 | trimming cuts white space off both ends, all of it and nothing else |
| GoText.HexIs | operator/controllers/collectormonitor_controller.go:488 | the digest is written byte by byte, two lower-case digits each |
| Wire.EmergencyAckRoundTrip | pkg/opamp/client.go:211 | every emergency acknowledgement can be read back |
| Wire.LogsAckRoundTrip | pkg/opamp/client.go:225-230 | a log acknowledgement can be read back iff its pod name has no colon |
| Wire.NoLogsDecoder | pkg/opamp/client.go:227 | with colons every decoder whatever misreads one of two acknowledgements, for every name and payload |
| Validator.ConfigValidator.Validate | internal/validator/otel.go:43-99 | in every visiting order the errors are a duplicate-free listing of exactly the defects of the tree, the warnings of exactly the unknown components; valid iff no errors; a parse error gives the one error |
| Validator.ConfigValidator.ValidatePipeline | internal/validator/otel.go:101-144 | adds exactly the defects and unknown references of the pipeline, in order |
| ValidatorTheorems.VerdictExact | internal/validator/otel.go:58-83 | no errors iff the three sections are there and every pipeline is a map with list receivers and exporters and text items in every list stage |
| ValidatorTheorems.ErrorsLocateDefects | internal/validator/otel.go:101-144 | the (code, path) pairs are pairwise distinct and decode to the defects, even when pipeline names hold dots; every defect is reported |
| ValidatorTheorems.ErrorsSaidExactly | internal/validator/otel.go:58-133 | the errors are exactly those of missing sections, pipelines that are no mappings, receivers and exporters that are no lists, and items that are no texts, each with its path, message and code spelled out |
| ValidatorTheorems.WarningsSaidExactly | internal/validator/otel.go:85-95 | the warnings are exactly those of unknown components declared in receivers, processors, exporters or extensions and of unknown components referred to in pipelines, word by word |
| ValidatorTheorems.OrderDoesNotMatter | internal/validator/otel.go:79-95 | any two visiting orders give the same multisets of errors and warnings |
| ValidatorTheorems.LargerRegistry | internal/validator/otel.go:85-96 | a larger registry leaves the errors and removes exactly the warnings that name a component it knows |

## Left out

- Kubernetes transport, informer caches and leader election: API calls are reads and writes of an abstract store that may fail; reads of monitors and ConfigMaps are fresh.
- The opamp-go library, WebSocket and TLS: a client only starts, stops, is told things and delivers messages while started.
- Operator restarts: a run starts with empty registry maps and monitors that no operator has touched, and ends if the operator crashes.
- A Start that reports failure leaves nothing running; only the writes to the cluster can take effect and still be reported as failed.
- The three List calls of one discovery are one step of the transition system; what they return is any listing that fits the selector, so nothing is assumed about its age.
- Drift detection is not a step of the transition system: it only emits a Kubernetes event, and is modelled in `Fleet.dfy`.
- Kubernetes events, logging and requeue times.
- `getPodLogs` and the stream it reads; only the acknowledgement it leads to is modelled.
- SHA-256 is an arbitrary function; MD5 and the instance UID are not part of the model; the YAML parser is replaced by its outcome.
- Strings are sequences of code points: texts that are not valid UTF-8 are not modelled. Case folding is exact when one side is ASCII, as in all its uses.
- `mapConfigMapToMonitors` for objects that are not ConfigMaps, and the contents of `defaultKnownComponents`: the validator is proved for every registry.
- The `DeepCopy` methods: a read returns a value of its own.
- The git client stubs and status fields that no code writes.
