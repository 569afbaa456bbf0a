# Verified model of the octo integration platform

This project models the parts of octo where state, concurrency and failure meet, and proves
what they promise. octo runs *integrations*: flows of blocks fed by sources, deployed by an
orchestrator to a cluster, with a versioned key/value store, an in-process queue, a log store
and an editor that runs integrations locally.

`dafny verify dfyconfig.toml` checks the whole project. Each module models one component:

| module | component | form |
|---|---|---|
| `VersionedStore` | the in-memory versioned store, the atomic specification | class over a nested map |
| `KvRepo` | the Postgres store, one step per SQL statement of any number of calls | step machine, every interleaving |
| `SecretStore` | secret namespaces and encryption over one shared table | functions and a refinement |
| `SecretRepo` | the two stores above put together, calls of all deployments in flight | a refinement of the step machine |
| `FlowRun` | a flow: callers, channel, workers, event bus, shutdown, for by-name, HTTP and queue sources | step machine |
| `MessageQueue` | the standalone queue: publishers, requesters, listeners | step machine |
| `ServiceRun` | one generation of the runtime service, from start to teardown | class whose calls are recorded in a trace |
| `Lifecycle` | Deploy, Scale, Rollout, Undeploy, snapshots and secrets over database and cluster | class; every outside call may fail |
| `Slug` | slugify and slug allocation | loops against functions |
| `ClusterSecret` | the shared cluster Secret, edited by read-modify-write with retries | step machine |
| `FolderForest`, `FolderTree` | folder moves, cascading deletes, and the tree built from a flat listing | class, loops, recursion |
| `RunHost` | run sessions, child processes and the port pool | class for the pool, step machine for the sessions |
| `LogBuffer` | the log ring buffer and the stream splitter | classes |
| `LogPages` | log queries and the walk along their cursor | loops against functions |
| `Common` | the option type the others share | datatype |

The step machines let every enabled action of every participant happen at any time, so a
theorem about `Run` covers every interleaving. Logs and traces in the states are history: no
step reads them to decide anything. In `FlowRun` the list `accepted` is the channel itself, of
which the workers have received a prefix.

## What the model assumes

- A database or cluster call that fails has no effect.
- Event ids are fresh (`runtime/types/message.go:71-78`). A queue source tracks the id it
  receives (`runtime/connectors/queue/source.go:110`); it is a fresh one because the block that
  sends to a queue re-keys what it sends (`runtime/connectors/queue/dispatch.go:89-92`). The ids
  the database mints are new.
- Opening what was sealed with the same nonce gives the plaintext back.
- Lower-casing leaves slug characters alone, and leaves the rest of the text to an arbitrary
  function.
- Postgres locks a selected row until commit, and its unique index makes a second insert wait
  for the first.

## Where a promise does not hold as written

- A versioned delete of the Postgres store runs two statements, and a create can slip in
  between. `KvRepo.DeleteConflictExact` shows that its conflict answers are always those of the
  atomic store if and only if the expected version is not 1.
- `runtime/core/services.go:90-95` says secrets never collide with ordinary keys. They do for an
  ordinary namespace that itself ends in `_secrets`, and for no other: `SecretStore.CollidesIffSuffixed`.
- `runtime/core/runtime/runtime.go:159-163` says an unbound source gets a connector of its own
  type. It gets whatever is configured under the name it is bound by, which is of another type
  exactly in the case of `ServiceRun.RightTypeIffNameFree`; `ServiceRun.WrongTypeBound` is one.
- An undeploy whose last call fails reports success and leaves an internal Service behind.
  `Lifecycle.Orchestrator.Undeploy` states exactly when the cluster still matches the database,
  and `Lifecycle.Orchestrator.RedeployMisroutes` what the leftover does to the next deployment
  under the same slug.
- A failed deploy leaves nothing behind only if what undoes it works.
  `Lifecycle.Orchestrator.Deploy` states, from the request and the failing calls alone, exactly
  when the cluster matches the database afterwards, and
  `Lifecycle.Orchestrator.FailedDeployLitters` shows a deploy after which it does not.
- A rollout mirrors its snapshot into the settings with a last write whose failure it does not
  report. `Lifecycle.Orchestrator.RecordSnapshot` states exactly when the settings still name
  the old snapshot, which then cannot be deleted (`Lifecycle.Orchestrator.DeleteSnapshot`).
- A secret's value and its name in the catalog are written one after the other, so a request can
  report an error with the value already changed (`Lifecycle.Orchestrator.CreateSecret`,
  `Lifecycle.Orchestrator.DeleteSecret`).
- Log pages are cut by timestamp, so rows can be missed: `LogPages.TieIsMissed` shows one.
  `LogPages.ShowsAllIffNoSplit` gives the exact condition on the table and the page size, and
  `LogPages.MissedIffCutOff` says which rows of a given walk are missed.
- Two comments are out of date and the code was followed: slugs are unique per deployment, not
  shared by an integration (`orchestrator/internal/deployment/repo.go:79-82`), and an internal
  Service goes with its deployment, not with the integration's last one
  (`orchestrator/internal/kube/deploy.go:284-286`).

## Model

| member | source | states |
|---|---|---|
| `VersionedStore.RefusedIsNoOp` | runtime/services/standalone/kv.go:44-76 | a conflict leaves the table as it was, and a write conflicts exactly when its expected version is not the stored one |
| `VersionedStore.AfterPositive` | runtime/services/standalone/kv.go:44-76 | no operation stores a version below 1 |
| `VersionedStore.AnswerTellsTable` | runtime/services/standalone/kv.go:44-76 | the answer tells the table: a reported version means that value at that version, a successful delete means no entry, and no operation touches another key |
| `VersionedStore.Store.constructor` | runtime/services/standalone/kv.go:22-24 | a new store is the empty table |
| `VersionedStore.Store.Get` | runtime/services/standalone/kv.go:27-35 | the entry found is the one the flat table has, and missing namespaces or keys are missing |
| `VersionedStore.Store.Write` | runtime/services/standalone/kv.go:44-59 | accepted exactly when the expected version is the stored one, or 0 for a new key; then that slot holds the value at the next version, which is reported, and no other slot changes; refused, nothing changes |
| `VersionedStore.Store.Delete` | runtime/services/standalone/kv.go:63-76 | a conflict exactly when the key is there, the expected version is not 0 and the versions differ, and then nothing changes; otherwise the key is gone, and every other slot is as before |
| `KvRepo.StepInv` | orchestrator/internal/kv/repo.go:40-143 | every statement of every transaction keeps the invariant that ties rows, row locks, calls and commit order together |
| `KvRepo.RunInv` | orchestrator/internal/kv/repo.go:40-143 | the invariant holds at the end of every interleaving |
| `KvRepo.AnswersLinearize` | orchestrator/internal/kv/repo.go:40-143 | the rows are what the atomic store reaches by the committed operations; each answer is the atomic store's at one point inside its call, which is where the call's own entry stands if it has one, except possibly a conflict on deleting version 1; refused and failed calls change nothing |
| `KvRepo.DeleteConflictExact` | orchestrator/internal/kv/repo.go:115-143 | delete conflicts with expected version e are the atomic store's in every run if and only if e is not 1 |
| `KvRepo.SpuriousConflict` | orchestrator/internal/kv/repo.go:115-143 | a concrete race in which deleting version 1 reports a conflict that the atomic store gives at no point of the call |
| `KvRepo.NoLostUpdate` | orchestrator/internal/kv/repo.go:58-110 | two writers of a key handed the same version have a committed delete of that key between them; without deletes each version has one writer |
| `KvRepo.VersionRises` | orchestrator/internal/kv/repo.go:58-110 | between two points of the log with no delete of a key, its version does not fall |
| `KvRepo.FallMeansDelete` | orchestrator/internal/kv/repo.go:58-143 | a version that fell had a delete in between, and the lemma finds it |
| `KvRepo.WrittenOwnsEntry` | orchestrator/internal/kv/repo.go:58-110 | a write that reported a version owns the log entry that stored it |
| `KvRepo.EntryAnswered` | orchestrator/internal/kv/repo.go:58-143 | a call that owns a log entry was answered as the atomic store answers it there |
| `KvRepo.DeletedStaysOut` | orchestrator/internal/kv/repo.go:115-143 | in every state after a logged delete its key has no row, until a later write of the key is logged |
| `KvRepo.DeletedWasGone` | orchestrator/internal/kv/repo.go:115-143 | whoever was told the key is deleted: at some moment inside the call it had no row |
| `KvRepo.LastEntryDecides` | orchestrator/internal/kv/repo.go:40-143 | at every point a key holds the value of the last logged write at the version its writer was told, or nothing after a delete, or its initial row |
| `KvRepo.ReadsLastWrite` | orchestrator/internal/kv/repo.go:40-52 | every read, in every interleaving, reports just that for some moment between call and return |
| `KvRepo.UndisturbedCall` | orchestrator/internal/kv/repo.go:40-143 | from any point of any run a new call whose row nobody holds can, by its own statements alone, be answered and take effect as the atomic store would |
| `KvRepo.ErrorOnlyByAbort` | orchestrator/internal/kv/repo.go:58-143 | only a database error makes a call report one |
| `SecretStore.DecryptUndoesEncrypt` | orchestrator/internal/kv/crypto.go:33-54 | the nonce-then-ciphertext framing round-trips for every plaintext and nonce |
| `SecretStore.SecretNamespaceIsSuffix` | runtime/core/services.go:133-142 | the namespace a secret is stored under is one the key/value service encrypts |
| `SecretStore.HiddenInjective` | runtime/core/services.go:133-142 | distinct logical secret namespaces are stored apart |
| `SecretStore.CollidesIffSuffixed` | runtime/core/services.go:90-142 | an ordinary namespace meets some secret namespace in the shared table if and only if it ends in the secret suffix |
| `SecretStore.NoCipherNoChange` | orchestrator/internal/kv/service.go:80-92 | without a cipher no secret write changes the table, and it reports that encryption is off |
| `SecretStore.StoredSealed` | orchestrator/internal/kv/service.go:80-92 | an accepted secret write stores the nonce and the sealed value, at the next version, which it reports |
| `SecretStore.CorruptIsReported` | orchestrator/internal/kv/crypto.go:43-54 | a stored secret too short for a nonce, or that does not open, is reported as unreadable and left alone |
| `SecretStore.SecretRefines` | orchestrator/internal/kv/service.go:50-97 | one secret call is one atomic operation on a plain store of secrets, and no ordinary key changes |
| `SecretStore.PlainRefines` | orchestrator/internal/kv/service.go:50-97 | one ordinary call is one atomic operation on the ordinary store, and no secret changes |
| `SecretStore.IndistinguishableFromTwoStores` | runtime/core/services.go:112-142 | every sequence of secret and ordinary commands gets the answers two separate plain stores would give |
| `SecretRepo.ServedIsWire` | orchestrator/internal/kv/service.go:50-97 | serving a command on a table is one repository operation with its answer decoded |
| `SecretRepo.ViewedAfter` | orchestrator/internal/kv/repo.go:40-143 | an operation of a deployment acts on that deployment's part of the shared rows as on a table of its own |
| `SecretRepo.OtherDeploymentAfter` | orchestrator/internal/kv/repo.go:40-143 | an operation of another deployment leaves that part alone |
| `SecretRepo.CommandStandsFor` | orchestrator/internal/kv/service.go:50-97 | one command on the shared rows is the same command on one of the deployment's two plain stores |
| `SecretRepo.ChangesRows` | orchestrator/internal/kv/service.go:80-97 | a command that changes its plain store changes the shared rows |
| `SecretRepo.LogStandsFor` | orchestrator/internal/kv/service.go:50-97 | after any committed operations the rows stand for the two plain stores of each deployment |
| `SecretRepo.EveryAnswerIsTwoStores` | orchestrator/internal/kv/service.go:50-97 | under every interleaving each command is answered as two separate plain stores would at one point inside its call, and one that changes its store there is the entry logged at that point; the only exception is a conflict on deleting version 1 |
| `FlowRun.StepInv` | runtime/core/runtime/boundflow.go:64-141 | every action of callers, workers, handlers and shutdown keeps the invariant |
| `FlowRun.RunInv` | runtime/core/runtime/boundflow.go:64-141 | the invariant holds in every interleaving |
| `FlowRun.OnlyOwnOutcome` | runtime/core/runtime/flowregistry.go:88-169 | a caller returns only the single terminal outcome of its own message, and its slot is offered one at most once |
| `FlowRun.DeliveryNeverDropped` | runtime/connectors/http/http.go:187-220 | the non-blocking send into a slot never meets a full one |
| `FlowRun.OutcomeNotLost` | runtime/connectors/queue/queue.go:79-112 | a parked caller whose message no worker holds any more has its outcome in its slot |
| `FlowRun.StopDrains` | runtime/core/runtime/boundflow.go:76-125 | when stop has returned, every accepted message had exactly one started and then exactly one terminal event |
| `FlowRun.NoSenderAfterStop` | runtime/connectors/http/source.go:118-174 | once the source has stopped no HTTP request or queue handler is at its send, and no send panics |
| `FlowRun.SendAllOrNothing` | runtime/core/runtime/flowregistry.go:105-123 | a send racing the close is either accepted, and then processed, or never seen; a fire-and-forget caller is told of acceptance exactly when its message was accepted |
| `FlowRun.WorkerStepUsesWork` | runtime/core/runtime/boundflow.go:87-125 | every worker action, deliveries included, leaves strictly less work |
| `FlowRun.DrainBounded` | runtime/core/runtime/boundflow.go:76-92 | from any point of any run after the close, the workers take at most as many steps as there is work left, whatever else happens meanwhile; the number of bus subscribers is a parameter |
| `FlowRun.StopNeverStuck` | runtime/connectors/http/source.go:118-189 | in every run, while the source is stopping it can report that it stopped, a listener can leave, or a caller it waits for can move on by itself |
| `FlowRun.DrainNeverStuck` | runtime/core/runtime/boundflow.go:76-92 | after the close either stop can return or some worker can act |
| `FlowRun.RunningFlowServes` | runtime/connectors/http/source.go:128-190 | in every run, while the flow is not stopping and its channel is empty, a caller that arrives by name, over HTTP or from a queue and any free worker can by themselves bring every outcome back to that caller; one that does not wait is told of acceptance and its message is processed |
| `FlowRun.RunningFlowServesFresh` | runtime/core/runtime/flowregistry.go:88-123 | the same for a caller that is already there and has done nothing yet |
| `FlowRun.RefusedOnlyWhenStopping` | runtime/connectors/http/source.go:296-306 | a caller is told there is no such flow, or is refused as shutting down without ever having held a send token, only once stop has begun; that the flow is gone, only once the channel is closed |
| `FlowRun.CallSeesLastChain` | runtime/core/runtime/boundflow.go:97-125 | what a caller by name and a queue request see is the message, drop or error of the last chain that ran, the error path included, down to the error text; a dropped queue message comes back as it was |
| `MessageQueue.StepInv` | runtime/services/standalone/queues.go:50-160 | every action of publishers, requesters and listeners keeps the invariant |
| `MessageQueue.RunInv` | runtime/services/standalone/queues.go:50-160 | the invariant holds in every interleaving |
| `MessageQueue.EnvelopesConserved` | runtime/services/standalone/queues.go:50-144 | per subject the accepted envelopes are those taken followed by those queued, none taken twice, at most 1024 queued |
| `MessageQueue.OnlyOwnReply` | runtime/services/standalone/queues.go:68-144 | a request returns only the reply its own envelope's handler produced, and at most one is ever offered |
| `MessageQueue.ReplyNotLost` | runtime/services/standalone/queues.go:68-144 | a reply that was produced and is carried by no listener is in the slot of the waiting requester |
| `MessageQueue.TakenRequestAnswered` | runtime/services/standalone/queues.go:68-144 | from any point of any run at which a listener handles a request, that listener and the requester alone can bring every reply back |
| `MessageQueue.NewRequestAnswered` | runtime/services/standalone/queues.go:61-144 | a new request on an empty line with a free listener can end with any reply |
| `MessageQueue.FullExactlyAtCap` | runtime/services/standalone/queues.go:87-99 | a send is refused exactly when 1024 are waiting; otherwise it goes to the end of the line |
| `MessageQueue.CancelledListenerLeaves` | runtime/services/standalone/queues.go:128-160 | closing a subscription ends: a cancelled listener is at most two steps of its own from its exit |
| `ServiceRun.StartedOnce` | runtime/core/runtime/runtime.go:166-280 | in a trace the monitor accepts no connector is started twice and no type gets two default connectors |
| `ServiceRun.ImplicitWhileSourced` | runtime/core/runtime/runtime.go:416-448 | at every point where a source-backed flow runs, every implicit flow runs |
| `ServiceRun.CallableExact` | runtime/core/runtime/flowregistry.go:57-77 | the registered names are at every point exactly those of the running implicit flows, all different |
| `ServiceRun.OrderForStart` | runtime/core/runtime/runtime.go:435-448 | the start order is the permutation with implicit flows first and configuration order within each group |
| `ServiceRun.ExplicitIsBound` | runtime/core/runtime/runtime.go:166-192 | a name found among the started connectors is the one the configuration determines, even if a default connector put it there |
| `ServiceRun.BoundByRules` | runtime/core/runtime/runtime.go:166-238 | the name a source is bound under, told from the configuration: a configured instance of that name, else the only connector of the wanted type, none if there are several, a default one under the type name if there is none, nothing without a wanted type |
| `ServiceRun.NamesUpToExact` | runtime/core/runtime/runtime.go:229-238 | the list has one name for each configured connector of the type and no other |
| `ServiceRun.WantedExact` | runtime/core/runtime/runtime.go:252-292 | outside invoke mode every configured connector is wanted, one for one; in invoke mode exactly those no flow names as its source |
| `ServiceRun.RightTypeIffNameFree` | runtime/core/runtime/runtime.go:166-238 | the bound connector is of the wanted type if and only if no configured connector of another type has the name it is bound under |
| `ServiceRun.WrongTypeBound` | runtime/core/runtime/runtime.go:187-203 | a concrete configuration in which a source is bound to a connector of another type |
| `ServiceRun.SharedBacking` | runtime/core/runtime/runtime.go:194-214 | sources bound under one name share one connector |
| `ServiceRun.Service.constructor` | runtime/core/runtime/runtime.go:54-72 | nothing runs yet and nothing was recorded |
| `ServiceRun.Service.ConfiguredOfType` | runtime/core/runtime/runtime.go:230-238 | the loop lists the names of that type in configuration order |
| `ServiceRun.Service.Resolve` | runtime/core/runtime/runtime.go:166-215 | the connector is the one under the name the configuration alone determines, a new default one only if that name is unbound; failure happens exactly for an unknown or ambiguous name or a default connector that fails to start |
| `ServiceRun.Service.StartConnectors` | runtime/core/runtime/runtime.go:244-280 | it succeeds exactly when every wanted connector is registered and starts; then exactly those run, in order; otherwise all that started were stopped again |
| `ServiceRun.StartedAreStartable` | runtime/core/runtime/runtime.go:421-448 | if all flows started in some order, implicit names differ and no source fails to start |
| `ServiceRun.BlockedNotStartable` | runtime/core/runtime/runtime.go:421-448 | a flow blocked in any order shows that two implicit names coincide or a source fails |
| `ServiceRun.SourceResolved` | runtime/core/runtime/runtime.go:194-214 | resolving the sources of flows in turn starts one default connector per name needed and no other |
| `ServiceRun.Service.BuildFlow` | runtime/core/runtime/runtime.go:309-414 | a flow is built exactly when it has a name or a binding, its default connector starts if it is the first to need it, and its construction works |
| `ServiceRun.Service.BuildFlows` | runtime/core/runtime/runtime.go:297-307 | it succeeds exactly when every flow in turn can be built; then every flow is on the connector its source is bound to, and what runs only grew |
| `ServiceRun.Service.StartFlows` | runtime/core/runtime/runtime.go:421-431 | the flows that started are a prefix of the start order, all of it exactly on success; otherwise the next one's name was taken or its source failed |
| `ServiceRun.Service.StopFlows` | runtime/core/runtime/runtime.go:451-459 | all started flows are stopped in reverse order; no error exactly when all of them stop, else that of the flow last in the start order that fails to stop |
| `ServiceRun.Service.StopConnectors` | runtime/core/runtime/runtime.go:462-470 | all running connectors are stopped in reverse start order; no error exactly when none fails to stop, else that of the last started that does |
| `ServiceRun.Service.TearDown` | runtime/core/runtime/runtime.go:128-133 | everything is stopped whatever fails, and the error reported is that of the last started flow that fails to stop, or, if all flows stop, of the last started connector that does |
| `ServiceRun.ReportsExact` | runtime/core/runtime/runtime.go:128-133 | read off the configuration, a run ends without an error exactly when no flow and no connector that ran fails to stop, and reports a flow exactly when one fails to |
| `ServiceRun.Service.RunFlows` | runtime/core/runtime/runtime.go:114-134 | it announces readiness exactly when all flows can start, and leaves nothing running in any case |
| `ServiceRun.Service.Run` | runtime/core/runtime/runtime.go:92-134 | on every path the monitor accepts the trace, every connector and flow that started was stopped exactly once in reverse order, no name stays callable, and readiness was announced exactly when nothing failed to come up; each way of failing has its exact condition on the configuration and the failing calls; a finished run had every wanted connector up, and its error is stated as for the teardown |
| `Lifecycle.AddRowKeepsDb` | orchestrator/internal/deployment/service.go:201-233 | recording a row that fits keeps slugs unique, subdomains owned by one integration and snapshots consistent |
| `Lifecycle.AddRowKeepsCluster` | orchestrator/internal/kube/deploy.go:80-134 | a row recorded with its internal Service keeps Services and networked rows in one-to-one correspondence, with no stray object |
| `Lifecycle.RollBackRestores` | orchestrator/internal/deployment/service.go:244-258 | undoing a partial deploy gives back exactly the cluster and rows from before |
| `Lifecycle.DropRowClusterIff` | orchestrator/internal/deployment/service.go:642-654 | after an undeploy the cluster matches the database if and only if the row had no slug or its internal Service is gone |
| `Lifecycle.DropSnapshotKeepsDb` | orchestrator/internal/snapshot/repo.go:110-130 | the in-use lookup, restricted to one integration, finds every row that records the snapshot |
| `Lifecycle.RollBackIff` | orchestrator/internal/deployment/service.go:244-258 | whatever cleanup calls fail, a deploy that stopped at a given call leaves the cluster matching the database if and only if row, objects and Service went or stayed together |
| `Lifecycle.PlannedStop` | orchestrator/internal/deployment/service.go:144-199 | the call at which a deploy stops can be read off the request and the failing calls |
| `Lifecycle.NothingAgainst` | orchestrator/internal/deployment/service.go:108-225 | with no call failing, repeating a row whose slug is free is refused for no reason |
| `Lifecycle.NamesApart` | orchestrator/internal/kube/kube.go:121-127 | names of a deployment's own objects never equal names of internal Services |
| `Lifecycle.Orchestrator.constructor` | orchestrator/internal/deployment/service.go:96-102 | an empty platform satisfies every invariant |
| `Lifecycle.Orchestrator.CheckEnv` | orchestrator/internal/deployment/service.go:293-321 | bindings pass exactly when none is reserved, every referenced secret exists and its lookup works; each refusal has its own reason |
| `Lifecycle.Orchestrator.ResolveSnapshot` | orchestrator/internal/deployment/service.go:271-286 | it succeeds exactly when the snapshot can be read, exists and belongs to the integration; otherwise the error says which fails |
| `Lifecycle.Orchestrator.PickSlug` | orchestrator/internal/deployment/service.go:393-409 | the slug is the one the choice, the claimed slugs and the failing lookups determine, canonical and had by no row; or the error is justified |
| `Lifecycle.Orchestrator.CheckSubdomain` | orchestrator/internal/deployment/service.go:466-478 | looking at any one row decides ownership for all rows of that subdomain, in both directions |
| `Lifecycle.Orchestrator.PickSubdomain` | orchestrator/internal/deployment/service.go:171-199 | a subdomain exactly when the deployment is external and has a slug: the one asked for, or the slug, and no other integration's |
| `Lifecycle.Orchestrator.Plan` | orchestrator/internal/deployment/service.go:108-225 | a request is accepted exactly when it passes every check; the row planned is then as asked, under the integration's name and the slug the choice gives, and fits the database, with a slug exactly when networked and a subdomain exactly when also external; every refusal is justified |
| `Lifecycle.Orchestrator.EnsureInternalService` | orchestrator/internal/kube/deploy.go:192-215 | an existing Service of that slug is left alone, otherwise one selecting the deployment is created |
| `Lifecycle.Orchestrator.Apply` | orchestrator/internal/kube/deploy.go:80-134 | it stops at the first creating call that fails, with exactly the objects before it created; success means everything the row calls for exists; nothing else in the cluster changes |
| `Lifecycle.Orchestrator.DeleteObjects` | orchestrator/internal/kube/deploy.go:440-462 | all four deletes are tried, and an error is reported exactly when one failed |
| `Lifecycle.Orchestrator.DeleteInternalService` | orchestrator/internal/kube/deploy.go:287-293 | exactly that slug's Service goes, unless the call fails |
| `Lifecycle.Orchestrator.RollBack` | orchestrator/internal/deployment/service.go:244-258 | each cleanup call takes effect unless it fails, and no failure skips the next |
| `Lifecycle.Orchestrator.Install` | orchestrator/internal/deployment/service.go:226-258 | it succeeds exactly when no call it makes fails, and then the row is recorded, running and reachable with nothing else touched; the cluster matches the database afterwards if and only if the first failing call, if any, was undone rightly, and all is as before if cleanup works |
| `Lifecycle.Orchestrator.Deploy` | orchestrator/internal/deployment/service.go:108-266 | the database invariant is kept; success adds one row as asked, running and with its Service, internal Service and Ingress; a failure whose cleanup works leaves rows and cluster exactly as before; success, and the cluster match afterwards, have exact conditions on the request and the failing calls; every error is justified |
| `Lifecycle.Orchestrator.FailedDeployLitters` | orchestrator/internal/deployment/service.go:244-258 | for every accepted request, a deploy whose pods cannot be created and whose definition cannot be deleted leaves an object with no row |
| `Lifecycle.Orchestrator.Scale` | orchestrator/internal/deployment/service.go:484-513 | it succeeds exactly when the row and its workload exist and the three calls work; the row then has the asked replica count, at least 1, and so has the workload, and nothing else in the database changes; an error changes nothing there, and no other deployment's objects change either way |
| `Lifecycle.Orchestrator.ScaleWorkload` | orchestrator/internal/kube/deploy.go:220-231 | only the replica count of an existing workload changes, exactly when the patch works |
| `Lifecycle.Orchestrator.ReplaceWorkload` | orchestrator/internal/kube/deploy.go:244-275 | it succeeds exactly when definition and pods exist and the four calls work, and then replaces both; no object appears or disappears, pods stay on failure, and no other deployment changes |
| `Lifecycle.Orchestrator.RecordSnapshot` | orchestrator/internal/deployment/service.go:583-601 | it succeeds exactly when the metadata write works; the row then has the new snapshot and its tag in the metadata, the new snapshot in the settings exactly when that write works, and everything else as before |
| `Lifecycle.Orchestrator.CheckRollout` | orchestrator/internal/deployment/service.go:521-555 | a rollout goes ahead exactly when the row exists, the snapshot is of its integration and as networked as the row, its bindings still hold and the lookups work |
| `Lifecycle.Orchestrator.Rollout` | orchestrator/internal/deployment/service.go:521-605 | success has an exact condition on the request and the failing calls; the asked snapshot then runs, at the old replica count and bindings, and the whole row is stated; an error leaves the database alone, and the pods too unless only the last recording failed; a topology change is refused with nothing touched |
| `Lifecycle.Orchestrator.Undeploy` | orchestrator/internal/deployment/service.go:634-665 | it succeeds exactly when the row exists and its deletes work, and then row and objects are gone; the cluster then matches the database if and only if the row had no slug or the last delete worked; failure keeps the row |
| `Lifecycle.Orchestrator.RedeployMisroutes` | orchestrator/internal/kube/deploy.go:192-215 | for every networked deployment, an undeploy whose last call fails followed by a deploy under the same slug leaves the internal Service selecting the deployment that is gone |
| `Lifecycle.Orchestrator.CreateSnapshot` | orchestrator/internal/snapshot/service.go:48-61 | the current definition is frozen under a tag, exactly when the integration exists, the tag was free for it and the calls work |
| `Lifecycle.Orchestrator.DeleteSnapshot` | orchestrator/internal/snapshot/service.go:78-91 | it succeeds exactly when the snapshot exists, no row records it and the calls work; then only it is gone |
| `Lifecycle.Orchestrator.CreateSecret` | orchestrator/internal/secret/service.go:45-56 | the key is set before its name is listed, so an error may leave it set; no binding is broken |
| `Lifecycle.Orchestrator.DeleteSecret` | orchestrator/internal/secret/service.go:67-84 | unforced, a bound secret stays; a key that is removed keeps all bindings if and only if no row binds it; the key goes before its name, so an error may leave it gone |
| `Lifecycle.Orchestrator.Handle` | orchestrator/internal/deployment/service.go:108-665 | any one request keeps the database invariant whatever fails, and keeps the cluster match if and only if a failed deploy is undone rightly and an undeploy's last call works |
| `Lifecycle.Orchestrator.Serve` | orchestrator/internal/deployment/service.go:108-665 | over every serial run: slugs unique, subdomains owned by one integration, recorded snapshots existing and matching the slug; bound secrets exist unless a delete was forced; Services and objects match the rows although any calls fail, except those that clean up a failed deploy or end an undeploy |
| `Slug.Slugify` | orchestrator/internal/deployment/service.go:671-690 | the builder loop computes the words of the lower-cased name joined by single dashes, cut to 54 |
| `Slug.SlugIsCanonical` | orchestrator/internal/deployment/service.go:671-690 | the result is empty or at most 54 slug characters with no dash at an end and no two in a row |
| `Slug.PrefixedSlugIsLabel` | orchestrator/internal/deployment/service.go:667-690 | with its prefix a slug is a label of at most 63 characters (section 2.1 of RFC 1123, section 2.3.4 of RFC 1035) |
| `Slug.CleanIsItsWords` | orchestrator/internal/deployment/service.go:671-690 | a clean text is recovered from its words |
| `Slug.FixedIffCanonical` | orchestrator/internal/deployment/service.go:671-690 | slugify leaves a text unchanged if and only if it is canonical |
| `Slug.SlugifyIdempotent` | orchestrator/internal/deployment/service.go:671-690 | slugify applied twice is slugify |
| `Slug.SlugKeepsName` | orchestrator/internal/deployment/service.go:671-690 | the letters and digits of a slug are those of the lower-cased name, in order from the first on, and all of them unless the slug was cut to its full length |
| `Slug.SlugOfTwoParts` | orchestrator/internal/deployment/service.go:674-685 | a character that is not kept puts exactly one dash between what stands on either side of it, and none at an end |
| `Slug.SlugOfOneWord` | orchestrator/internal/deployment/service.go:675-679 | letters and digits side by side stay together, lower-cased |
| `Slug.CandidateIsCanonical` | orchestrator/internal/deployment/service.go:442-450 | every candidate tried is canonical, so slugify leaves it unchanged |
| `Slug.CandidatesDiffer` | orchestrator/internal/deployment/service.go:442-450 | suffixed candidates are pairwise different |
| `Slug.CandidatesCount` | orchestrator/internal/deployment/service.go:442-450 | trying n suffixes tries n different slugs |
| `Slug.CandidateShape` | orchestrator/internal/deployment/service.go:442-450 | a candidate is the base, or what fits of it followed by a dash and its number in three digits |
| `Slug.AllocateSlug` | orchestrator/internal/deployment/service.go:434-461 | the result is the first unclaimed candidate, with all before it looked up and claimed; a failed lookup is the first one that fails with all before it claimed; exhaustion means all thousand are claimed, hence at least 999 slugs |
| `Slug.ResolveSlug` | orchestrator/internal/deployment/service.go:393-409 | a chosen slug is normalised and refused exactly when unusable or taken, an empty one is allocated |
| `ClusterSecret.AcceptInv` | orchestrator/internal/kube/secret.go:25-75 | an accepted request is one atomic edit of the current Secret, though computed from an earlier read |
| `ClusterSecret.StepInv` | orchestrator/internal/kube/secret.go:25-75 | every API request of every call keeps the invariant |
| `ClusterSecret.RunInv` | orchestrator/internal/kube/secret.go:25-75 | the invariant holds in every interleaving |
| `ClusterSecret.CallsAreAtomic` | orchestrator/internal/kube/secret.go:25-75 | a successful call takes effect at one point between call and return, its own entry if it has one, and a failed one edits nothing, the first-create race included |
| `ClusterSecret.GivesUpOnlyAfterRivals` | orchestrator/internal/kube/secret.go:25-75 | a call gives up with a conflict only if at least five other effects happened while it ran |
| `ClusterSecret.LastEditDecides` | orchestrator/internal/kube/secret.go:25-75 | the last edit of a name decides its value |
| `ClusterSecret.OtherNamesNeverErase` | orchestrator/internal/kube/secret.go:25-75 | a name set by a successful call keeps that value unless a later effect edits the same name |
| `ClusterSecret.UndisturbedCall` | orchestrator/internal/kube/secret.go:25-75 | from any point of any run a call whose requests follow one another undisturbed succeeds, the first create included, and edits its own name and no other |
| `ClusterSecret.AcceptedEdits` | orchestrator/internal/kube/secret.go:25-75 | every accepted request changes its own name and no other, whatever happened since its read |
| `ClusterSecret.ErrorOnlyByFail` | orchestrator/internal/kube/secret.go:25-75 | only an error that is not retried makes a call report one |
| `FolderForest.ReachedWithinCap` | orchestrator/internal/folder/service.go:135-149 | a folder that is an ancestor at all is one within as many steps as there are folders, cycles or not |
| `FolderForest.ParentMap` | orchestrator/internal/folder/service.go:131-134 | the loop's map is the table's parent relation |
| `FolderForest.CheckMove` | orchestrator/internal/folder/service.go:123-150 | for a folder of the table the verdict is exact: refused if and only if it is the proposed parent or one of its ancestors |
| `FolderForest.RepointKeepsForest` | orchestrator/internal/folder/repo.go:87-106 | an allowed move leaves a forest |
| `FolderForest.RemoveKeepsForest` | orchestrator/internal/folder/repo.go:110-119 | a cascading delete leaves a forest |
| `FolderForest.RequestKeepsForest` | orchestrator/internal/folder/service.go:69-84 | every request, accepted or not, leaves the folders acyclic with no dangling parent |
| `FolderForest.RunKeepsForest` | orchestrator/internal/folder/service.go:69-84 | every serial run of creates, moves and deletes does |
| `FolderForest.FolderService.constructor` | orchestrator/internal/folder/service.go:38-40 | the empty table is a forest |
| `FolderForest.FolderService.Create` | orchestrator/internal/folder/repo.go:35-50 | a folder is added under an existing parent, else refused; a failing statement changes nothing |
| `FolderForest.FolderService.Update` | orchestrator/internal/folder/service.go:69-79 | a move happens if and only if folder and parent exist, listing and update work and the folder is no ancestor of the parent; anything else changes nothing |
| `FolderForest.FolderService.Delete` | sql/schema.sql:87-91 | a delete that succeeds removes the folder and every row whose chain of parents reaches it, and keeps every other row as it was; a failing statement or a missing folder removes nothing |
| `FolderTree.GroupByParent` | orchestrator/internal/folder/service.go:155-163 | roots and the children of each parent are exactly the folders of the listing with that parent, in listing order |
| `FolderTree.AttachRoots` | orchestrator/internal/folder/service.go:165-179 | attaching from the roots mirrors the listing |
| `FolderTree.BuildTree` | orchestrator/internal/folder/service.go:154-180 | for every listing with unique ids: siblings are exactly the folders with that parent, and one stands before another only if it does in the listing; each rooted folder is there exactly once and no other |
| `FolderTree.LevelBounded` | orchestrator/internal/folder/service.go:165-173 | a rooted folder is fewer levels down than the listing has rows |
| `FolderTree.AttachMirrors` | orchestrator/internal/folder/service.go:165-173 | every node's children are its listed children, in listing order |
| `FolderTree.KidsInOrder` | orchestrator/internal/folder/service.go:157-163 | of two folders of one group the first stands first in the listing |
| `FolderTree.MirrorsPlaced` | orchestrator/internal/folder/service.go:165-179 | a tree that mirrors the listing has the right siblings in listing order at every level |
| `FolderTree.OccursPerAncestor` | orchestrator/internal/folder/service.go:165-173 | a folder occurs below a list of folders once for each of them that is its ancestor |
| `FolderTree.UnrootedAbsent` | orchestrator/internal/folder/service.go:165-173 | what hangs off a cycle or a missing parent is nowhere in the output |
| `FolderTree.RootedOnce` | orchestrator/internal/folder/service.go:154-180 | a folder is placed once if its chain reaches a root and not at all otherwise |
| `RunHost.LowestFree` | packages/run-host/src/ports.ts:27-36 | the lowest free port of the pool; none exactly when all are used |
| `RunHost.PortPool.constructor` | packages/run-host/src/ports.ts:20-23 | no port is in use at first |
| `RunHost.PortPool.Allocate` | packages/run-host/src/ports.ts:27-36 | the loop reserves the lowest free port, or nothing exactly when none of the thousand is free |
| `RunHost.PortPool.Release` | packages/run-host/src/ports.ts:39-41 | the port is free afterwards, whether or not it was in use |
| `RunHost.StepInv` | packages/run-host/src/session.ts:170-390 | every stretch of start, stop, reap and exit handling keeps the invariant |
| `RunHost.RunInv` | packages/run-host/src/session.ts:170-390 | the invariant holds in every interleaving |
| `RunHost.UsedIsDisjointUnion` | packages/run-host/src/session.ts:170-390 | the used ports are those held by named sessions, each by exactly one namespace, within 40000-40999 |
| `RunHost.ExhaustedIffAllHeld` | packages/run-host/src/ports.ts:27-36 | a start finds no port if and only if live namespaces hold all of them, so none leaks |
| `RunHost.OthersKeepTheirPorts` | packages/run-host/src/session.ts:216-227 | no step releases a port that another session holds |
| `RunHost.LateExitReleasesNothing` | packages/run-host/src/session.ts:216-227 | an exit event of a replaced child changes no session and frees nothing; one of the current child frees exactly its own port |
| `RunHost.ReapedLeavesNothing` | packages/run-host/src/reaper.ts:27-36 | a reaped session has no child and no port, and all ports in use belong to sessions still named |
| `RunHost.RunningChildrenApart` | packages/run-host/src/session.ts:191-214 | a running child was given its session's port, and no two have the same |
| `RunHost.LaunchTakesLowestPort` | packages/run-host/src/session.ts:187-214 | an exposable start takes the lowest free port and its child is given that port; with none free nothing is taken and nothing spawned; any other start takes no port |
| `RunHost.StartGoesThrough` | packages/run-host/src/session.ts:170-244 | from any point of any run, a start of an idle namespace can by that namespace's steps and the exit of its own old child lead to the new child running, on a port if it is exposable and the others left one |
| `RunHost.StopGivesBack` | packages/run-host/src/session.ts:360-390 | a stop past its last await has no child, no port and no config file, and every port in use is another namespace's |
| `LogBuffer.CutAnywhere` | packages/run-host/src/logbuffer.ts:59-75 | cutting a text anywhere and carrying the partial line loses nothing |
| `LogBuffer.StreamedIsWhole` | packages/run-host/src/logbuffer.ts:59-75 | what a chunked stream pushes depends on the joined text alone |
| `LogBuffer.WholeIsSplit` | packages/run-host/src/session.ts:354-357 | the stream's lines of a whole text are those of the one-shot split |
| `LogBuffer.LinesAreTheText` | packages/run-host/src/session.ts:354-357 | the lines of any text are the pieces between its newlines, which give the text back up to one final newline, each without the one carriage return it may end in |
| `LogBuffer.LinesGiveTextBack` | packages/run-host/src/logbuffer.ts:59-75 | a text without carriage returns is its lines, each ended by a newline |
| `LogBuffer.ChunkingIsInvisible` | packages/run-host/src/logbuffer.ts:59-75 | for every way of cutting a text the pushed lines are those the one-shot split gives |
| `LogBuffer.StreamsDoNotMix` | packages/run-host/src/logbuffer.ts:59-75 | however two piped streams interleave, each one's lines come out whole and in order |
| `LogBuffer.Buffer.constructor` | packages/run-host/src/logbuffer.ts:21-25 | the buffer starts empty |
| `LogBuffer.Buffer.Push` | packages/run-host/src/logbuffer.ts:27-40 | the buffer holds exactly the last lines of the run, at most 5000, with consecutive ids never used before |
| `LogBuffer.Buffer.Reset` | packages/run-host/src/logbuffer.ts:43-45 | the lines go, the ids continue |
| `LogBuffer.Pipe.constructor` | packages/run-host/src/logbuffer.ts:59-62 | a stream starts with no partial line |
| `LogBuffer.Pipe.Data` | packages/run-host/src/logbuffer.ts:63-70 | a chunk pushes the lines it completes and keeps the rest |
| `LogBuffer.Pipe.End` | packages/run-host/src/logbuffer.ts:71-74 | the end pushes the partial line, if any |
| `LogBuffer.Pipe.Consume` | packages/run-host/src/logbuffer.ts:59-75 | a whole stream pushes the split of its text, however it was cut |
| `LogPages.ClampLimit` | logs/internal/api/handler.go:110-123 | the page size is the allowed one nearest to what was asked, or the default when nothing was |
| `LogPages.WideningKeeps` | logs/internal/repo/logs.go:82-111 | widening any axis of a filter never loses a row, and with nothing set every row matches |
| `LogPages.Query` | logs/internal/repo/logs.go:77-140 | a page holds the newest rows first, all of them if they fit, and no row left out is newer than one on the page |
| `LogPages.WalkOrdered` | logs/internal/api/handler.go:55-77 | following the cursor repeats no row and shows rows newest first |
| `LogPages.MissedIffCutOff` | logs/internal/api/handler.go:55-77 | a matching row is missed if and only if it shares a full page's last timestamp without being on that page |
| `LogPages.TieIsMissed` | logs/internal/api/handler.go:55-77 | two rows of one timestamp and a page size of 1: a complete walk that misses one |
| `LogPages.NoSplitAtPage` | logs/internal/repo/logs.go:77-140 | a table splits no group exactly when its first page ends between two groups and the rows below split none |
| `LogPages.ShowsAllIffNoSplit` | logs/internal/api/handler.go:55-77 | a complete walk shows every matching row if and only if no page boundary falls inside a group of equal timestamps, however the database orders ties |
| `LogPages.DistinctTimesMissNothing` | logs/internal/api/handler.go:55-77 | with distinct timestamps every matching row is shown exactly once |
| `LogPages.NoTieNoCut` | logs/internal/api/handler.go:55-77 | without ties no row is cut off |
| `LogPages.WalkEnds` | logs/internal/api/handler.go:55-77 | a walk over a fixed table has at most one page more than there are rows |
| `LogPages.Walk` | logs/internal/api/handler.go:55-77 | a client that follows the cursor ends with a complete walk; every row shown passes each filter that is set, both ends of the time range included, and a row not shown fails one or is cut off by a tie |
| `LogPages.WalkFrom` | logs/internal/api/handler.go:55-77 | the same from any cursor |

## Left out

- HTTP routing, JSON and YAML decoding, SQL text and the cluster and message-broker clients: they appear as calls that may fail.
- Calls whose outcome is unknown, such as a commit whose acknowledgement is lost: a failed call is taken to have no effect.
- Expression evaluation and the block engine: processing a message is an arbitrary result, drop or error.
- AES-GCM and hashing: only the inverse law and the framing are modelled.
- Leader election: its safety rests on the lease client, which is not part of this model.
- Overlapping start, stop or reap of one run namespace, and concurrent folder moves or deploys: the code takes no lock there, so those properties are stated for calls that do not overlap.
- Cleanup of the one flow whose own start failed: its workers and pool are not tracked.
- Deleting an integration, and forced secret deletes beyond their exact effect: the snapshot and binding invariants are stated for runs without them.
- Deploying without a snapshot store, reading the port out of a definition, cached deployment status and the rules for secret names: not part of this model.
- Agreement between the editor's and the orchestrator's reading of HTTP_PORT: the two parse differently.
- Listing keys and namespaces, and deleting a deployment's entries: reads and bulk deletes without version logic.
- Folder names, positions, and the integrations filed in folders: they do not affect the tree's shape.
- Log listeners and text search: subscribers only observe, and search is an arbitrary predicate.
- Environment substitution, config merging, tag validation and the HTTP response cache: they would only add easy members.
- User interface, authentication, API keys and chat connectors: thin wrappers.
