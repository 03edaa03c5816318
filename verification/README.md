# A model of the CD operator

The operator keeps Kubernetes clusters in agreement with what git repositories say. This
project models its hardest parts in Dafny and proves what they keep:

- **The reconciler** (`Json`, `Ledger`, `Cluster`, `Reconcile`, `Safety`, `Drift`, `Runs`,
  `Calls`, `PlainYaml`, `Helm`). Each pass records every manifest object in a ledger of
  `DeployResource` records, detects drift by a merge patch and a dry-run update, applies if it
  may, and prunes what the old ledger has and the manifests do not. Any API call may fail at
  any point. `Reconcile` gives a pass as a function of the world; the classes in `PlainYaml` and
  `Helm` run it on mutable state and are proved to compute exactly that function; `Safety`,
  `Drift` and `Runs` prove what passes and whole runs keep, and `Calls` how many calls they make.
- **The periodic-sync routines** (`Routines`) and **finalisation** (`Webhooks`,
  `Finalisation`). One reconciler starts and stops goroutines by rendezvous on unbuffered
  channels; every statement that touches a shared map or a channel is a step of its own.
- **Configuration** (`ConfigVars`, `ConfigNotify`): the filter on resource versions in front
  of the configuration variables, and the notification of watchers through channels of
  capacity one, in every interleaving.
- **Links and pages** (`Strings`, `LinkHeader`, `Pagination`): the parser of the "Link" header
  (a subset of section 3 of RFC 8288) and the loop that follows "next" links.
- **The route tree** (`Router`) and **the repository walks** (`RepoWalk`).

## How the world is modelled

`Cluster.World` holds the ledger (records by namespace and name), the target cluster (objects
by API version, kind, namespace and name, each a JSON tree), which application created which
live object, a log of what was persisted, and a count of the calls made. `Cluster.Env` says
which calls fail (any function of the count, so any pattern of failures), how the server
normalises what it stores, what text an object prints as, and which applications are deployed
from Helm charts. Text is not assumed to be injective, because drift is decided by comparing
printed text. A call that fails has no effect. A call that reads sees what earlier calls wrote.

Hypotheses the results need, each a `requires` in plain sight:

- `Ledger.Separate`: one application per label, and no two claimed objects sharing a record.
  The code builds labels and record names by joining with '-' and lower-casing, leaving out the
  API version, so that neither holds by itself. `Ledger.LabelsEqualIff` and
  `Ledger.RecordNamesEqualIff` say exactly when two labels or two record names are the same, and
  `Ledger.SeparateIff` turns the hypothesis, over any number of applications and namespaces, into
  that condition on the claims. `Ledger.PlainClaimsSeparate` reads it off where names contain no
  '-', `Ledger.OneNamespaceSeparates` for one application with one namespace. What goes wrong
  otherwise is in `Runs.SharedRecordForgets`.
- One target cluster: every application deploys to the same one throughout a run. A pass to a
  named cluster differs only in the call that sets up its client.
- An application is deployed by one manager throughout a run: `Cluster.Env` fixes which.
- For what a pass stores and for convergence, manifests that name distinct objects. The code accepts
  two that name one; `Drift.ConflictNeverInSync` shows that they may never come to rest.
- For convergence, `Drift.Lawful`: the server's normalisation is idempotent, and what merging one of
  the manifests leaves alone as given it leaves alone as stored, as far as print tells. Given the
  first, `Drift.LawfulIff` shows that no less will do, and `Drift.FillingIsLawful` that a server may
  fill one member in from another.
- For convergence after one pass, that each manifest is null-free or its object was live
  (`Drift.Settles`); `Drift.AppliedInSyncIff` and `Drift.SettlesIff` say exactly when everything is in
  sync then, and `Drift.ConvergesByTheThird` needs no such hypothesis after two.
- For the configuration filter to be transparent, `ConfigVars.Faithful` (resource versions are not
  empty, and a repeated version carries the same data) and a handler registered before the
  ConfigMap's first event. `ConfigVars.SentIff` and `ConfigVars.AlwaysUpToDateIff` need neither.
- For watchers never to miss a configuration, that no registration is stored over another
  (`ConfigNotify.NeverOverwrites`), as when each registers before the next begins to
  (`ConfigNotify.OneAtATimeNeverOverwrites`).
- For pages, that no address is met twice (`Pagination.Recurs`), on a server with finitely many
  pages that answers the same address the same way; the loop has no guard of its own.
  `Pagination.EndsIff` shows that the loop ends exactly then.

Where code and comments differ, the code is followed. The comment on `addPath` speaks of leaf
endpoints; the code lists every wrapper that has a handler, the root included.

Some properties one might expect do not hold of the code, and are stated as what does hold:

- An object whose record was removed just before a call failed stays behind.
  `Safety.ClearResourceOrphansIff` says exactly which failing call does it,
  `Runs.OrphansBoundedByFaults` bounds such objects by the number of failed calls,
  `Runs.ClearLeavesOrphans` shows that a later `Clear` does not find them, and
  `Runs.OrphanReturnsIff` that a later successful pass takes one back exactly if a manifest names it.
- A pass that has to store something reports OutOfSync; only the next one reports Synced
  (`Drift.SyncedMeansInSync`, `Drift.Converges`).
- Labels and record names do not tell applications and objects apart: `Ledger.LabelsCollide`,
  `Ledger.RecordsCollide` within one application, `Ledger.RecordsCollideAcross` between two with
  different labels in one namespace; the exact conditions are those of `Ledger.Separate` above.
- Start-up begins the watch before it registers the configuration handler, and then waits for the
  handler's first run. An event that comes before the handler is lost for good as long as the ConfigMap
  keeps its version (`ConfigVars.EarlyEventLost`), as are all events with empty versions
  (`ConfigVars.EmptyVersionIgnored`). `ConfigVars.SentIff` says exactly when start-up gets its token,
  `ConfigVars.AlwaysUpToDateIff` exactly when the settings are never behind.
- Watchers can miss a configuration for good. Each goroutine the expose controller starts appends
  its channel to a shared list without a lock; when one loads the list before another has stored it,
  a channel is dropped (`ConfigNotify.OverlapDrops`), and nothing pokes that watcher any more.
  `ConfigNotify.ListedIff` says exactly when every channel stays in the list,
  `ConfigNotify.OverwriteCanLose` that a registration stored over another can always go on to lose an
  update, and `ConfigNotify.LosesIff` exactly which step loses one.
- An object created from a manifest with nulls is not in sync at first (`Drift.CreatedInSyncIff`).
- Following "next" links need not end (`Pagination.CycleNeverEnds`, `Pagination.EndsIff`).

## Model

| member | source | states |
|---|---|---|
| Json.MergeIdempotent | pkg/manifestmanager/plainyaml.go:137-147 | merging the same manifest twice is merging it once, for every pair of JSON trees |
| Json.MergeForces | pkg/manifestmanager/plainyaml.go:137-147 | every scalar and array the manifest names, at any depth, is what the merged object has there |
| Json.MergeObjects | pkg/manifestmanager/plainyaml.go:137-147 | every object the manifest names, at any depth, is an object afterwards, whatever was deployed there |
| Json.MergeDeletes | pkg/manifestmanager/plainyaml.go:137-147 | every member the manifest sets to null, at any depth, is gone from the merged object |
| Json.MergeKeeps | pkg/manifestmanager/plainyaml.go:137-147 | whatever the manifest does not name, at any depth, is as deployed |
| Json.MergeIntoSelf | pkg/manifestmanager/plainyaml.go:137-147 | a manifest merged into itself is unchanged if and only if it is free of nulls |
| Ledger.RecordNameInjective | pkg/manifestmanager/manifestmanager.go:35 | for one application, over all kinds, names and namespaces: record names are equal if and only if kind, name and namespace read the same once joined, up to case |
| Ledger.SameTailOfPlainKinds | pkg/manifestmanager/manifestmanager.go:35 | for kinds without '-' that means kinds that agree up to case, and names and namespaces that read the same once joined |
| Ledger.RecordNamesEqualIff | pkg/manifestmanager/manifestmanager.go:35 | for any two applications and objects: exactly when their record names are the same |
| Ledger.LabelsEqualIff | pkg/manifestmanager/manifestmanager.go:26 | two different applications have the same label if and only if one's name runs over into the other's namespace |
| Ledger.RecordNameIs | pkg/manifestmanager/manifestmanager.go:35 | a record name is application, kind, name and namespace joined, each of 'A' to 'Z' moved up by 32 code points and nothing else changed; no capital is left |
| Ledger.SeparateIff | pkg/manifestmanager/manifestmanager.go:23-46 | exactly when any number of applications over any namespaces have labels and records of their own |
| Ledger.PlainClaimsSeparate | pkg/manifestmanager/manifestmanager.go:23-46 | where application names, kinds and object namespaces have no '-', they do if and only if no two claims agree on every part up to case |
| Ledger.OneNamespaceSeparates | pkg/manifestmanager/manifestmanager.go:33-46 | exactly when the objects of one application in one namespace, whatever the names, have records of their own |
| Ledger.RecordsCollide | pkg/manifestmanager/manifestmanager.go:35 | two different objects of any application, in different namespaces, that share a record |
| Ledger.RecordsCollideAcross | pkg/manifestmanager/manifestmanager.go:35 | for every application, kind and object: another application with another label in the same namespace whose object shares the record |
| Ledger.LabelsCollide | pkg/manifestmanager/manifestmanager.go:26 | two different applications with the same label |
| Runs.SharedRecordForgets | pkg/manifestmanager/manifestmanager.go:48-60 | of two objects sharing a record the second is never recorded, and clearing the record leaves it live, with no call failing |
| PlainYaml.Api.ListRecords | pkg/manifestmanager/manifestmanager.go:23-30 | the listing holds every record with the label, in any namespace, once, and nothing else |
| PlainYaml.UpdateDeployResource | pkg/manifestmanager/manifestmanager.go:32-61 | performs the recording step on the clusters, failing calls included; on success there is a record under the lower-cased name in the application's namespace, and a new one holds label, application and object |
| Safety.UpdateRecordKeeps | pkg/manifestmanager/manifestmanager.go:32-61 | recording keeps the ledger invariant, and fails only if a call does; on success the object has its own record and nothing else has changed |
| PlainYaml.ClearApplicationResources | pkg/manifestmanager/plainyaml.go:198-225 | performs the clearing step: the record first, then the object it names |
| Safety.ClearResourceKeeps | pkg/manifestmanager/plainyaml.go:198-225 | clearing keeps the invariant; on success record and object are gone, on failure at most this one object is orphaned |
| Safety.ClearResourceOrphansIff | pkg/manifestmanager/plainyaml.go:198-225 | it is orphaned if and only if the first call, which drops the record, goes through and one of the next two fails |
| Cluster.CallsAreLogged | pkg/manifestmanager/plainyaml.go:161-225 | each call takes one tick and answers by whether it fails and what is there; a write that is done changes exactly what its log entry says, and every other call changes nothing |
| PlainYaml.PlainYamlManager.SetTargetClient | pkg/manifestmanager/plainyaml.go:176-196 | one call that may fail for a named destination cluster, none for the default one |
| PlainYaml.PlainYamlManager.CompareDeployWithManifest | pkg/manifestmanager/plainyaml.go:125-159 | the four outcomes, with the status set and the manifest object rewritten in place |
| Drift.CompareMeans | pkg/manifestmanager/plainyaml.go:125-159 | unless a call fails, the drift test passes if and only if the live object prints as the normalised merge of the manifest into it |
| PlainYaml.PlainYamlManager.ApplyManifest | pkg/manifestmanager/plainyaml.go:161-174 | creates or updates with the object as rewritten |
| PlainYaml.PlainYamlManager.SyncObject | pkg/manifestmanager/plainyaml.go:67-87 | record, compare, and store if forced or automatic |
| Safety.ObjectStepKeeps | pkg/manifestmanager/plainyaml.go:67-87 | handling one object keeps the invariant, stops at the first failing call, touches no other object or record, and orphans nothing |
| PlainYaml.PlainYamlManager.SyncObjects | pkg/manifestmanager/plainyaml.go:67-87 | the loop over the objects of a file, stopping at the first error |
| PlainYaml.PlainYamlManager.SyncFiles | pkg/manifestmanager/plainyaml.go:58-88 | the two nested loops are the one sequence of steps that the results are about |
| Safety.RunItemsKeeps | pkg/manifestmanager/plainyaml.go:58-88 | the loops only add records and creations of the named objects, all of them on success, and orphan nothing |
| PlainYaml.PruneResources | pkg/manifestmanager/plainyaml.go:90-97 | the prune loop over a listing, skipping the names seen |
| Safety.PruneKeeps | pkg/manifestmanager/plainyaml.go:90-97 | on success every listed record not seen is gone with its object; otherwise at most one object is orphaned, and then its record's removal was the last thing persisted |
| Safety.PruneLeavesExact | pkg/manifestmanager/plainyaml.go:52-97 | pruning by the listing taken before the loop leaves exactly the records of the manifest objects and deletes none of these objects |
| PlainYaml.PlainYamlManager.Sync | pkg/manifestmanager/plainyaml.go:40-104 | one pass on mutable clusters and status, with some listing the cluster may return |
| PlainYaml.CheckSync | pkg/sync/sync.go:80-83 | the status is reset before the pass |
| Safety.SyncKeeps | pkg/manifestmanager/plainyaml.go:40-104 | a pass keeps the invariant, succeeds if and only if no call fails and else stops at that call, leaves others' records and objects alone, orphans at most one object and none on success; on success the application's records are exactly those of the manifests |
| PlainYaml.PlainYamlManager.Clear | pkg/manifestmanager/plainyaml.go:106-123 | clears every listed record on mutable clusters, stopping at the first error |
| Safety.ClearKeeps | pkg/manifestmanager/plainyaml.go:106-123 | the same for `Clear`; on success the application has no record and nothing it had recorded is live |
| Drift.SyncedMeansInSync | pkg/manifestmanager/plainyaml.go:58-101 | a successful check reports Synced if and only if every manifest object was live and in sync; then it created and updated nothing and pruned none of them |
| Drift.StatusIff | pkg/manifestmanager/plainyaml.go:58-101 | for every check, failed or not: it reports Synced if and only if it succeeds and every manifest was in sync at the start; a failed one reports OutOfSync if one of those compared before the failing call was not, and otherwise Unknown |
| Calls.CheckCalls | pkg/manifestmanager/plainyaml.go:40-104 | a check over distinct manifests that succeeds makes exactly the calls its records, live objects and differences need: client, files, list; for each object one or two for the record, one or two to compare, one to store if it may and must; for each stale record two or three |
| Calls.ClearCalls | pkg/manifestmanager/plainyaml.go:106-123 | the same for `Clear` |
| Drift.SyncStores | pkg/manifestmanager/plainyaml.go:58-97 | the whole effect of a successful pass over distinct manifests on the target: what is in sync or may not be applied stays, what differs becomes its normalised merge, what is missing becomes its manifest, what was on record and is no longer named is gone, and everything else is as it was |
| Drift.SyncMerges | pkg/manifestmanager/plainyaml.go:137-174 | with a server that stores what it is given and unambiguous text, an applying pass leaves every manifest's object the merge of the manifest into what was live |
| Drift.RunItemsStatus | pkg/manifestmanager/plainyaml.go:58-88 | the loop leaves the status alone if and only if everything was in sync at its start |
| Drift.LawfulIff | pkg/manifestmanager/plainyaml.go:137-152 | an idempotent server meets the hypothesis for some manifests if and only if what merging one of them has stored is always left alone by the next merge |
| Drift.FillingIsLawful | pkg/manifestmanager/plainyaml.go:137-152 | a server that fills one member in from another meets it, however objects print |
| Drift.ObjectStepSettles | pkg/manifestmanager/plainyaml.go:75-86 | an object stored from a manifest is in sync afterwards if the manifest is null-free or the object was live |
| Drift.AppliedInSyncIff | pkg/manifestmanager/plainyaml.go:58-101 | after a successful applying pass over distinct manifests everything is live, and everything is in sync if and only if each object was live before or comes out in sync when created |
| Drift.SettlesIff | pkg/manifestmanager/plainyaml.go:58-101 | with a server that stores what it is given, that is if and only if each manifest is null-free or its object was live before |
| Drift.Converges | pkg/manifestmanager/plainyaml.go:75-101 | after a successful applying pass over distinct manifests, each null-free or of an object that was live, another check of them persists nothing, even when cut short, and reports Synced when it completes |
| Drift.ConvergesByTheThird | pkg/manifestmanager/plainyaml.go:75-101 | after two successful applying passes over any distinct manifests, nulls or not, a third check persists nothing and reports Synced when it completes |
| Drift.ConflictNeverInSync | pkg/manifestmanager/plainyaml.go:67-87 | no object is ever in sync with two manifests that force different values in it |
| Drift.CreatedInSyncIff | pkg/manifestmanager/plainyaml.go:137-152 | with a lawful server an object created from a null-free manifest is in sync; with a server that stores what it is given no other is |
| Runs.DoKeeps | pkg/sync/sync.go:66-83 | every sync and clear of either manager, failing anywhere, keeps the invariant, stops exactly at the first failing call, leaves others' records and objects alone and orphans at most one object |
| Runs.SyncsExactly | pkg/manifestmanager/helm.go:80-110 | after any successful sync by either manager the application's records are exactly those of the objects it was asked to deploy |
| Runs.OrphansBoundedByFaults | pkg/manifestmanager/plainyaml.go:67-97 | over every run of plain YAML and Helm passes by any applications with calls failing anywhere, orphaned objects never outnumber failed calls |
| Runs.ClearLeavesOrphans | pkg/manifestmanager/plainyaml.go:106-123 | no `Clear` ever removes an orphan of its application |
| Runs.SyncLeavesOrphanLive | pkg/manifestmanager/plainyaml.go:40-104 | no pass, whatever its outcome, deletes an orphan of its application |
| Runs.OrphanReturnsIff | pkg/manifestmanager/plainyaml.go:40-104 | a successful pass leaves an orphan of its application an orphan if and only if no manifest names it |
| Runs.CleanTeardown | pkg/manifestmanager/plainyaml.go:40-122 | after any fault-free run of both managers' passes a final `Clear` succeeds and leaves the application no record and no object its passes created; a plain YAML one leaves nothing it had recorded; objects never named are unchanged |
| Runs.InvAtFirst | pkg/manifestmanager/manifestmanager.go:23-61 | the invariant holds of an empty ledger |
| Helm.HelmManager.Prepare | pkg/manifestmanager/helm.go:59-92 | clone or pull or neither, target client, listing, rendering, in order, with a failed install a panic |
| Helm.HelmManager.Decode | pkg/manifestmanager/helm.go:183-211 | converts each document, skips the blank, and for each other sets the target client again and decodes, any of which may fail and stops it; the result is the objects in order |
| Helm.HelmManager.RecordObjects | pkg/manifestmanager/helm.go:94-101 | records every rendered object, stopping at the first error |
| Helm.HelmManager.Sync | pkg/manifestmanager/helm.go:45-119 | one Helm pass on mutable state |
| Helm.SyncKeeps | pkg/manifestmanager/helm.go:80-119 | a Helm pass keeps what a plain YAML pass keeps, panicking or not, and creates nothing itself; on success its records are exactly those of the rendered objects; it reports Synced if and only if it installed |
| Calls.HelmEnds | pkg/manifestmanager/helm.go:59-119 | a Helm pass is Synced if and only if it may apply and succeeds, and its status is untouched otherwise; it panics if and only if rendering is the first call to fail, or it may apply, all else succeeds and the install, which comes last, fails |
| Calls.HelmCalls | pkg/manifestmanager/helm.go:45-119 | a Helm pass over distinct objects that succeeds makes exactly the calls its clone, documents, records and stale objects need |
| Calls.HelmClearCalls | pkg/manifestmanager/helm.go:121-142 | a Helm `Clear` that succeeds makes three calls and one for each listed record |
| Helm.HelmManager.Clear | pkg/manifestmanager/helm.go:121-142 | uninstalls, then drops every listed record |
| Helm.ClearClears | pkg/manifestmanager/helm.go:121-142 | keeps the invariant and stops exactly at the first failing call; objects and others' records are untouched; on success the application has no record, and exactly the objects plain YAML passes created for it have become orphans; on failure no others have |
| Routines.KeyInjective | controllers/application_controller.go:262 | keys of applications whose names contain no '/' are equal if and only if the applications are |
| Routines.StepKeeps | controllers/application_controller.go:253-285 | every step of reconciler and routines keeps the protocol's invariant |
| Routines.Bookkeeping | controllers/application_controller.go:253-285 | in every reachable state an application has at most one live routine; outside the bookkeeping itself the three maps have the same keys and the live routines are exactly those whose channel is in the map, each with a ticker of 1,000,000,000 nanoseconds for each second of its recorded period, up to the 64-bit range |
| Routines.PeriodIsLastRenewed | controllers/application_controller.go:253-285 | in every reachable state, for every application the reconciler is not busy with, a period is recorded if and only if it was last begun in order to renew, and it is the period of that renewal |
| Routines.RenewCompletes | controllers/application_controller.go:253-273 | from every reachable idle state a renewal can be brought to its end, with one live routine waiting at the period asked for and all others as they were |
| Routines.DeleteCompletes | controllers/application_controller.go:275-285 | deleteSyncFlag, once begun, can be brought to its end; the routine is finished, the entries are gone and nothing else has changed |
| Routines.CheckRuns | pkg/sync/sync.go:39-51 | a tick starts a check, during which the routine cannot be stopped or ticked, and after which it waits as before |
| Routines.SendIsReceived | controllers/application_controller.go:278-281 | whenever the reconciler waits to send, the application's one live routine holds that channel, and completing its check is all it takes for the send to go through |
| Routines.GoneOnReturn | controllers/application_controller.go:275-285 | as deleteSyncFlag returns, no routine of the application is live or about to be |
| Routines.NoCheckUntilRegistered | pkg/sync/sync.go:36-52 | once deleteSyncFlag has returned, no later step of any run is a periodic check of that application until it is registered again |
| Webhooks.GitServer.ClearWebhook | controllers/application_controller.go:211-231 | lists the webhooks and deletes those at the application's address, stopping at the first error |
| Webhooks.ClearHooksClears | controllers/application_controller.go:211-231 | webhooks at other addresses stay, in order, whatever fails; on success they are all that is left, after a call for the client, one for the list and one for each that goes; without a token nothing is asked |
| Finalisation.NextKeeps | controllers/application_controller.go:145-189 | every step of finalisation, every sync by another application of either manager in between, and every restart of the process, after a panic or at any point, keeps the finalised application clean |
| Finalisation.ClearedMeans | controllers/application_controller.go:176-181 | clearing that succeeds goes on with exactly what was on record before it; a failure sends the reconciler back |
| Finalisation.FinalisesIff | controllers/application_controller.go:145-189 | left to itself, finalisation takes the finalizer off if and only if no call fails; otherwise it stops at the first that does, and the reconciler is back where it can try again |
| Finalisation.ClonesMean | pkg/manifestmanager/helm.go:59-74 | a Helm sync that succeeds leaves a clone unless it could not tell whether there was one; no sync touches others' clones |
| Finalisation.PanicsMean | pkg/manifestmanager/helm.go:216-224 | the process starts anew if and only if rendering is the first call to fail or only the install fails |
| Finalisation.FinalizedIsClean | controllers/application_controller.go:145-189 | when the finalizer comes off, restarts included, the application has no live routine and no record; nothing a plain YAML application had recorded is live unless another application created it since; whatever else its passes created is no more than the orphans there were and the calls that failed; its webhooks are gone and all others kept; a Helm application has no local clone |
| ConfigVars.Configs.GetVars | internal/configs/configs.go:55-96 | for every table and iteration order, every variable that entries set has the value of one of them and all others are unchanged; text that does not parse sets nothing |
| ConfigVars.AssignedIs | internal/configs/configs.go:55-96 | a missing key gives the default, text a value of the entry's type if it parses and none otherwise |
| ConfigVars.DistinctSetFrom | internal/configs/configs.go:55-96 | where no two entries point to one variable the result does not depend on the order |
| ConfigVars.TableSetsSettings | internal/configs/controller.go:39-44 | the controller's table makes the four settings a function of the ConfigMap |
| ConfigVars.SettingsAre | internal/configs/controller.go:39-44 | the settings are the ConfigMap's texts, with "Ingress" for a missing mode and empty otherwise |
| ConfigVars.Configs.ApplyControllerConfigChange | internal/configs/controller.go:38-62 | the settings are those of the ConfigMap; the start-up channel gets its token the first time only; every registered channel with room holds one token more, so that those of capacity one hold one, and full ones are as before |
| ConfigVars.SentIff | cmd/controller/main.go:111-114 | over every history and wherever in it the handler is registered: the start-up token is sent at most once, and it is sent if and only if some event of the ConfigMap comes after the registration with another version than the event before it |
| ConfigVars.AlwaysUpToDateIff | controllers/configmap_controller.go:85-105 | over every such history the settings are at every point as if every event had been applied, if and only if no event that is passed over would have changed them |
| ConfigVars.FilterTransparent | controllers/configmap_controller.go:85-105 | with faithful versions and the handler there before the ConfigMap's first event, skipping repeated versions leaves the settings as if every event had been applied, and the start-up token is sent exactly once if the ConfigMap has been seen |
| ConfigVars.ConfigReconciler.Reconcile | controllers/configmap_controller.go:85-105 | one event on mutable state takes the filter one step |
| ConfigVars.ConfigReconciler.Watch | controllers/configmap_controller.go:65-83 | the watch over a whole history, with the handler added at any point: settings and filter come out as the history says, and the start-up channel holds one token if an event was taken and none otherwise |
| ConfigVars.EmptyVersionIgnored | controllers/configmap_controller.go:91-93 | over any history in which the ConfigMap's versions are empty, no settings are ever applied and start-up never gets its token |
| ConfigVars.EarlyEventLost | controllers/configmap_controller.go:94-99 | over any history in which the ConfigMap keeps the version it had before its handler was registered, its settings are never applied and start-up never gets its token |
| ConfigNotify.WriterNeverBlocks | internal/configs/controller.go:54-59 | in every interleaving, overlapping registrations included, the writer can always go on |
| ConfigNotify.LosesIff | internal/configs/controller.go:54-59 | in every interleaving a step loses a watcher if and only if it begins the writer's walk while the channel is not in the list, and the watcher has its resource, no poke pending and is not about to read |
| ConfigNotify.StagesAre | controllers/expose_controller.go:194-236 | a watcher is about to read exactly after a new version of its resource or a poke taken with the resource at hand, and reconciles exactly after reading a valid mode |
| ConfigNotify.ListedIff | internal/configs/controller.go:33-35 | along every run every finished registration stays in the list if and only if none is stored over another |
| ConfigNotify.OneAtATimeNeverOverwrites | controllers/expose_controller.go:112-116 | registrations that begin only when no other is under way are never stored over one another |
| ConfigNotify.OverlapDrops | controllers/expose_controller.go:112-116 | a run of two overlapping registrations after which the first is not in the list |
| ConfigNotify.OverwriteCanLose | internal/configs/controller.go:33-35 | every run in which a registration is stored over another can go on to lose an update |
| ConfigNotify.StepKeeps | controllers/expose_controller.go:194-236 | every step of writer and watchers that stores no registration over another keeps the invariant |
| ConfigNotify.NoLostUpdate | internal/configs/controller.go:54-59 | in every interleaving in which no registration is stored over another, a watcher whose last pass is out of date has a poke pending, or is about to read the configuration, or the writer has yet to reach it |
| ConfigNotify.StaleCatchesUp | controllers/expose_controller.go:194-236 | then, with the writer at rest, a watcher that is out of date comes up to date by at most three steps of its own |
| ConfigNotify.AtRestAllCurrent | controllers/expose_controller.go:194-236 | then, when everything is at rest, every watcher with a resource has seen the latest configuration |
| LinkHeader.ParseLinkHeader | pkg/git/linkparser.go:41-83 | the two loops compute the parser that the round trip is about |
| LinkHeader.Find | pkg/git/linkparser.go:25-32 | the first entry with the relation, if there is one |
| LinkHeader.EntryMeans | pkg/git/linkparser.go:49-80 | whatever an entry's text: the last token in angle brackets gives the URL and the last whose key is "rel", in any letter case, quoted or not, the relation; other tokens are passed over |
| LinkHeader.HeaderMeans | pkg/git/linkparser.go:49-80 | one entry for each text between commas, each read by itself |
| LinkHeader.EntrySurvives | pkg/git/linkparser.go:49-80 | an entry without commas, printed and parsed, is unchanged if and only if it is clean |
| LinkHeader.RoundTrip | pkg/git/linkparser.go:41-83 | any list of entries, printed and parsed, comes back the same if and only if every entry is clean; '=' is allowed everywhere |
| Pagination.Fetch | pkg/git/http.go:41-61 | one turn of the loop: an error, the last page, or a page and the next address |
| Pagination.GetPaginatedRequest | pkg/git/http.go:29-65 | an address that does not parse is an error; otherwise, where no address recurs, it ends with exactly the pages served before the first address met that is not served or has no "next" link, in order; it succeeds if and only if some address met is served without one, and that page then comes last |
| Pagination.FirstUriIs | pkg/git/http.go:34-39 | the first request keeps the address's own query and fragment |
| Pagination.EndsIff | pkg/git/http.go:40-62 | for every server and address, following links ends if and only if no address is met twice, and then within one request more than the server has pages |
| Pagination.FollowBound | pkg/git/http.go:40-62 | the result does not depend on the bound assumed |
| Pagination.FollowsChain | pkg/git/http.go:40-62 | over a chain of pages no address recurs, and the loop makes one request a page, accumulates them in order and stops without error |
| Pagination.CycleNeverEnds | pkg/git/http.go:40-62 | links that lead back are never followed to an end |
| Router.CollapseNoDouble | internal/wrapper/wrapper.go:101-102 | the collapsed path contains no "//" |
| Router.CollapseAbsorbs | internal/wrapper/wrapper.go:101-102 | collapsing a prefix first makes no difference |
| Router.CollapseKeepsParts | internal/wrapper/wrapper.go:101-102 | collapsing changes neither the parts between slashes nor whether there is a slash in front or behind |
| Router.FullPathGoesOn | internal/wrapper/wrapper.go:97-103 | the parts of a child's full path are those of its parent's followed by those of its subpath |
| Router.NewRoot | pkg/apiserver/server.go:65-66 | the root alone is a tree |
| Router.Build | internal/wrapper/wrapper.go:65-94 | any sequence of calls that make wrappers and add them, from the root, builds a tree with exactly the links the calls say |
| Router.Wrapper.Add | internal/wrapper/wrapper.go:65-94 | refuses exactly nil, adopted and badly named children, leaving everything unchanged; otherwise links the child last and keeps the tree |
| Router.Acyclic | internal/wrapper/wrapper.go:65-94 | following parents never comes back, and leads from every added wrapper to the root |
| Router.FullPathCollapsesOnce | internal/wrapper/wrapper.go:97-103 | the full path is the subpaths run together with slashes collapsed once, has no "//", differs from the plain run if and only if that has one, and is "/" for the root |
| Router.AddPath | pkg/apiserver/server.go:126-134 | appends the full paths of the handler-bearing wrappers in preorder |
| Router.PreorderIsExact | pkg/apiserver/server.go:126-134 | the preorder from the root goes through every added wrapper exactly once and through nothing else |
| RepoWalk.GitHubManifestInfos | pkg/git/github/github.go:417-448 | the accumulator followed by the files in depth-first order, or an error and no list |
| RepoWalk.GitLabManifestInfos | pkg/git/gitlab/gitlab.go:495-521 | the same, with a single entry an error |
| RepoWalk.FlattenComplete | pkg/git/github/github.go:417-448 | a list results if and only if every listing met is answered, and then holds exactly the files there are |
| RepoWalk.FlattenInOrder | pkg/git/github/github.go:417-448 | the list holds each file once for each place where it is, in depth-first order of the places |
| RepoWalk.WalksAgree | pkg/git/gitlab/gitlab.go:495-521 | the two walks agree where no listing answers with a single entry |

## Left out

- HTTP, Kubernetes, Helm and git clients, TLS, logging, RBAC and CRDs are calls that may fail; what Helm itself writes to a cluster is not part of the model.
- Helm.HelmManager.Sync: one store stands for the default cluster and the destination, so that the model does not tell apart where a prune deletes; the code prunes in the default cluster whatever the destination (pkg/manifestmanager/helm.go:105), and a Helm application with a named destination cluster is not covered.
- Helm.HelmManager.Decode: which documents convert and decode is not read off their text; each attempt may fail, and counts among the failed calls if it does.
- The patch library's own treatment of nulls inside arrays: the merge follows the RFC.
- JSON and YAML decoding: manifests are JSON trees with their identity beside them; splitting files into objects is an input.
- Stale reads from a client-side cache, and calls that take effect and still report failure.
- Changing an application's destination cluster or its source type between passes, which leaves its old objects behind.
- Two passes interleaving call by call: the managers share one mutable target client, so passes are atomic here.
- CheckSync's choice of manager by source type and its one-time construction of the managers; manifests are an input, as the git client is bound once.
- Finalisation.FinalizedIsClean: says nothing of the live objects of a Helm application, because Helm's `Clear` leaves them to Helm; a failed clone is taken to leave no directory behind.
- Finalisation also takes the listing of webhooks to be complete and no sync of the application itself to be in flight from a webhook.
- The Reconcile method's conditions, default values and status patching, which depend on API server behaviour.
- Routines and Finalisation are step systems on values rather than classes, so that every interleaving can be quantified over; the maps are modelled as values there.
- Router.Wrapper.Add: does not model the registration of handlers with the HTTP router.
- ConfigNotify: lists of channels are values, so that of an append only loading and storing the list are steps; the two goroutines the code starts never append in place.
- Pagination.GetPaginatedRequest: taking an address apart is the standard library's work and a parameter here.
- RepoWalk takes a finite tree of listings in place of requests by path.
- Webhook body parsers, git type conversions, label differences, secrets, tokens and signatures: field copying or library calls.
- The reconcile methods of services and ingresses beyond when they read the configuration.
- Strings.ToLower: lower-cases ASCII letters only, which is what Kubernetes names and the relation "rel" consist of.
