# Metric reconciler model

This project models the reconciler for autoscaling `Metric` resources in `pkg/reconciler/metric/metric.go`. It covers one reconciliation pass for one key:

1. The key is split into a namespace and a name.
2. The object is looked up through the lister.
3. If the object is gone, its metric collection is deleted.
4. Otherwise the reconciler works on a deep copy: it defaults the copy and initializes its conditions.
5. It creates or updates the collection, then marks the copy Ready or Failed("CollectionFailed").
6. It persists the status only when it differs from the observed one, re-reading the object first.
7. It emits events and returns an error.

The model has two layers.

- **Imperative layer** (`metric.dfy`, module `MetricReconciler`). `Reconciler` is a class over injected collaborator objects:
  - a `MetricStore` (the informer lister and the serving client's status subresource);
  - a `Collector`;
  - a `Recorder`.

  `Metric` is a class (`v1alpha1.dfy`), because the Go code mutates the working copy's status in place. `DeepCopy` allocates a new object. The lister hands out the cached object itself. No method's `modifies` clause names an object in the store's cache, and `Reconcile` also states `unchanged(old(lister.cache))`. Together these prove that the informer's copy is never mutated.
- **Specification layer** (`reconcile_spec.dfy`, module `ReconcileSpec`). Each method is proved equal to a function over a value snapshot, `World`. A `World` holds:
  - the store (objects, injected faults, call log);
  - the collector (registry, injected faults, call log);
  - the event sequence.

  `properties.dfy` proves what a pass promises from these functions. It covers each path's calls and error precedence. As long as status writes succeed, repeated passes write the status at most once. While they fail, every pass retries the write and emits UpdateFailed.

Collaborators that are not part of this model become injected state:

- Lookups, status writes, upserts and deletes each report an injected `Option<Error>`.
- `cache.SplitMetaNamespaceKey` is the injected partial function `Env.split`; its rules are not modelled.
- `Metric.SetDefaults` is the injected `Env.defaults`, which acts on the spec only.
- The status helpers act on one Ready condition, the way a condition set with a single happy condition does:
  - `InitializeConditions` sets it to Unknown only when it is missing;
  - `MarkMetricReady` sets it to True;
  - `MarkMetricFailed` sets it to False with the reason and message.
- `equality.Semantic.DeepEqual` on statuses is Dafny's structural equality on `MetricStatus`.

`updateStatus` hands back *any* error of its re-read unchanged, not only not-found (metric.go:105-109). `StatusCommit` does the same.

## Model

| member | source | states |
|---|---|---|
| `MetricReconciler.Reconciler.constructor` | pkg/reconciler/metric/metric.go:41-45 | The reconciler holds the injected store, collector and recorder it was built with, and is ready to reconcile when the store is consistent. |
| `MetricReconciler.Reconciler.Reconcile` | pkg/reconciler/metric/metric.go:52-92 | The new collaborator state and the returned error are exactly those of `ReconcilePass` on the old state. The store stays valid. No object in the informer cache is changed. |
| `MetricReconciler.Reconciler.ReconcileObject` | pkg/reconciler/metric/metric.go:69-91 | After a successful lookup, the work happens on a fresh deep copy, and the result equals `ObjectPass` on the observed object. The cached object is untouched. |
| `MetricReconciler.Reconciler.Prepare` | pkg/reconciler/metric/metric.go:69-72 | The working copy is a new object, defaulted and with its conditions initialized, carrying the original's identity. No object that existed before is changed. |
| `MetricReconciler.Reconciler.Settle` | pkg/reconciler/metric/metric.go:74-79 | After a collection error, exactly one InternalError warning about the object is recorded and the copy is left as it is. Otherwise nothing is recorded and the copy becomes Ready. |
| `MetricReconciler.Reconciler.PersistIfChanged` | pkg/reconciler/metric/metric.go:81-91 | The result equals `PersistStep`: a commit only if the copy's status differs from the original's, then the matching event. A commit error replaces the collection error. |
| `MetricReconciler.Reconciler.CommitAndReport` | pkg/reconciler/metric/metric.go:83-89 | The error is the commit's own. The collaborators end as the commit leaves them, plus one event about the object: an UpdateFailed warning after a commit error, Updated otherwise. |
| `MetricReconciler.Reconciler.Record` | pkg/reconciler/metric/metric.go:76 | Recording an event appends it to the events and changes nothing else; the same call is made at metric.go:85 and metric.go:89. |
| `MetricReconciler.Reconciler.ReconcileCollection` | pkg/reconciler/metric/metric.go:94-102 | The result equals `CollectionStep`. Only the copy's status and the collector change. |
| `MetricReconciler.Reconciler.UpdateStatus` | pkg/reconciler/metric/metric.go:104-118 | The result equals `StatusCommit`. The write carries a copy of the freshly read object. Cached objects are untouched. |
| `MetricReconciler.Reconciler.WriteCopy` | pkg/reconciler/metric/metric.go:114-116 | The write goes through a new copy of the re-read object carrying the new status. The store changes exactly as one status write of that value does, and no cached object is changed. |
| `V1alpha1.Metric.DeepCopy` | pkg/reconciler/metric/metric.go:70 | The copy is a new object with the same content, and the original is not changed. |
| `Collaborators.MetricStore.Get` | pkg/reconciler/metric/metric.go:61 | A lookup logs the call and returns the injected fault, else the cached object itself, else not-found. |
| `Collaborators.MetricStore.UpdateStatus` | pkg/reconciler/metric/metric.go:116 | A status write changes only the stored object's status. The store holds a new object, never mutates one it held, and keeps each object under its own key. |
| `Collaborators.Collector.Delete` | pkg/reconciler/metric/metric.go:64 | A delete logs the call and, unless it fails, removes the key from the registry. Deleting an absent key is not an error. |
| `Collaborators.Collector.CreateOrUpdate` | pkg/reconciler/metric/metric.go:95 | An upsert logs the object it was given and, unless it fails, records its spec under its key. |
| `Collaborators.Recorder.Emit` | pkg/reconciler/metric/metric.go:76 | Recording an event appends exactly that event and keeps every earlier one. The same recorder call is made at metric.go:85 and metric.go:89. |
| `V1alpha1.Metric.SetDefaults` | pkg/reconciler/metric/metric.go:71 | Defaulting replaces the spec by the injected defaulting of the old spec and changes nothing else in the object. |
| `V1alpha1.MetricStatus.InitializeConditions` | pkg/reconciler/metric/metric.go:72 | Assumption about the API package: a missing Ready condition becomes Unknown, and a status that already has one is returned unchanged. This is what makes a settled status a fixed point. |
| `V1alpha1.MetricStatus.MarkMetricReady` | pkg/reconciler/metric/metric.go:78 | Assumption about the API package: the status becomes Ready and not Failed, whatever the condition was before; the observed generation is kept. |
| `V1alpha1.MetricStatus.MarkMetricFailed` | pkg/reconciler/metric/metric.go:98 | Assumption about the API package: the status becomes Failed with the given reason and message and is not Ready; the observed generation is kept. |
| `ReconcileSpec.ReconcilePass` | pkg/reconciler/metric/metric.go:52-67 | A pass keeps the store well-formed and leaves every injected fault of the store and the collector as it was. |
| `ReconcileSpec.PassDropsMalformedKey` | pkg/reconciler/metric/metric.go:55-59 | A key that does not split makes no call, changes nothing, and the result is nil. |
| `ReconcileSpec.PassDeletesMissingObject` | pkg/reconciler/metric/metric.go:61-64 | A not-found lookup is followed by exactly one `Delete` with the parsed parts, and its error is returned. There is no store write and no event. A successful delete removes the key from the registry. |
| `ReconcileSpec.PassWrapsLookupError` | pkg/reconciler/metric/metric.go:65-67 | Any other lookup error is returned wrapped, after the one lookup, with no collector call and no event. |
| `ReconcileSpec.PassReconcilesFoundObject` | pkg/reconciler/metric/metric.go:61-91 | When the lookup returns an object, the rest of the pass is `ObjectPass` on that object, after the one lookup. |
| `ReconcileSpec.WorkingCopy` | pkg/reconciler/metric/metric.go:69-72 | The working copy keeps the object's identity. Its spec is the injected defaulting of the original spec. Its conditions are initialized, and a status that already has a Ready condition is kept as it is. |
| `ReconcileSpec.Desired` | pkg/reconciler/metric/metric.go:72-79 | The settled status is Ready exactly when the upsert succeeds. It is Failed("CollectionFailed") exactly when the upsert fails, with the fixed message. |
| `ReconcileSpec.CollectionStep` | pkg/reconciler/metric/metric.go:94-102 | There is exactly one upsert, of the given copy. On failure the copy is marked Failed("CollectionFailed") and the wrapped error is returned. On success the copy is unchanged and its spec is registered. |
| `ReconcileSpec.StatusCommit` | pkg/reconciler/metric/metric.go:104-117 | A commit touches only the store, and the store's injected faults stay as they were. |
| `ReconcileSpec.StatusCommitOutcome` | pkg/reconciler/metric/metric.go:104-117 | Any re-read error is returned as it is, and a not-found re-read stays not-found, with no write. If the re-read status already equals the desired one, nothing else happens. Otherwise there is exactly one write, of the fresh object with only its status replaced, and its error is returned. The store stays well-formed, with at most one write. |
| `ReconcileSpec.ObjectPass` | pkg/reconciler/metric/metric.go:69-91 | Once the object is found, a pass keeps the store well-formed, leaves every injected fault as it was, and writes at most one status. |
| `ReconcileSpec.PersistStep` | pkg/reconciler/metric/metric.go:81-91 | Persisting never touches the collector, keeps the store well-formed and writes at most one status. |
| `ReconcileProperties.PersistStepOutcome` | pkg/reconciler/metric/metric.go:81-91 | An unchanged status means no call and no event, and the collection error is returned. A changed status means one commit followed by exactly one event about the object: UpdateFailed (warning) when the commit fails, Updated (normal) when it succeeds. A commit error is returned in place of the collection error. |
| `ReconcileProperties.ObjectPassOutcome` | pkg/reconciler/metric/metric.go:69-91 | Found path, exactly: one upsert of the defaulted copy; a re-read and one write only if the settled status differs; an InternalError event on upsert failure, then Updated or UpdateFailed; the error precedence (commit error, else collection error, else nil). |
| `ReconcileProperties.CollectionFailureIsReported` | pkg/reconciler/metric/metric.go:74-99 | A failed upsert emits an InternalError warning as the first new event, and the pass returns an error. If the commit succeeds, that error is the collection error and the stored status is Failed("CollectionFailed"). |
| `ReconcileProperties.CollectionSuccessIsReady` | pkg/reconciler/metric/metric.go:74-91 | A successful upsert emits no InternalError. The pass returns nil unless the commit fails, and then the commit error. With a working commit, the stored status is Ready. |
| `ReconcileProperties.UnchangedStatusIsNotWritten` | pkg/reconciler/metric/metric.go:81-90 | When the settled status equals the observed one, there is no re-read and no write. The Updated and UpdateFailed counts stay as they were, and none of the events the pass adds is Updated or UpdateFailed. |
| `ReconcileProperties.CommitErrorWins` | pkg/reconciler/metric/metric.go:83-88 | A failed commit returns its own error, whatever the collection step returned. It emits UpdateFailed last and changes no stored object. |
| `ReconcileProperties.OnlyTheStatusIsWritten` | pkg/reconciler/metric/metric.go:114-116 | A pass never adds or removes a stored object, never changes any field of one but its status, and leaves every object other than the reconciled one as it was. |
| `ReconcileProperties.PassOffFoundPathIsQuiet` | pkg/reconciler/metric/metric.go:55-67 | When the key does not split or the lookup returns no object, the pass emits no event, changes no stored object and logs only the one lookup, if any. |
| `ReconcileProperties.OnePassReportsAtMostOnce` | pkg/reconciler/metric/metric.go:81-90 | One pass writes at most one status and emits at most one Updated event. |
| `ReconcileProperties.DesiredIsStable` | pkg/reconciler/metric/metric.go:72-79 | Settling an already settled status gives the same status. |
| `ReconcileProperties.SecondPassIsQuiet` | pkg/reconciler/metric/metric.go:81-90 | Reconciling the same key again right after a pass writes nothing, changes no stored object, and emits neither Updated nor UpdateFailed, for any lookup behaviour as long as status writes succeed. This rests on the store having no informer lag. |
| `ReconcileProperties.SettledPassesAreQuiet` | pkg/reconciler/metric/metric.go:81-90 | After one pass, any number of further passes add no status write and no Updated event, as long as status writes succeed. This rests on the store having no informer lag. |
| `ReconcileProperties.RepeatedPassesWriteAtMostOnce` | pkg/reconciler/metric/metric.go:81-90 | Any number of back-to-back passes over the same key write its status at most once and emit Updated at most once, as long as status writes succeed. This rests on the store having no informer lag. |
| `ReconcileProperties.FailedCommitChangesNothing` | pkg/reconciler/metric/metric.go:81-87 | On the found path, with a settled status that differs from the stored one and a failing write, the pass tries exactly one write and leaves every stored object as it was. |
| `ReconcileProperties.FailedCommitIsReportedOnce` | pkg/reconciler/metric/metric.go:83-87 | In the same case the pass emits exactly one UpdateFailed event. |
| `ReconcileProperties.FailingWriteIsRetried` | pkg/reconciler/metric/metric.go:81-87 | From the key: a pass that meets a failing write tries exactly one write and emits one UpdateFailed. It changes no stored object, so the next pass meets the same failing write again. |
| `ReconcileProperties.FailingWritesAreReportedEveryPass` | pkg/reconciler/metric/metric.go:81-87 | While status writes fail, n back-to-back passes over such an object emit exactly n UpdateFailed events. |

## Left out

- Logging (`logger.Errorw`, `logger.Warnw`) and error and event message text are left out. They are observability only. Events are `(object key, severity, reason)` and wrapped errors record where they were wrapped, not their text.
- `cache.SplitMetaNamespaceKey` is not part of this model. It is the injected partial function `Env.split`, so no splitting rule is assumed.
- `Metric.SetDefaults` and the `v1alpha1` status helpers are not part of this model. Defaulting is the injected `Env.defaults` on the spec. The helpers act on a single Ready condition, without transition times, severities or other conditions.
- `apierrs.IsNotFound` is not part of this model. `Types.IsNotFound` is the model's assumption about it: only a bare not-found error counts. Any other error, including a not-found wrapped in another error, takes the other-lookup-error path (metric.go:65-66).
- The lister's informer cache and the serving client are one store here. A successful status write is visible to the next lookup at once; informer lag is left out.
- Concurrency is left out: overlapping passes for the same key, and another writer acting between a pass's first read and its re-read. Within one modelled pass the store cannot change between the two reads. `StatusCommitOutcome` and `Reconciler.UpdateStatus` are stated for any store, so the deleted-meanwhile re-read is covered on its own.
- Each collaborator fault is fixed for the collaborator's lifetime: every call of that kind reports it. Failures that vary from call to call are not modelled.
- `Collaborators.Collector.CreateOrUpdate`: the collector is handed the working copy itself (metric.go:95). That it neither changes that object nor keeps a reference to it is the model's assumption about the collector, which is not part of this model. Its `modifies` clause names only the collector.
- `Collaborators.MetricStore.UpdateStatus`: returning not-found for a write to an absent object is the model's assumption about the API server, which is not part of this model.
- The `context.Context` argument, cancellation, the `rbase.Base` wiring, the `reconcilerName` constant and the interface assertion at metric.go:48 are left out as framework plumbing.
- `ReconcileProperties.SettledPassesAreQuiet` and `ReconcileProperties.RepeatedPassesWriteAtMostOnce` are stated for stores whose lookups report no injected fault and whose status writes succeed. While every lookup fails, no pass reaches the status write and the bound holds trivially; that case is not proved over many passes. While the status write fails, the bound does not hold: every pass retries the write and emits UpdateFailed, as the source does (metric.go:83-87). `FailingWriteIsRetried` and `FailingWritesAreReportedEveryPass` state that case. The write count over n failing passes is given pass by pass, by `FailingWriteIsRetried`, and is not stated as one n-pass lemma. `SecondPassIsQuiet` is stated for any lookup behaviour, with working writes.
- `ReconcileProperties.SecondPassIsQuiet`, `SettledPassesAreQuiet` and `RepeatedPassesWriteAtMostOnce` also rest on the one-store, no-lag assumption above: the next lookup sees the status just written.
- The returned object of the client's `UpdateStatus` call is discarded by the code and is not modelled.
- `Reconcile` is one Go function. Here its found path (metric.go:69-91) is the method `ReconcileObject`. That method's steps are the methods `Prepare` (metric.go:69-72), `ReconcileCollection`, `Settle` (metric.go:74-79) and `PersistIfChanged` (metric.go:81-91). `PersistIfChanged` commits and reports through `CommitAndReport`. `updateStatus`'s write half is `WriteCopy`. This keeps each proof small and does not change what is done or in what order.
