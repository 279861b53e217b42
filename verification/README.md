# Verified model of the GitHub runner autoscaler

Two parts of the repository decide how many self-hosted runners there are, and both keep state over time.

* **The metric engine** (`apiserver/`) answers "how many runners?" for each workflow: a time-windowed cache of the
  GitHub queue, a forced scale-up timer kept in the same record, and a clamped, rounded logistic curve.
  Modules `State`, `GitClient`, `Scaling`, `Labeling`, `Workflows`, `Host`, `Provider` model the code;
  `HostRuns` reasons over whole sequential runs, `CacheInterleaving`, `CacheBudget` and `TimerInterleaving` over interleavings
  of calls.
* **The reconcilers** (`operator/`) drive a cluster towards a custom resource: generate, compare, patch, delete, wait,
  recreate. Modules `KubeTypes`, `EnvVars`, `SarGenerator`, `SetUpdates`, `ScaledObjects`, `SecretsHash`, `Reconcile`
  model the runner reconciler over the API server of `ApiServer`; `SetSync`, `EnvOrders`, `SetRuns` and `Storage` reason over one StatefulSet,
  `ObjectStorage` over one ScaledObject and
  `ReconcileRuns` over the whole cluster. `CoreController`, `CoreGenerator` and `CoreRuns` do the same for the core
  reconciler, and `EndToEnd` ties the names by which the parts find each other.

`Strings` and `Wrappers` hold shared helpers.

What the code changes in place is a class whose methods are proved against functions on values; the properties are
lemmas about these functions, over every input, every run or every interleaving.

## Conventions

* Time is an integer number of nanoseconds. A query reads the clock when it checks the cache, when it stores a
  response and when it advances the timer, in that order; runs are sequential and the clock does not go back.
  The random draw lies in [0, 86400).
* The curve is over the reals. `decay` is the code's `2.718^-k`, any positive number, and at most 1 (a factor of 0 or more)
  in the properties of the curve; powers are recursive and rounding takes halves away from zero.
* A map iteration in Go has no order. Where the order can show in a result it is a parameter (`order`, a listing of the
  keys without repetition), and the theorems hold for all orders.
* The API server stores objects verbatim. An object being deleted is still found by the next `leaving[key]` reads.
  Every call can fail, the reads that poll for a deletion included; how the calls of a reconcile fare is a parameter
  (`Faults`, `SecretFaults`, `Answer`). `Storage` and `ObjectStorage` alone model a server that
  drops empty lists and maps.
* The user's JSON patch (RFC 6902) is a partial function on specs, its digest any non-empty string that does not depend on
  replicas. Nothing is assumed about collisions.
* A label selector is an arbitrary predicate on label maps; the sanitising of label values is an arbitrary function.
* The resource is the one that `Setup` has completed, so its pointers are not nil. The current key of the core is a
  parameter.

## Where the code and its documentation or an obvious expectation differ

Line numbers of `README.md` below are those of the repository's own.

* `README.md:380` promises a random delay of up to 24 hours; re-arming (`apiserver/pkg/scaling/scaling.go:91`) adds the drawn
  number as nanoseconds (`HostRuns.LaterArming`, `HostRuns.NeverStarved`). Only the first arming waits for hours
  (`HostRuns.FirstForcedNotBefore`).
* `README.md:381` says that a zero window disables forced scale-up; on an unarmed timer it dereferences nil
  (`Scaling.NilDereferenceIff`), and so no query of a run that starts unarmed is ever answered (`HostRuns.ZeroWindowNeverAnswers`).
* A runner type with no workers at most publishes 1 for a non-empty queue (`Scaling.OutputInRangeIff`).
* The request budget needs calls that do not overlap between a load of the record and the save that ends it
  (`CacheBudget.ExclusiveBudget`). Two calls break it exactly when each loads a stale record before the other has saved and they ask
  GitHub within the shorter window of each other (`CacheBudget.TwoCallsBreakBudgetIff`).
* The timer is kept in the record that the cache writes back, so an overlapping call can undo another one's arming, and the
  other way round (`TimerInterleaving.SaveRollsTimerBackIff`, `TimerRollsQueueBackIff`).
* A listing that fails does not hold the purge back; only a conversion failure does (`Workflows.SurvivesCleanResyncIff`).
* Under a patch, the hash guard hides drift that the update path would undo, and rotated secrets
  (`SetSync.KeepIff`, `SetRuns.RotationReplacesIff`).
* "The second reconcile is silent" needs more than a well-behaved patch: the environment is appended in map order, and the
  hash of the patched spec depends on that order (`SetRuns.SilentThenWrites`). The second reconcile is silent if the first wrote the
  set, if there is no patch or if the set lacks at most one desired variable, and, when the digest can tell orders apart, only then
  (`ReconcileRuns.SecondReconcileIsSilentIff`). Whatever the orders, a run writes little (`ReconcileRuns.RunWritesLittle`).
* A patch that appends is applied to its own result for ever (`SetRuns.AppendPatchNeverSettles`; `README.md:378` warns of it).
* A token that cannot be read, other than for not existing, counts as the empty fingerprint, so a transient error deletes and recreates
  the runners (`ReconcileRuns.UnreadableTokenRecreates`; `operator/controllers/scaledactionrunner_controller.go:317`).
* A replacement is reported as a modified set whatever fails on the way; it is deployed exactly if neither deletion nor creation
  fails and the polls see the deletion (`ReconcileRuns.ReplacementIsDeployedIff`).
* The API server hands an empty list or map back as nil, which the comparisons take for a difference. Without a patch, a runner
  with no docker socket and no secrets, or with an empty map or list in its configuration or its claim template, is deleted
  and recreated by every reconcile (`Storage.ChurnsIffUnsafe`); an empty list of scaling policies makes every reconcile update the
  ScaledObject (`ObjectStorage.ObjectChurnsIffUnsafe`).
* A deletion slower than the polls of the core reconciler lets an object vanish after a success, so that the next
  reconcile is not silent (`CoreRuns.SecondReconcileIsSilentIff`).

## Model

| member | source | states |
|---|---|---|
| Scaling.GetOutput | apiserver/pkg/scaling/scaling.go:50-76 | the successive clamps and the rounding give the specified output |
| Scaling.LinearOutput | apiserver/pkg/scaling/scaling.go:58-69 | on the linear curve the output is the queue itself, or the bound that it exceeds |
| Scaling.LogisticOutputIff | apiserver/pkg/scaling/scaling.go:43-76 | strictly between the bounds the output is k if and only if (k - 1/2)(1 + N b^q) <= N < (k + 1/2)(1 + N b^q) |
| Scaling.PowerLaws | apiserver/pkg/scaling/scaling.go:46-47 | b^0 = 1, b^1 = b and b^(m+n) = b^m b^n |
| Scaling.OutputMonotone | apiserver/pkg/scaling/scaling.go:50-76 | a longer queue never gets fewer runners |
| Scaling.OutputServesQueue | apiserver/pkg/scaling/scaling.go:57-73 | a non-empty queue gets at least one runner, on the logistic curve because its value is at least one half |
| Scaling.OutputInRangeIff | apiserver/pkg/scaling/scaling.go:64-72 | the output lies in [min, max] if and only if max is positive or the queue is empty, and is min for an empty queue |
| Scaling.Bernoulli | apiserver/pkg/scaling/scaling.go:43-48 | Bernoulli's inequality for the curve's decay: b^n (b + n(1-b)) is at most b |
| Scaling.SaturatesIff | apiserver/pkg/scaling/scaling.go:43-76 | the output is max if and only if (2N-1)N b^q is at most 1, or min is max |
| Scaling.Saturates | apiserver/pkg/scaling/scaling.go:43-76 | the output is max for every queue of at least (N(2N-1)-1) b/(1-b) jobs |
| Scaling.ForcedExactlyInWindow | apiserver/pkg/scaling/scaling.go:78-98 | "force now" exactly inside (next, next + window], and then the timer stays |
| Scaling.NilDereferenceIff | apiserver/pkg/scaling/scaling.go:79-81 | the nil timer is dereferenced if and only if the window is zero and the timer unarmed |
| State.InMemoryStateProvider.GetState | apiserver/pkg/state/state_provider.go:23-31 | hands out a copy of the record, or a fresh one |
| State.InMemoryStateProvider.SetState | apiserver/pkg/state/state_provider.go:33-38 | replaces one record and no other |
| GitClient.Client.GetQueuedJobs | apiserver/pkg/gitclient/client.go:59-97 | a hit answers from the record and leaves it; a miss stores the response with its time, or marks the record as errored and keeps its value |
| GitClient.ServedIff | apiserver/pkg/gitclient/client.go:68-73 | a Valid record is served up to lastRequest + cacheWindow, or + cacheWindowWhenEmpty if its value is empty, and not after; no other record is |
| GitClient.Client.GetWorkflowInfo | apiserver/pkg/gitclient/client.go:41-57 | known workflow data is kept for good; otherwise it is fetched and stored |
| GitClient.FailureIsNotCached | apiserver/pkg/gitclient/client.go:77-84 | a failed fetch keeps value, time and timer, and the next call is a miss however soon it comes |
| Host.Host.AdvanceTimer | apiserver/pkg/host/host.go:54-63 | the second read and write of the record: only the timer moves, and it is stored when it moves |
| Host.Host.QueryMetric | apiserver/pkg/host/host.go:36-67 | the record after the query, the error of each failing stage, and an answer counted over the stored value |
| HostRuns.PollsAreTimerRun | apiserver/pkg/host/host.go:54-63 | the successful queries of a run, with whatever fails in between, drive the timer through the persisted record as one uninterrupted sequence of steps |
| HostRuns.NeverStarved | apiserver/pkg/scaling/scaling.go:78-98 | with queries at most P apart, P within the window, every "force now" is followed by another within F + 2P + 86399 ns |
| HostRuns.FirstForcedNotBefore | apiserver/pkg/scaling/scaling.go:82-86 | from an unarmed timer nothing is forced up to t + r * 1000000000 ns, t and r being the clock and the draw of the first successful query |
| HostRuns.FirstForcedBy | apiserver/pkg/scaling/scaling.go:82-95 | and with queries at most P apart something is forced at most P after that time |
| HostRuns.LaterArming | apiserver/pkg/scaling/scaling.go:88-97 | over runs, a poll that finds the window over arms the next poll's timer for its clock plus frequency plus draw in nanoseconds; any other leaves it |
| HostRuns.WindowsNeverOverlap | apiserver/pkg/host/host.go:54-63 | from any start, forced answers lie in their window, windows hit start more than W + F apart, and a run of length T hits at most 1 + T/(W+F) besides the one armed before it |
| HostRuns.UnarmedWindowCount | apiserver/pkg/host/host.go:54-63 | from an unarmed timer the bound counts every window |
| HostRuns.ZeroWindowNeverAnswers | apiserver/pkg/scaling/scaling.go:79-81 | with a zero window no query of a run that starts unarmed is ever answered |
| HostRuns.ZeroWindowKeepsArmedTimer | apiserver/pkg/scaling/scaling.go:79-81 | with a zero window an armed timer never moves and never forces |
| HostRuns.RecordRemembersLastFetch | apiserver/pkg/gitclient/client.go:68-90 | after any run the record is Valid with value and time of the last success, or that one's own window is over |
| HostRuns.AsksAgainIff | apiserver/pkg/gitclient/client.go:68-73 | after any run with a success, the next query asks GitHub if and only if it comes more than cacheWindow after a non-empty last response, or more than cacheWindowWhenEmpty after an empty one |
| HostRuns.RequestBudget | apiserver/pkg/gitclient/client.go:68-90 | the fetch after a non-empty response comes more than cacheWindow later, the one after an empty response more than cacheWindowWhenEmpty later, so n of them span more than n-1 of the shorter windows |
| CacheInterleaving.StepCorrect | apiserver/pkg/gitclient/client.go:59-97 | every atomic step of every call keeps the cache invariant |
| CacheInterleaving.CacheIsCorrect | apiserver/pkg/gitclient/client.go:59-97 | under any interleaving a stored Valid pair is a genuine response with its own time, and every error-free answer was fetched by its call or is within its window when checked |
| CacheInterleaving.UninterruptedCall | apiserver/pkg/host/host.go:46-63 | the atomic steps of one call in a row, whatever fails, do to the record what QueryMetric does |
| CacheBudget.StepKeepsBudget | apiserver/pkg/gitclient/client.go:59-97 | a step keeps the budget if a load happens only while no other call has a copy of the record in hand |
| CacheBudget.ExclusiveBudget | apiserver/pkg/gitclient/client.go:64-90 | in such a run of any number of calls, n successful fetches span more than n-1 of the shorter windows |
| CacheBudget.TwoCallsFetchIff | apiserver/pkg/gitclient/client.go:64-90 | in every interleaving of two whole calls on a stale record, with any time passing between the steps, each fetches if and only if it loads before the other has saved or checks the other's response after its window |
| CacheBudget.TwoCallsBreakBudgetIff | apiserver/pkg/gitclient/client.go:64-90 | the two break the budget if and only if each loads before the other has saved and they fetch within the shorter window of each other |
| TimerInterleaving.ExclusiveIsTimerRun | apiserver/pkg/host/host.go:54-63 | where loads are exclusive, the timer steps of any number of interleaved calls read and write one timer, as in a sequential run |
| TimerInterleaving.ExclusiveNeverStarved | apiserver/pkg/host/host.go:54-63 | so "force now" is followed by another within F + 2P + 86399 ns there, too |
| TimerInterleaving.ExclusiveWindows | apiserver/pkg/host/host.go:54-63 | and the windows hit do not overlap |
| TimerInterleaving.SaveRollsTimerBackIff | apiserver/pkg/gitclient/client.go:64-90 | whatever other calls do between a call's load and its save of the queue, the save puts the timer back, and so undoes their arming if and only if they moved it |
| TimerInterleaving.TimerRollsQueueBackIff | apiserver/pkg/host/host.go:54-63 | the save of the timer puts back the queue of its load, if and only if the timer moves |
| Labeling.GetLabels | apiserver/pkg/labeling/labeling.go:76-100 | the label map of a run, its runner labels sorted and joined |
| Labeling.RunLabels | apiserver/pkg/labeling/labeling.go:76-83 | wf_id is the run's workflow id, and the cr_ labels are the sanitised name, namespace, repository and owner |
| Labeling.InfoLabels | apiserver/pkg/labeling/labeling.go:84-98 | wf_name is the sanitised workflow name or "unknown"; each runner label has a label of its own, and wf_runs_on joins them sorted and undotted |
| Labeling.UndotIs | apiserver/pkg/labeling/labeling.go:94 | dots become underscores, other characters stay |
| Labeling.LabelsIgnoreRunsOnOrder | apiserver/pkg/labeling/labeling.go:88-98 | the label map does not depend on the order of the runner labels |
| Labeling.FilterBySelector | apiserver/pkg/labeling/labeling.go:102-118 | keeps the matching runs in order, and collects per label every value that a matching run carries, once |
| Labeling.MatchingByRun | apiserver/pkg/labeling/labeling.go:105-115 | selection goes run by run and keeps the order |
| Labeling.GetLabelsForOutput | apiserver/pkg/labeling/labeling.go:50-67 | sorts and joins each value list, in any iteration order |
| Labeling.PrometheusOrder | apiserver/pkg/labeling/labeling.go:25-65 | the Prometheus list is wf_id, wf_name and wf_runs_on in this order, empty where missing |
| Labeling.JoinedWithCommas | apiserver/pkg/labeling/labeling.go:53-57 | sorted values are joined with commas |
| Labeling.OutputIsCanonical | apiserver/pkg/labeling/labeling.go:50-118 | permuting the runs and changing iteration orders leaves count, label map and Prometheus list unchanged |
| Strings.SortCanonical | apiserver/pkg/labeling/labeling.go:55 | two duplicate-free lists of the same values sort to the same list |
| Strings.LeqAtDifference | apiserver/pkg/labeling/labeling.go:55 | the order sorted by: a proper prefix first, otherwise the first difference decides |
| Strings.DecimalParses | apiserver/pkg/labeling/labeling.go:78 | decimal printing reads back as the number, without leading zeros |
| Workflows.Config.CopyAllWorkflows | apiserver/pkg/config/workflows.go:82-117 | a resync purges exactly when no conversion failed, and otherwise overwrites the successes |
| Workflows.Config.HandleWatch | apiserver/pkg/config/workflows.go:150-190 | an event of another kind or one that fails to convert changes nothing; the others change one entry |
| Workflows.WatchFollows | apiserver/pkg/config/workflows.go:173-186 | Added and Modified put the runner's own configuration under its name, Deleted takes it out, nothing else changes |
| Workflows.EveryEntryUnderItsName | apiserver/pkg/config/workflows.go:66-69 | after any history every entry sits under its own name |
| Workflows.FailedResyncPurgesNothing | apiserver/pkg/config/workflows.go:96-115 | a resync with a conversion failure loses no name and overwrites exactly the successes |
| Workflows.CleanResyncForgetsThePast | apiserver/pkg/config/workflows.go:96-110 | without one, the store is the listed runners whatever happened before |
| Workflows.LastNamedIsLast | apiserver/pkg/config/workflows.go:98-109 | of several runners of one name the last one that converts wins |
| Workflows.EntriesAreRunners | apiserver/pkg/config/workflows.go:195-217 | after a resync an entry has name, namespace, owner, repository, token and scaling of the last runner of its name that converts, or is what was there before |
| Workflows.SurvivesCleanResyncIff | apiserver/pkg/config/workflows.go:86-109 | a name survives a clean resync if and only if a listing that succeeded has it |
| Provider.ValueFor | apiserver/pkg/k8sprovider/provider.go:55-86 | what is published for each outcome of the query, values and labels; a selector that is missing and does not parse panics; other records are untouched |
| Provider.PublishedShape | apiserver/pkg/k8sprovider/provider.go:73-79 | for every count that a page of runs can give, the published value is non-decreasing, in [min, max], min for an empty queue, at least 1 for another, max when forced |
| EnvVars.MergeKeepsPlaces | operator/sargenerator/sargenerator.go:194-241 | for distinct names: entries keep their places and take the desired value if there is one, missing names are appended once, names stay distinct |
| EnvVars.MergedAgrees | operator/sargenerator/sargenerator.go:194-241 | after a merge in any order there is nothing left to do |
| EnvVars.UnchangedIffAgrees | operator/sargenerator/sargenerator.go:194-241 | the merge changes the list if and only if something was to do |
| EnvOrders.OrderIsHidden | operator/sargenerator/sargenerator.go:232-239 | with at most one variable to append every order gives the same list |
| EnvOrders.OrderShows | operator/sargenerator/sargenerator.go:232-239 | with two or more, any order has another that gives other names |
| SarGenerator.SetEnvVars | operator/sargenerator/sargenerator.go:194-241 | the in-place loops perform the merge, and the flag is true if and only if the list changed |
| SarGenerator.DesiredVariable | operator/sargenerator/sargenerator.go:213-218 | runner labels win over configured variables, the last of a name over earlier ones, and these over the four fixed ones |
| SarGenerator.FixedVariables | operator/sargenerator/sargenerator.go:196-212 | the fixed variables, REPO_URL naming owner and repository |
| SarGenerator.GetVolumes | operator/sargenerator/sargenerator.go:139-192 | the loop gives one volume and one mount for each runner that has a secret |
| SarGenerator.VolumeNamesDistinct | operator/sargenerator/sargenerator.go:139-192 | volume names are pairwise distinct for every configuration |
| SarGenerator.MountPathsDistinct | operator/sargenerator/sargenerator.go:139-192 | mount paths are pairwise distinct |
| SarGenerator.MountNamesVolume | operator/sargenerator/sargenerator.go:139-192 | every mount but the first, workdir, names an existing volume |
| SarGenerator.PodFindsItsSecret | operator/sargenerator/sargenerator.go:86-192 | pod name-i finds RunnerSecrets[i] behind the path its start hook reads, for every i below maxRunners that has a secret, and nothing for any other |
| SarGenerator.FixedMounts | operator/sargenerator/sargenerator.go:139-165 | the work directory is always mounted, the docker socket if and only if it is asked for |
| Strings.DecimalInjective | operator/sargenerator/sargenerator.go:139-192 | decimal printing is injective |
| SarGenerator.GenerateStatefulSet | operator/sargenerator/sargenerator.go:80-137 | the generated set, and the label that leaks into the resource through the shared map |
| SarGenerator.GeneratedFields | operator/sargenerator/sargenerator.go:80-136 | the generated set field by field: replicas from minRunners, selector equal to the pods' labels, the container, the claim and the hash annotation |
| SarGenerator.PatchStatefulSet | operator/sargenerator/sargenerator.go:243-277 | the four outcomes of patching; the argument is not modified |
| SetUpdates.GetScaledSetUpdates | operator/controllers/scaledactionrunner_controller.go:398-484 | nil if and only if the set agrees with the configuration on every tracked field; otherwise a new object with the update, the old one untouched |
| SetUpdates.SettledIff | operator/controllers/scaledactionrunner_controller.go:398-484 | no update is needed if and only if name, namespace, hash annotation, image, every desired variable, volumes, mounts, the claim up to its mode, cpu and memory of requests and of limits, template annotations, node selector, tolerations and service account all agree |
| SetUpdates.UpdatedFields | operator/controllers/scaledactionrunner_controller.go:398-484 | what an update writes in each of these fields |
| SetUpdates.UpdateSettles | operator/controllers/scaledactionrunner_controller.go:398-484 | the update path is a fixpoint: its result needs no update |
| SetUpdates.GeneratedIsSettled | operator/sargenerator/sargenerator.go:80-137 | create and update agree: a generated set needs no update, whatever the iteration order |
| SetUpdates.UpdateKeepsTheRest | operator/controllers/scaledactionrunner_controller.go:398-484 | replicas, labels, further containers and other annotations are never touched |
| SetUpdates.OtherResourcesAreNotTracked | operator/controllers/scaledactionrunner_controller.go:448-453 | a difference in requests other than CPU and memory is not reported |
| Storage.StoredIsSettledIff | operator/controllers/scaledactionrunner_controller.go:422-473 | a settled set that went through storage is settled if and only if the configuration has a volume and no empty map or list, those of the claim template included; for other configurations none is |
| Storage.GeneratedSurvivesStorageIff | operator/sargenerator/sargenerator.go:80-192 | the same for a generated set |
| Storage.ChurnsIffUnsafe | operator/controllers/scaledactionrunner_controller.go:398-484 | without a patch, a run from no set or from any set read back from storage writes in every reconcile if the configuration is not such, and otherwise not at all if the set is settled and else once |
| ObjectStorage.AssignedSurvivesStorageIff | operator/controllers/scaledactionrunner_controller.go:218-263 | an assigned object that went through storage needs no assignment if and only if no configured list of scaling policies is empty |
| ObjectStorage.ObjectChurnsIffUnsafe | operator/controllers/scaledactionrunner_controller.go:218-263 | n reconciles of an object read back from storage update it n times if one is, and otherwise at most once |
| ScaledObjects.GenerateScaledObject | operator/sargenerator/sargenerator.go:68-78 | a fresh object with trigger maps of its own |
| ScaledObjects.GeneratedObjectFields | operator/sargenerator/sargenerator.go:32-66 | target, bounds, trigger, credentials and trigger metadata of a generated object |
| ScaledObjects.SetUrl | operator/controllers/scaledactionrunner_controller.go:254-256 | writing through the first trigger's map changes that trigger only |
| ScaledObjects.AssignScaledObjectPropsFromRunner | operator/controllers/scaledactionrunner_controller.go:218-263 | true if and only if the object changed; no map that it shares is written |
| ScaledObjects.AssignIsIdempotent | operator/controllers/scaledactionrunner_controller.go:218-263 | a second assignment changes nothing |
| ScaledObjects.GeneratedIsAssigned | operator/sargenerator/sargenerator.go:32-78 | a generated object is a fixpoint of the assignment |
| ScaledObjects.AssignedMatchesConfig | operator/controllers/scaledactionrunner_controller.go:229-256 | after an assignment bounds, target, url and scaling settings, the behaviour included, are the configuration's |
| ScaledObjects.AssignKeepsTheRest | operator/controllers/scaledactionrunner_controller.go:218-263 | labels, owner, other triggers, other metadata and unset scaling settings stay |
| SecretsHash.Base64Injective | operator/controllers/scaledactionrunner_controller.go:312 | base64 with padding (section 4 of RFC 4648) is injective |
| SecretsHash.DigitIsRfc4648 | operator/controllers/scaledactionrunner_controller.go:312 | the alphabet of RFC 4648, table 1 |
| SecretsHash.GroupIsRfc4648 | operator/controllers/scaledactionrunner_controller.go:312 | the bytes and the digits of a group are the same 24-bit number, padded as section 4 of RFC 4648 says |
| SecretsHash.FingerprintInjective | operator/controllers/scaledactionrunner_controller.go:289-312 | two sequences of ASCII payloads have the same fingerprint if and only if they are equal |
| SecretsHash.PayloadsDecideHash | operator/controllers/scaledactionrunner_controller.go:273-289 | secrets with the same payloads read the same, whatever their annotations |
| SecretsHash.SecretsAfterKeepsPayloads | operator/controllers/scaledactionrunner_controller.go:276-283 | the annotations that reading leaves behind change no payload |
| SecretsHash.Secrets.GetHash | operator/controllers/scaledactionrunner_controller.go:267-290 | what is read, and the secret annotated with its runner if that can be stored |
| SecretsHash.Secrets.GetSecretsHash | operator/controllers/scaledactionrunner_controller.go:265-313 | the fingerprint of the token and of the runner secrets that can be read, or which error; and the secrets annotated on the way |
| SecretsHash.SameFingerprintIff | operator/controllers/scaledactionrunner_controller.go:292-312 | two stores with all secrets there give the same fingerprint if and only if the token's payload and that of each RunnerSecrets[i] with i below maxRunners agree; the token is looked up in the runner's namespace first |
| SecretsHash.TokenDecides | operator/controllers/scaledactionrunner_controller.go:292-298 | there is a fingerprint if and only if the token can be read in one of the two places, and otherwise the second place decides the error |
| SecretsHash.SecretsReferToRunner | operator/controllers/scaledactionrunner_controller.go:276-283 | each runner secret read is annotated with namespace and name of the runner, if it can be written |
| ApiServer.PolledDeletion | operator/controllers/scaledactionrunner_controller.go:384-388 | polling ends with the object gone if and only if the deletion takes fewer reads than the limit |
| Reconcile.DeleteAndCreate | operator/controllers/scaledactionrunner_controller.go:377-393 | delete, poll at most 60 times or until a read fails, create without a version; failures do not stop it |
| Reconcile.ReplacementFor | operator/controllers/scaledactionrunner_controller.go:349-367 | update, patch and hash guard give the decision specified, on a fresh object |
| Reconcile.SyncStatefulSet | operator/controllers/scaledactionrunner_controller.go:315-396 | the sets after the call and its reply, for every way the calls fare |
| Reconcile.SyncScaledObject | operator/controllers/scaledactionrunner_controller.go:180-216 | the objects after the call and its reply |
| Reconcile.Validate | operator/api/v1alpha1/scaledactionrunner_types.go:82-106 | valid if and only if the token, every runner secret and the scale factor can be read |
| Reconcile.DeleteDependants | operator/controllers/scaledactionrunner_controller.go:80-91 | both dependants are deleted, also when deleting the first one fails |
| Reconcile.Reconcile | operator/controllers/scaledactionrunner_controller.go:67-121 | the cluster after a reconcile, and requeue if and only if something was modified |
| SetSync.KeepIff | operator/controllers/scaledactionrunner_controller.go:349-367 | a set is left alone if and only if it needs no update, or, under a patch, its annotation is the hash of the patched spec |
| SetSync.WrittenIsKeptIff | operator/controllers/scaledactionrunner_controller.go:349-367 | what was written is kept if and only if patching its update again gives the same hash |
| SetSync.WrittenIsInSync | operator/controllers/scaledactionrunner_controller.go:315-396 | with no patch or a repeatable one, what is written is kept in every environment order |
| SetSync.WriteChanges | operator/controllers/scaledactionrunner_controller.go:349-370 | a replacement always differs from what it replaces |
| SetRuns.AtMostOneWrite | operator/controllers/scaledactionrunner_controller.go:315-396 | a run of any length writes the set at most once, from any deployment |
| SetRuns.SecondIsSilent | operator/controllers/scaledactionrunner_controller.go:315-396 | the second reconcile is silent after a write, without a patch, or when the set lacked at most one variable |
| SetRuns.DecisionIgnoresOrder | operator/controllers/scaledactionrunner_controller.go:349-367 | with at most one variable to append the decision is the same in all orders |
| SetRuns.SilentThenWrites | operator/sargenerator/sargenerator.go:232-239 | any unsettled set, annotated with the hash of one patched update, is kept in that order and replaced in another if and only if the hash there differs |
| SetRuns.KeptInEveryOrderIff | operator/controllers/scaledactionrunner_controller.go:349-367 | under a patch and a digest that tell orders apart, a set kept once is kept in every order if and only if it lacks at most one variable |
| SetRuns.EnvPatcher | operator/sargenerator/sargenerator.go:243-294 | such a patch, also a repeatable one, with such a digest exists |
| SetRuns.AppendPatchNeverSettles | operator/sargenerator/sargenerator.go:243-277 | under a patch that appends a container every reconcile of a run writes |
| SetRuns.AppendPatcher | operator/sargenerator/sargenerator.go:243-294 | such a patch with such a digest exists |
| SetRuns.RotationReplacesIff | operator/controllers/scaledactionrunner_controller.go:361-367 | another secrets hash replaces a set kept under one if there is no patch; under a patch the set is kept, unless it is settled under exactly one of the hashes and the update shows in the digest |
| ReconcileRuns.SetTurn | operator/controllers/scaledactionrunner_controller.go:315-396 | with successful calls the cluster follows the decision on what the first read finds, also during a deletion |
| ReconcileRuns.TurnSyncs | operator/controllers/scaledactionrunner_controller.go:67-121 | a reconcile leaves what is in sync alone, brings the set that it writes in sync, and with Requeue=false only reads |
| ReconcileRuns.RunWritesLittle | operator/controllers/scaledactionrunner_controller.go:67-121 | a run of any length, also one that starts during a deletion, deletes and creates the set at most once and writes the object at most once, twice if it was being deleted |
| ReconcileRuns.SecondReconcileIsSilent | operator/controllers/scaledactionrunner_controller.go:67-121 | the second reconcile only reads and does not requeue, if no pending deletion completes before it and the first wrote the set, there is no patch, or the set lacks at most one variable |
| ReconcileRuns.SecondReconcileIsSilentIff | operator/controllers/scaledactionrunner_controller.go:67-121 | for a digest that tells orders apart, it is so in every order if and only if these conditions hold |
| ReconcileRuns.NextIsSilentIff | operator/controllers/scaledactionrunner_controller.go:67-121 | for any digest and one order, if and only if both objects are found and the decision is to keep the set |
| ReconcileRuns.ValidForIff | operator/api/v1alpha1/scaledactionrunner_types.go:82-106 | a resource is valid if and only if its scale factor parses, its token is in one of two places and every runner secret is there |
| ReconcileRuns.SecretChangeRecreatesIff | operator/controllers/scaledactionrunner_controller.go:265-370 | without a patch a cluster in sync is written again if and only if the token's payload changed, or that of a RunnerSecrets[i] with i below maxRunners |
| ReconcileRuns.UnreadableTokenRecreates | operator/controllers/scaledactionrunner_controller.go:316-349 | a token that cannot be read deletes and recreates a settled set, without a patch |
| ReconcileRuns.MissingTokenTouchesNoSet | operator/controllers/scaledactionrunner_controller.go:316-319 | a missing token is an error that touches no set |
| ReconcileRuns.SetErrorStillSyncsObject | operator/controllers/scaledactionrunner_controller.go:111-118 | whatever becomes of the set, the object is created or assigned |
| ReconcileRuns.CreatedObjectLabels | operator/controllers/scaledactionrunner_controller.go:180-193 | the object is created with the resource's labels, "app" among them if the resource has labels |
| ReconcileRuns.AnnotatedSecretsSameReconcile | operator/controllers/scaledactionrunner_controller.go:276-283 | a reconcile does the same with the secrets as an earlier one left them |
| ReconcileRuns.OthersAreUntouched | operator/controllers/scaledactionrunner_controller.go:67-121 | whatever fails, no object under another name is touched |
| ReconcileRuns.DependantsGo | operator/controllers/scaledactionrunner_controller.go:128-144 | after a successful reconcile of a resource that is gone, its dependants are gone or being deleted |
| ReconcileRuns.ReplacementIsDeployedIff | operator/controllers/scaledactionrunner_controller.go:377-395 | a replacement is always reported; it is deployed if and only if the polls see the old set go, whether this reconcile deletes it or an earlier one did, and the creation does not fail; if only the creation fails there is no set, and else the old one |
| CoreController.CreateUpdateOrReplace | operator/controllers/scaledactionrunnercore_controller.go:112-162 | store, object and outcome for every way the calls fare |
| CoreController.WaitUntilGone | operator/controllers/scaledactionrunnercore_controller.go:144-152 | polls up to 300 times, or until the object is gone or a read fails |
| CoreRuns.ReplacedIff | operator/controllers/scaledactionrunnercore_controller.go:143-161 | an object whose update fails is replaced if and only if the deletion is accepted and seen within 300 reads and the creation is accepted |
| CoreController.Deploy | operator/controllers/scaledactionrunnercore_controller.go:82-98 | one pass over the objects, stopped by the first failure |
| CoreController.Reconcile | operator/controllers/scaledactionrunnercore_controller.go:60-111 | the two passes on the objects in memory and in the cluster |
| CoreRuns.HandledOnce | operator/controllers/scaledactionrunnercore_controller.go:82-108 | every object is handled once over the two passes, prerequisites first, whether or not a write blanks its kind; a failure leaves a prefix |
| CoreRuns.SecretsAndAccountsFirst | operator/controllers/scaledactionrunnercore_controller.go:84-104 | nothing but Secrets and ServiceAccounts is handled before all of these are |
| CoreRuns.EveryIndexOnce | operator/controllers/scaledactionrunnercore_controller.go:82-108 | the prerequisites and the others together are every object once |
| CoreRuns.AllCarryAfterSuccess | operator/controllers/scaledactionrunnercore_controller.go:112-162 | after a success every object carries the current key, from any start; if nothing was being deleted, nothing is |
| CoreRuns.SecondReconcileIsSilentIff | operator/controllers/scaledactionrunnercore_controller.go:60-162 | after a success, from any start, a second reconcile writes nothing however the server answers, if and only if no deletion under way lets an object vanish first |
| CoreRuns.SecondReconcileIsSilent | operator/controllers/scaledactionrunnercore_controller.go:60-162 | with nothing being deleted it leaves the cluster as it is |
| CoreRuns.RequeueIsExact | operator/controllers/scaledactionrunnercore_controller.go:99-110 | a success requeues if and only if some object was not found with its key, also when it vanished during the reconcile |
| CoreGenerator.SetKey | operator/coregenerator/coregenerator.go:431-460 | every object of the list gets the key |
| CoreGenerator.Generate | operator/coregenerator/coregenerator.go:40-460 | which objects are generated, each with the key |
| CoreGenerator.GeneratedWhen | operator/coregenerator/coregenerator.go:40-355 | which objects are generated when, the cache's secret only for credentials of its own |
| CoreGenerator.IdentsDifferent | operator/coregenerator/coregenerator.go:40-460 | no two generated objects are the same object to the server, and each has a kind |
| CoreGenerator.CoreConverges | operator/controllers/scaledactionrunnercore_controller.go:60-162 | from any start, the generated objects all carry the key after a success, and a second reconcile is silent if and only if none of them vanishes first |
| EndToEnd.UrlParts | operator/controllers/scaledactionrunner_controller.go:93-109 | the metrics url part by part: server, group, version, namespace, runner and selector |
| EndToEnd.MetricsServerIs | operator/controllers/scaledactionrunner_controller.go:93-102 | the override counts if and only if both annotations are there and not empty |
| EndToEnd.UrlFindsWorkflow | operator/controllers/scaledactionrunner_controller.go:109 | the name in the url is the key of the workflow converted from this runner, with its owner and repository |
| EndToEnd.UrlReachesServer | operator/controllers/scaledactionrunner_controller.go:99-112 | without an override the url leads to the generated service under the group and version of the generated APIService, and the trigger to the generated credentials |

## Left out

- The memcached state provider: its entries vanish after an hour, so the request budget and the timer properties are stated for the in-memory one.
- GitHub and Kubernetes transport, Prometheus gauges, logging: their results are parameters.
- The JSON patch engine, SHA-1, and SHA-256 beyond its digest of the empty string: library code.
- Rounding errors of 64-bit floating point in the curve. Negative scale factors, a negative maximum and a minimum above the maximum are covered by Scaling.GetOutput, not by the properties of the curve.
- The separate clock readings within one call of CalculateForcedScale: one reading is taken.
- The sanitising of label values and the parsing of selectors: arbitrary functions here.
- Labeling.GetLabelsForOutput: sorts copies, where the code sorts the value lists in place; nobody else holds them.
- Labeling.GetLabels: does not model that sorting a workflow's runner labels also reorders the list held in the shared workflow data.
- SetUpdates.GetScaledSetUpdates: nested parts of a StatefulSet are values inside the object, so aliasing between two sets is modelled at the level of whole objects only.
- ScaledObjects.GenerateScaledObject: does not model that a label map that is not nil is the resource's own; nothing writes it afterwards.
- Storage.ChurnsIffUnsafe: stated without a patch; a patch sees specs as JSON, in which the two servers do not differ.
- CacheBudget.TwoCallsFetchIff: for two calls; for more, CacheBudget.ExclusiveBudget gives a sufficient condition only.
- Reconcile.SyncStatefulSet: requires an annotation map on the deployed set when the token is unreadable and there is a patch, because the code writes into a nil map there.
- Reconcile.SyncScaledObject: requires trigger metadata on a deployed object that has a target and triggers, because the code writes into a nil map otherwise.
- ReconcileRuns.RunWritesLittle: assumes that calls succeed and that deletions, those under way included, are seen within the poll limit; otherwise a replacement is refused and the set vanishes by itself later.
- Finalizers, owner-driven garbage collection and defaulting by the API server, its rewriting of quantities included.
- Pages of GitHub's run list after the first (100 runs), which the code does not ask for, and its filter on run states.
- GetAllMetricNames and GetMetricBySelector: the pre-sized slice leaves empty names for other namespaces.
- The retry loop of NewHost, the secret controller, the contents of the generated manifests, and the repository's other components (add-runner, GithubRunnerRegistration, runner).
