/** operator/controllers/scaledactionrunner_controller.go: Reconcile, and its calls to the API server. */
module Reconcile {
  import opened Wrappers
  import opened KubeTypes
  import opened ApiServer
  import opened EnvVars
  import opened SarGenerator
  import opened SetUpdates
  import opened SetSync
  import opened SecretsHash
  import opened ScaledObjects

  datatype Reply = SyncError | Synced(modified: bool)

  /** How the calls of one reconcile fare: a lag is how many reads still find an object that was deleted,
      `setPollReads` how many of the reads that poll for it succeed. */
  datatype Faults = Faults(
    validation: SecretFaults, secrets: SecretFaults,
    setGet: bool, setDelete: bool, setPollReads: nat, setCreate: bool, setLag: nat,
    objectGet: bool, objectCreate: bool, objectUpdate: bool, objectDelete: bool, objectLag: nat)

  const POLLS: nat := 60

  class Cluster {
    var sets: Store<Key, SetValue>
    var objects: Store<Key, ObjectValue>

    constructor (sets: Store<Key, SetValue>, objects: Store<Key, ObjectValue>)
      ensures this.sets == sets && this.objects == objects
    {
      this.sets, this.objects := sets, objects;
    }
  }

  function KeyOf(c: Config): Key {
    Key(c.namespace, c.name)
  }

  // ---------------------------------------------------------------------------------------------
  // The StatefulSet

  /** The set under the key is named by it and has the container and the claim that the code indexes. */
  ghost predicate SetReady(s: Store<Key, SetValue>, key: Key) {
    && s.Valid()
    && (key in s.stored ==> s.stored[key].HasShape() && Key(s.stored[key].namespace, s.stored[key].name) == key)
  }

  /** Under an empty secrets hash the set found may have no annotation map for the patch to write into. */
  ghost predicate SetPatchable(s: Store<Key, SetValue>, c: Config) {
    KeyOf(c) in s.stored ==> Patchable(s.stored[KeyOf(c)], c, "")
  }

  /** Generating the set labels the resource held in memory, too. */
  function LabelsAfter(labels: Option<StringMap>, hash: Hash): Option<StringMap> {
    if hash.TokenMissing? || labels.None? then labels else Some(AppLabels(labels))
  }

  function Recreated(s: Store<Key, SetValue>, key: Key, v: SetValue, f: Faults): Store<Key, SetValue> {
    var deleted := if f.setDelete then s.Refused() else s.Deleted(key, f.setLag);
    var polled := deleted.Polled(key, PollsMade(POLLS, f.setPollReads));
    if f.setCreate then polled.Refused() else polled.Created(key, v.(resourceVersion := NO_VERSION))
  }

  function NewSet(s: Store<Key, SetValue>, key: Key, decision: Decision, f: Faults): (Store<Key, SetValue>, Reply) {
    if !decision.Write? then (s, SyncError)
    else if f.setCreate then (s.Refused(), SyncError)
    else (s.Created(key, decision.v), Synced(true))
  }

  function FoundSet(s: Store<Key, SetValue>, key: Key, decision: Decision, f: Faults): (Store<Key, SetValue>, Reply) {
    match decision
    case Broken => (s, SyncError)
    case Keep => (s, Synced(false))
    case Write(w) => (Recreated(s, key, w, f), Synced(true))
  }

  ghost function SetsAfter(s: Store<Key, SetValue>, c: Config, labels: Option<StringMap>, hash: Hash,
      order: seq<string>, p: Patcher, f: Faults)
    : (r: (Store<Key, SetValue>, Reply))
    requires SetReady(s, KeyOf(c))
  {
    if hash.TokenMissing? || f.setGet then (s, SyncError)
    else
      var key, secretsHash := KeyOf(c), if hash.Hash? then hash.value else "";
      var t := s.AfterGet(key);
      match s.Seen(key)
      case None => NewSet(t, key, DecideNew(c, labels, secretsHash, order, p), f)
      case Some(v) => FoundSet(t, key, Decide(v, c, secretsHash, order, p), f)
  }

  /** Delete, wait for the deletion to be seen, create. Failures are only logged; one of a read ends the wait. */
  method DeleteAndCreate(existing: StatefulSet, updated: StatefulSet, cluster: Cluster, f: Faults)
    requires existing != updated && existing.namespace == updated.namespace && existing.name == updated.name
    modifies cluster`sets, updated`resourceVersion
    ensures cluster.sets ==
        Recreated(old(cluster.sets), Key(existing.namespace, existing.name), old(updated.Value()), f)
  {
    var key := Key(existing.namespace, existing.name);
    cluster.sets := if f.setDelete then cluster.sets.Refused() else cluster.sets.Deleted(key, f.setLag);
    ghost var before := cluster.sets;
    ghost var polls := PollsMade(POLLS, f.setPollReads);
    var deleted, iterations := false, 0;
    while !deleted && iterations < POLLS
      invariant iterations <= POLLS && (deleted || iterations <= polls)
      invariant before.Polled(key, polls) == if deleted then cluster.sets
          else cluster.sets.Polled(key, polls - iterations)
    {
      iterations := iterations + 1;
      if iterations > f.setPollReads {
        deleted := true;
      } else {
        deleted := cluster.sets.Seen(key).None?;
        cluster.sets := cluster.sets.AfterGet(key);
      }
    }
    updated.resourceVersion := NO_VERSION;
    cluster.sets := if f.setCreate then cluster.sets.Refused()
        else cluster.sets.Created(Key(updated.namespace, updated.name), updated.Value());
  }

  /** No set was found: create the generated one, patched. */
  method CreateSet(r: ScaledActionRunner, newSs: StatefulSet, ghost labels: Option<StringMap>,
    ghost secretsHash: string,
    ghost order: seq<string>, p: Patcher, cluster: Cluster, f: Faults)
    returns (reply: Reply)
    requires newSs.Value() == Generated(r.config, labels, secretsHash, order)
    modifies cluster`sets, newSs
    ensures (cluster.sets, reply) ==
        NewSet(old(cluster.sets), KeyOf(r.config), DecideNew(r.config, labels, secretsHash, order, p), f)
  {
    newSs.owner := Some(r.config.name);
    var patched, _, failed := PatchStatefulSet(newSs, r.config, p);
    if failed {
      return SyncError;
    }
    var toCreate := if patched != null then patched else newSs;
    if f.setCreate {
      cluster.sets := cluster.sets.Refused();
      return SyncError;
    }
    cluster.sets := cluster.sets.Created(Key(toCreate.namespace, toCreate.name), toCreate.Value());
    return Synced(true);
  }

  /** A set was found: what to replace it with, if anything. */
  method ReplacementFor(existing: StatefulSet, c: Config, secretsHash: string, order: seq<string>, p: Patcher)
    returns (replacement: StatefulSet?, failed: bool)
    requires existing.Value().HasShape() && IsOrder(order, DesiredEnv(c)) && Patchable(existing.Value(), c, secretsHash)
    ensures
      match Decide(existing.Value(), c, secretsHash, order, p)
      case Broken => failed
      case Keep => !failed && replacement == null
      case Write(w) => !failed && replacement != null && fresh(replacement) && replacement.Value() == w
  {
    replacement := GetScaledSetUpdates(existing, c, secretsHash, order);
    var unpatched := if replacement != null then replacement else existing;
    var patched, patchedHash;
    patched, patchedHash, failed := PatchStatefulSet(unpatched, c, p);
    if failed {
      return;
    }
    if existing.annotations.Some? && patchedHash != "" && patchedHash == existing.Value().Annotation(PATCH_HASH) {
      replacement := null;
    } else if patched != null {
      replacement := patched;
    }
  }

  lemma WriteKeepsKey(v: SetValue, c: Config, secretsHash: string, order: seq<string>, p: Patcher)
    requires v.HasShape() && Decide(v, c, secretsHash, order, p).Write?
    ensures
      var w := Decide(v, c, secretsHash, order, p).v;
      w.name == c.name && w.namespace == c.namespace
  {
  }

  method SyncFound(found: SetValue, c: Config, secretsHash: string, order: seq<string>, p: Patcher, cluster: Cluster,
      f: Faults)
    returns (reply: Reply)
    requires found.HasShape() && found.name == c.name && found.namespace == c.namespace
    requires IsOrder(order, DesiredEnv(c)) && Patchable(found, c, secretsHash)
    modifies cluster`sets
    ensures (cluster.sets, reply) == FoundSet(old(cluster.sets), KeyOf(c), Decide(found, c, secretsHash, order, p), f)
  {
    var existing := new StatefulSet(found);
    var replacement, failed := ReplacementFor(existing, c, secretsHash, order, p);
    if failed {
      return SyncError;
    }
    if replacement != null {
      WriteKeepsKey(found, c, secretsHash, order, p);
      DeleteAndCreate(existing, replacement, cluster, f);
    }
    return Synced(replacement != null);
  }

  method SyncStatefulSet(r: ScaledActionRunner, apiServerNs: string, secrets: Secrets, cluster: Cluster,
      order: seq<string>, p: Patcher, f: Faults)
    returns (reply: Reply)
    requires IsOrder(order, DesiredEnv(r.config)) && SetReady(cluster.sets, KeyOf(r.config))
    requires HashOf(secrets.stored, r.config, apiServerNs, f.secrets).TokenUnreadable? ==>
        SetPatchable(cluster.sets, r.config)
    modifies r, secrets, cluster`sets
    ensures
      (cluster.sets, reply) ==
      SetsAfter(old(cluster.sets), r.config, old(r.labels),
          HashOf(old(secrets.stored), r.config, apiServerNs, f.secrets), order, p, f)
    ensures secrets.stored == SecretsAfter(old(secrets.stored), r.config, apiServerNs, f.secrets)
    ensures r.labels == LabelsAfter(old(r.labels), HashOf(old(secrets.stored), r.config, apiServerNs, f.secrets))
  {
    var key := KeyOf(r.config);
    ghost var labels := r.labels;
    var hash := secrets.GetSecretsHash(r.config, apiServerNs, f.secrets);
    if hash.TokenMissing? {
      return SyncError;
    }
    var secretsHash := if hash.Hash? then hash.value else "";
    var newSs := GenerateStatefulSet(r, secretsHash, order);
    if f.setGet {
      return SyncError;
    }
    var found := cluster.sets.Seen(key);
    cluster.sets := cluster.sets.AfterGet(key);
    if found.None? {
      reply := CreateSet(r, newSs, labels, secretsHash, order, p, cluster, f);
      return;
    }
    reply := SyncFound(found.value, r.config, secretsHash, order, p, cluster, f);
  }

  // ---------------------------------------------------------------------------------------------
  // The ScaledObject

  ghost predicate ObjectReady(s: Store<Key, ObjectValue>, key: Key) {
    s.Valid() && (key in s.stored ==> s.stored[key].HasMetadata())
  }

  function ObjectsAfter(s: Store<Key, ObjectValue>, c: Config, labels: Option<StringMap>, url: string,
      trigger: string, f: Faults)
    : (r: (Store<Key, ObjectValue>, Reply))
    requires KeyOf(c) in s.stored ==> s.stored[KeyOf(c)].HasMetadata()
  {
    if f.objectGet then (s, SyncError)
    else
      var key := KeyOf(c);
      var t := s.AfterGet(key);
      match s.Seen(key)
      case None =>
        if f.objectCreate then (t.Refused(), SyncError)
        else (t.Created(key, GeneratedObject(c, labels, url, trigger).(owner := Some(c.name))), Synced(true))
      case Some(v) =>
        var w := Assigned(v, c, url, trigger);
        if w == v then (t, Synced(false))
        else if f.objectUpdate then (t.Refused(), SyncError)
        else (t.Replaced(key, w), Synced(true))
  }

  method SyncScaledObject(r: ScaledActionRunner, url: string, trigger: string, cluster: Cluster, f: Faults)
      returns (reply: Reply)
    requires ObjectReady(cluster.objects, KeyOf(r.config)) && url != ""
    modifies cluster`objects
    ensures (cluster.objects, reply) == ObjectsAfter(old(cluster.objects), r.config, r.labels, url, trigger, f)
  {
    if f.objectGet {
      return SyncError;
    }
    var key := KeyOf(r.config);
    var found := cluster.objects.Seen(key);
    cluster.objects := cluster.objects.AfterGet(key);
    if found.None? {
      var so := GenerateScaledObject(r, url, trigger);
      so.owner := Some(r.config.name);
      cluster.objects := if f.objectCreate then cluster.objects.Refused()
          else cluster.objects.Created(Key(so.namespace, so.name), so.Value());
      return if f.objectCreate then SyncError else Synced(true);
    }
    var so := LoadScaledObject(found.value);
    var updatedSo := so.DeepCopy();
    var modified := AssignScaledObjectPropsFromRunner(updatedSo, r, url, trigger);
    if modified {
      updatedSo.resourceVersion := found.value.resourceVersion;
      cluster.objects :=
        if f.objectUpdate then cluster.objects.Refused()
        else cluster.objects.Replaced(Key(updatedSo.namespace, updatedSo.name), updatedSo.Value());
      return if f.objectUpdate then SyncError else Synced(true);
    }
    return Synced(false);
  }

  // ---------------------------------------------------------------------------------------------
  // A whole reconcile

  /** A custom resource once Setup has filled in its defaults. */
  datatype Resource = Resource(
    config: Config, labels: Option<StringMap>, annotations: Option<StringMap>, selector: Option<string>,
        scaleFactorParses: bool)

  datatype Fetched = Unfetched | Gone | Fetched(resource: Resource)

  datatype Core = Core(apiServerName: string, apiServerNamespace: string)

  datatype Input = Input(req: Key, core: Option<Core>, runner: Fetched, p: Patcher)
  {
    ghost predicate Valid() {
      runner.Fetched? ==> KeyOf(runner.resource.config) == req
    }
  }

  datatype Result = Error | Done(requeue: bool)

  function AnnotationOf(annotations: Option<StringMap>, key: string): string {
    if annotations.Some? && key in annotations.value then annotations.value[key] else ""
  }

  /** The metrics server: the override counts only if it is complete. */
  function MetricsServer(r: Resource, core: Core): Core {
    var name, namespace := AnnotationOf(r.annotations, "OverrideMetricsName"),
        AnnotationOf(r.annotations, "OverrideMetricsNamespace");
    if name == "" || namespace == "" then core else Core(name, namespace)
  }

  function MetricsUrl(r: Resource, core: Core, req: Key): (url: string)
    ensures url != ""
  {
    var server := MetricsServer(r, core);
    var endpoint := server.apiServerName + "." + server.apiServerNamespace + ".svc";
    "https://" + endpoint + "/apis/custom.metrics.k8s.io/v1beta1/namespaces/" + req.namespace
    + "/Scaledactionrunners/" + req.name
    + "/" + if r.selector.Some? && r.selector.value != "" then r.selector.value else "*"
  }

  predicate AllReadable(secrets: map<Key, Secret>, namespace: string, names: seq<string>, f: SecretFaults) {
    forall n :: n in names ==> ReadOf(secrets, Key(namespace, n), f).Payload?
  }

  predicate Validates(secrets: map<Key, Secret>, r: Resource, apiServerNs: string, f: SecretFaults) {
    && TokenOf(secrets, r.config, apiServerNs, f).Payload?
    && AllReadable(secrets, r.config.namespace, r.config.runnerSecrets, f)
    && r.scaleFactorParses
  }

  method Validate(secrets: Secrets, r: Resource, apiServerNs: string, f: SecretFaults) returns (valid: bool)
    ensures valid <==> Validates(secrets.stored, r, apiServerNs, f)
  {
    var c := r.config;
    if !ReadOf(secrets.stored, Key(c.namespace, c.githubTokenSecret), f).Payload? {
      if !ReadOf(secrets.stored, Key(apiServerNs, c.githubTokenSecret), f).Payload? {
        return false;
      }
    }
    for i := 0 to |c.runnerSecrets|
      invariant AllReadable(secrets.stored, c.namespace, c.runnerSecrets[..i], f)
    {
      if !ReadOf(secrets.stored, Key(c.namespace, c.runnerSecrets[i]), f).Payload? {
        assert c.runnerSecrets[i] in c.runnerSecrets;
        return false;
      }
    }
    return r.scaleFactorParses;
  }

  function DependantDeleted<V>(s: Store<Key, V>, key: Key, getFails: bool, deleteFails: bool,
      lag: nat): (r: (Store<Key, V>, bool)) {
    if getFails then (s, false)
    else if s.Seen(key).None? then (s.AfterGet(key), true)
    else if deleteFails then (s.AfterGet(key).Refused(), false)
    else (s.AfterGet(key).Deleted(key, lag), true)
  }

  datatype World = World(sets: Store<Key, SetValue>, objects: Store<Key, ObjectValue>)

  /** The set first, then the object, whether or not the set could be brought in sync. */
  ghost function Resynced(w: World, i: Input, hash: Hash, order: seq<string>, f: Faults): (r: (World, Result))
    requires i.Valid() && i.core.Some? && i.runner.Fetched? && SetReady(w.sets, i.req) && ObjectReady(w.objects, i.req)
  {
    var r, core := i.runner.resource, i.core.value;
    var sets := SetsAfter(w.sets, r.config, r.labels, hash, order, i.p, f);
    var objects := ObjectsAfter(w.objects, r.config, LabelsAfter(r.labels, hash),
                                MetricsUrl(r, core, i.req), MetricsServer(r, core).apiServerName, f);
    (World(sets.0, objects.0),
     if sets.1.SyncError? || objects.1.SyncError? then Error else Done(sets.1.modified || objects.1.modified))
  }

  /** What one reconcile makes of the cluster. */
  ghost function Reconciled(w: World, i: Input, secrets: map<Key, Secret>, order: seq<string>,
      f: Faults): (r: (World, Result))
    requires i.Valid() && SetReady(w.sets, i.req) && ObjectReady(w.objects, i.req)
  {
    if i.core.None? then (w, Error)
    else
      match i.runner
      case Unfetched => (w, Error)
      case Gone =>
        var objects := DependantDeleted(w.objects, i.req, f.objectGet, f.objectDelete, f.objectLag);
        var sets := DependantDeleted(w.sets, i.req, f.setGet, f.setDelete, f.setLag);
        (World(sets.0, objects.0), if objects.1 && sets.1 then Done(false) else Error)
      case Fetched(r) =>
        var ns := i.core.value.apiServerNamespace;
        if !Validates(secrets, r, ns, f.validation) then (w, Error)
        else Resynced(w, i, HashOf(secrets, r.config, ns, f.secrets), order, f)
  }

  /** The secrets are read, and so annotated, only for a resource that is valid. */
  function SecretsReconciled(i: Input, secrets: map<Key, Secret>, f: Faults): map<Key, Secret> {
    if i.core.None? || !i.runner.Fetched? then secrets
    else
      var ns := i.core.value.apiServerNamespace;
      if !Validates(secrets, i.runner.resource, ns, f.validation) then secrets
      else SecretsAfter(secrets, i.runner.resource.config, ns, f.secrets)
  }

  method DeleteDependants(req: Key, cluster: Cluster, f: Faults) returns (result: Result)
    modifies cluster
    ensures
      var objects := DependantDeleted(old(cluster.objects), req, f.objectGet, f.objectDelete, f.objectLag);
      var sets := DependantDeleted(old(cluster.sets), req, f.setGet, f.setDelete, f.setLag);
      && cluster.objects == objects.0 && cluster.sets == sets.0
      && result == if objects.1 && sets.1 then Done(false) else Error
  {
    var objectDeleted, setDeleted;
    cluster.objects, objectDeleted := DeleteDependant(cluster.objects, req, f.objectGet, f.objectDelete, f.objectLag);
    cluster.sets, setDeleted := DeleteDependant(cluster.sets, req, f.setGet, f.setDelete, f.setLag);
    return if objectDeleted && setDeleted then Done(false) else Error;
  }

  method DeleteDependant<V>(s: Store<Key, V>, key: Key, getFails: bool, deleteFails: bool, lag: nat)
      returns (t: Store<Key, V>, ok: bool)
    ensures (t, ok) == DependantDeleted(s, key, getFails, deleteFails, lag)
  {
    if getFails {
      return s, false;
    }
    t := s.AfterGet(key);
    if s.Seen(key).None? {
      return t, true;
    }
    t := if deleteFails then t.Refused() else t.Deleted(key, lag);
    return t, !deleteFails;
  }

  method Reconcile(i: Input, secrets: Secrets, cluster: Cluster, order: seq<string>, f: Faults) returns (result: Result)
    requires i.Valid() && SetReady(cluster.sets, i.req) && ObjectReady(cluster.objects, i.req)
    requires i.runner.Fetched? ==> IsOrder(order, DesiredEnv(i.runner.resource.config))
    requires
      i.runner.Fetched? && i.core.Some?
      && HashOf(secrets.stored, i.runner.resource.config, i.core.value.apiServerNamespace, f.secrets).TokenUnreadable?
      ==> SetPatchable(cluster.sets, i.runner.resource.config)
    modifies secrets, cluster
    ensures
      (World(cluster.sets, cluster.objects), result) ==
      Reconciled(World(old(cluster.sets), old(cluster.objects)), i, old(secrets.stored), order, f)
    ensures secrets.stored == SecretsReconciled(i, old(secrets.stored), f)
  {
    if i.core.None? || i.runner.Unfetched? {
      return Error;
    }
    var core := i.core.value;
    if i.runner.Gone? {
      result := DeleteDependants(i.req, cluster, f);
      return;
    }
    var resource := i.runner.resource;
    var valid := Validate(secrets, resource, core.apiServerNamespace, f.validation);
    if !valid {
      return Error;
    }
    var r := new ScaledActionRunner(resource.config, resource.labels);
    var setReply := SyncStatefulSet(r, core.apiServerNamespace, secrets, cluster, order, i.p, f);
    var objectReply := SyncScaledObject(r, MetricsUrl(resource, core, i.req),
        MetricsServer(resource, core).apiServerName, cluster, f);
    if setReply.SyncError? || objectReply.SyncError? {
      return Error;
    }
    return Done(setReply.modified || objectReply.modified);
  }
}
