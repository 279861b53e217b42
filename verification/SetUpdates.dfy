/** operator/controllers/scaledactionrunner_controller.go: the update path of the StatefulSet. */
module SetUpdates {
  import opened Wrappers
  import opened KubeTypes
  import opened EnvVars
  import opened SarGenerator

  const CPU: string := "cpu"
  const MEMORY: string := "memory"

  /** A missing resource, or a nil list, counts as a zero quantity. */
  function AmountOf(list: Option<ResourceList>, resource: string): int {
    if list.Some? && resource in list.value then list.value[resource].amount else 0
  }

  predicate SameCpuAndMemory(a: Option<ResourceList>, b: ResourceList) {
    AmountOf(a, CPU) == AmountOf(Some(b), CPU) && AmountOf(a, MEMORY) == AmountOf(Some(b), MEMORY)
  }

  predicate ClaimSettled(s: ClaimSpec, c: Config) {
    s == c.workVolumeClaimTemplate || s.(volumeMode := Some(FILESYSTEM)) == c.workVolumeClaimTemplate
  }

  ghost predicate ContainerSettled(k: Container, c: Config) {
    && k.image == c.image
    && Agrees(k.env, DesiredEnv(c))
    && k.volumeMounts == Some(Mounts(c))
    && SameCpuAndMemory(k.requests, c.requests)
    && SameCpuAndMemory(k.limits, c.limits)
  }

  /** The spec agrees with the configuration on every tracked field: the claim up to its volume mode,
      resources on CPU and memory only. */
  ghost predicate SpecSettled(s: SetSpec, c: Config) {
    && s.containers != [] && s.claims != []
    && ContainerSettled(s.containers[0], c)
    && ClaimSettled(s.claims[0].spec, c)
    && PodSettled(s, c)
  }

  ghost predicate PodSettled(s: SetSpec, c: Config) {
    && s.volumes == Some(Volumes(c))
    && s.templateAnnotations == c.annotations
    && s.nodeSelector == c.nodeSelector
    && s.tolerations == c.tolerations
    && s.serviceAccountName == c.serviceAccountName
  }

  predicate MetaSettled(v: SetValue, c: Config, secretsHash: string) {
    v.name == c.name && v.namespace == c.namespace && v.Annotation(SECRETS_HASH) == secretsHash
  }

  ghost predicate Settled(v: SetValue, c: Config, secretsHash: string) {
    MetaSettled(v, c, secretsHash) && SpecSettled(v.spec, c)
  }

  function UpdatedMeta(v: SetValue, c: Config, secretsHash: string): SetValue {
    var annotations := v.annotations.GetOr(map[]);
    v.(name := c.name, namespace := c.namespace,
       annotations := Some(if v.Annotation(SECRETS_HASH) == secretsHash then annotations
           else annotations[SECRETS_HASH := secretsHash]))
  }

  function UpdatedClaims(claims: seq<Claim>, c: Config): seq<Claim>
    requires claims != []
  {
    if ClaimSettled(claims[0].spec, c) then claims[0 := claims[0].(spec := c.workVolumeClaimTemplate)]
    else [Claim(claims[0].name, claims[0].labels, c.workVolumeClaimTemplate, "")]
  }

  function UpdatedContainer(k: Container, c: Config, order: seq<string>): Container {
    k.(image := c.image, env := Merged(k.env, DesiredEnv(c), order), volumeMounts := Some(Mounts(c)),
       requests := Some(c.requests), limits := Some(c.limits))
  }

  function UpdatedSpec(s: SetSpec, c: Config, order: seq<string>): SetSpec
    requires s.containers != [] && s.claims != []
  {
    WithFirstContainer(s, UpdatedContainer(FirstContainer(s), c, order))
      .(claims := UpdatedClaims(s.claims, c), volumes := Some(Volumes(c)),
        templateAnnotations := c.annotations, nodeSelector := c.nodeSelector,
        tolerations := c.tolerations, serviceAccountName := c.serviceAccountName)
  }

  function Updated(v: SetValue, c: Config, secretsHash: string, order: seq<string>): SetValue
    requires v.HasShape()
  {
    UpdatedMeta(v, c, secretsHash).(spec := UpdatedSpec(v.spec, c, order))
  }

  method UpdateMeta(oldSs: StatefulSet, updatedSs: StatefulSet, c: Config, secretsHash: string) returns (updated: bool)
    requires oldSs != updatedSs && updatedSs.Value() == oldSs.Value()
    modifies updatedSs
    ensures updatedSs.Value() == UpdatedMeta(oldSs.Value(), c, secretsHash)
    ensures updated <==> !MetaSettled(oldSs.Value(), c, secretsHash)
  {
    updated := false;
    if oldSs.name != c.name {
      updatedSs.name := c.name;
      updated := true;
    }
    if oldSs.namespace != c.namespace {
      updatedSs.namespace := c.namespace;
      updated := true;
    }
    if oldSs.annotations.None? {
      updatedSs.annotations := Some(map[]);
    }
    if oldSs.Value().Annotation(SECRETS_HASH) != secretsHash {
      updatedSs.annotations := Some(updatedSs.annotations.value[SECRETS_HASH := secretsHash]);
      updated := true;
    }
  }

  method UpdateImage(oldSs: StatefulSet, updatedSs: StatefulSet, c: Config) returns (updated: bool)
    requires oldSs != updatedSs && oldSs.Value().HasShape() && updatedSs.spec == oldSs.spec
    modifies updatedSs`spec
    ensures updatedSs.spec == WithFirstContainer(oldSs.spec, FirstContainer(oldSs.spec).(image := c.image))
    ensures updated <==> FirstContainer(oldSs.spec).image != c.image
  {
    updated := false;
    if FirstContainer(oldSs.spec).image != c.image {
      updatedSs.spec := WithFirstContainer(updatedSs.spec, FirstContainer(updatedSs.spec).(image := c.image));
      updated := true;
    }
  }

  method UpdateClaims(oldSs: StatefulSet, updatedSs: StatefulSet, c: Config) returns (updated: bool)
    requires oldSs != updatedSs && oldSs.Value().HasShape() && updatedSs.spec.claims == oldSs.spec.claims
    modifies updatedSs`spec
    ensures updatedSs.spec == old(updatedSs.spec).(claims := UpdatedClaims(oldSs.spec.claims, c))
    ensures updated <==> !ClaimSettled(oldSs.spec.claims[0].spec, c)
  {
    updated := false;
    if oldSs.spec.claims[0].spec != c.workVolumeClaimTemplate {
      var first := updatedSs.spec.claims[0];
      first := first.(spec := first.spec.(volumeMode := Some(FILESYSTEM)));
      updatedSs.spec := updatedSs.spec.(claims := updatedSs.spec.claims[0 := first]);
      if first.spec != c.workVolumeClaimTemplate {
        updatedSs.spec := updatedSs.spec.(claims := [Claim(first.name, first.labels, c.workVolumeClaimTemplate, "")]);
        updated := true;
      }
    }
  }

  function ContainerStep(s: SetSpec, k: Container, c: Config): SetSpec
    requires s.containers != []
  {
    var t := FirstContainer(s);
    WithFirstContainer(s, t.(
      volumeMounts := if k.volumeMounts == Some(Mounts(c)) then t.volumeMounts else Some(Mounts(c)),
      requests := if SameCpuAndMemory(k.requests, c.requests) then t.requests else Some(c.requests),
      limits := if SameCpuAndMemory(k.limits, c.limits) then t.limits else Some(c.limits)))
  }

  method UpdateContainer(oldSs: StatefulSet, updatedSs: StatefulSet, c: Config) returns (updated: bool)
    requires oldSs != updatedSs && oldSs.Value().HasShape() && updatedSs.spec.containers != []
    modifies updatedSs`spec
    ensures updatedSs.spec == ContainerStep(old(updatedSs.spec), FirstContainer(oldSs.spec), c)
    ensures
      var k := FirstContainer(oldSs.spec);
      var same := SameCpuAndMemory(k.requests, c.requests) && SameCpuAndMemory(k.limits, c.limits);
      updated <==> !(k.volumeMounts == Some(Mounts(c)) && same)
  {
    updated := false;
    var oldContainer, container := FirstContainer(oldSs.spec), FirstContainer(updatedSs.spec);
    var _, volumeMounts := GetVolumes(c);
    if Some(volumeMounts) != oldContainer.volumeMounts {
      container := container.(volumeMounts := Some(volumeMounts));
      updated := true;
    }
    if !SameCpuAndMemory(oldContainer.requests, c.requests) {
      container := container.(requests := Some(c.requests));
      updated := true;
    }
    if !SameCpuAndMemory(oldContainer.limits, c.limits) {
      container := container.(limits := Some(c.limits));
      updated := true;
    }
    updatedSs.spec := WithFirstContainer(updatedSs.spec, container);
  }

  function PodStep(t: SetSpec, s: SetSpec, c: Config): SetSpec {
    t.(volumes := if s.volumes == Some(Volumes(c)) then t.volumes else Some(Volumes(c)),
       templateAnnotations := if s.templateAnnotations == c.annotations then t.templateAnnotations else c.annotations,
       nodeSelector := if s.nodeSelector == c.nodeSelector then t.nodeSelector else c.nodeSelector,
       tolerations := if s.tolerations == c.tolerations then t.tolerations else c.tolerations,
       serviceAccountName := if s.serviceAccountName == c.serviceAccountName then t.serviceAccountName
           else c.serviceAccountName)
  }

  method UpdatePod(oldSs: StatefulSet, updatedSs: StatefulSet, c: Config) returns (updated: bool)
    requires oldSs != updatedSs
    modifies updatedSs`spec
    ensures updatedSs.spec == PodStep(old(updatedSs.spec), oldSs.spec, c)
    ensures updated <==> !PodSettled(oldSs.spec, c)
  {
    updated := false;
    var volumes, _ := GetVolumes(c);
    if Some(volumes) != oldSs.spec.volumes {
      updatedSs.spec := updatedSs.spec.(volumes := Some(volumes));
      updated := true;
    }
    if oldSs.spec.templateAnnotations != c.annotations {
      updatedSs.spec := updatedSs.spec.(templateAnnotations := c.annotations);
      updated := true;
    }
    if oldSs.spec.nodeSelector != c.nodeSelector {
      updatedSs.spec := updatedSs.spec.(nodeSelector := c.nodeSelector);
      updated := true;
    }
    if oldSs.spec.tolerations != c.tolerations {
      updatedSs.spec := updatedSs.spec.(tolerations := c.tolerations);
      updated := true;
    }
    if oldSs.spec.serviceAccountName != c.serviceAccountName {
      updatedSs.spec := updatedSs.spec.(serviceAccountName := c.serviceAccountName);
      updated := true;
    }
  }

  /** The assignments, in the order the code makes them, amount to UpdatedSpec. */
  lemma StepsMakeUpdate(s: SetSpec, s1: SetSpec, s2: SetSpec, s3: SetSpec, c: Config, order: seq<string>)
    requires s.containers != [] && s.claims != []
    requires s1 == WithFirstContainer(s, FirstContainer(s).(image := c.image))
    requires s2 == s1.(claims := UpdatedClaims(s.claims, c))
    requires s3 == WithSettings(WithEnv(s2, Merged(FirstContainer(s2).env, DesiredEnv(c), order)), c)
    ensures FirstContainer(s2).env == FirstContainer(s).env
    ensures PodStep(ContainerStep(s3, FirstContainer(s), c), s, c) == UpdatedSpec(s, c, order)
  {
  }

  /** nil exactly when the old object is settled; otherwise a new object, the old one untouched. */
  method GetScaledSetUpdates(oldSs: StatefulSet, c: Config, secretsHash: string, order: seq<string>)
      returns (result: StatefulSet?)
    requires oldSs.Value().HasShape() && IsOrder(order, DesiredEnv(c))
    ensures result == null <==> Settled(oldSs.Value(), c, secretsHash)
    ensures result != null ==> fresh(result) && result.Value() == Updated(oldSs.Value(), c, secretsHash, order)
  {
    var updatedSs := oldSs.DeepCopy();
    var meta := UpdateMeta(oldSs, updatedSs, c, secretsHash);
    var image := UpdateImage(oldSs, updatedSs, c);
    ghost var s1 := updatedSs.spec;
    var claims := UpdateClaims(oldSs, updatedSs, c);
    ghost var s2 := updatedSs.spec;
    var env := SetEnvVars(c, updatedSs, order);
    ghost var s3 := updatedSs.spec;
    var container := UpdateContainer(oldSs, updatedSs, c);
    var pod := UpdatePod(oldSs, updatedSs, c);
    StepsMakeUpdate(oldSs.spec, s1, s2, s3, c, order);
    if meta || image || claims || env || container || pod {
      return updatedSs;
    }
    return null;
  }

  // ---------------------------------------------------------------------------------------------

  lemma ContainerUpdateSettles(k: Container, c: Config, order: seq<string>)
    requires IsOrder(order, DesiredEnv(c))
    ensures ContainerSettled(UpdatedContainer(k, c, order), c)
  {
    MergedAgrees(k.env, DesiredEnv(c), order);
  }

  /** The update path is a fixpoint: its own result needs no update, whatever the iteration orders. */
  lemma UpdateSettles(v: SetValue, c: Config, secretsHash: string, order: seq<string>)
    requires v.HasShape() && IsOrder(order, DesiredEnv(c))
    ensures Updated(v, c, secretsHash, order).HasShape()
    ensures Settled(Updated(v, c, secretsHash, order), c, secretsHash)
  {
    ContainerUpdateSettles(FirstContainer(v.spec), c, order);
  }

  /** Create and update paths agree: a freshly generated StatefulSet needs no update. */
  lemma GeneratedIsSettled(c: Config, labels: Option<StringMap>, secretsHash: string, order: seq<string>,
      owner: Option<string>)
    requires IsOrder(order, DesiredEnv(c))
    ensures
      var v := Generated(c, labels, secretsHash, order).(owner := owner);
      v.HasShape() && Settled(v, c, secretsHash)
  {
    MergedAgrees([], DesiredEnv(c), order);
  }

  /** What an update never touches. */
  lemma UpdateKeepsTheRest(v: SetValue, c: Config, secretsHash: string, order: seq<string>)
    requires v.HasShape()
    ensures
      var u := Updated(v, c, secretsHash, order);
      && u.spec.replicas == v.spec.replicas
      && u.labels == v.labels && u.spec.selector == v.spec.selector && u.spec.templateLabels == v.spec.templateLabels
      && u.owner == v.owner && u.spec.serviceName == v.spec.serviceName
      && u.spec.containers[1..] == v.spec.containers[1..]
      && u.spec.containers[0].name == v.spec.containers[0].name
      && u.spec.containers[0].postStart == v.spec.containers[0].postStart
      && u.spec.claims[0].name == v.spec.claims[0].name
      && forall key :: key != SECRETS_HASH ==> u.Annotation(key) == v.Annotation(key)
  {
  }

  /** Two sets that differ only in resources other than CPU and memory are equally settled: such a
      difference is never reported on its own. */
  lemma OtherResourcesAreNotTracked(v: SetValue, c: Config, secretsHash: string, requests: Option<ResourceList>)
    requires v.HasShape()
    requires forall r :: r in [CPU, MEMORY] ==> AmountOf(requests, r) == AmountOf(FirstContainer(v.spec).requests, r)
    ensures
      var w := v.(spec := WithFirstContainer(v.spec, FirstContainer(v.spec).(requests := requests)));
      Settled(w, c, secretsHash) <==> Settled(v, c, secretsHash)
  {
  }

  // ---------------------------------------------------------------------------------------------
  // What is tracked, field by field

  /** The first entry of that name is the given one. */
  ghost predicate Leads(env: seq<EnvVar>, e: EnvVar) {
    exists i :: 0 <= i < |env| && env[i] == e && forall j :: 0 <= j < i ==> env[j].name != e.name
  }

  lemma AgreeingLeads(env: seq<EnvVar>, desired: Desired, n: string)
    requires WellNamed(desired) && Agrees(env, desired) && n in desired
    ensures Leads(env, desired[n])
  {
    var i := FirstNamed(env, n);
    assert Targeted(env, desired, i);
    forall j | 0 <= j < i ensures env[j].name != n {
      assert env[..i][j] == env[j];
    }
  }

  lemma LeadingIsTargeted(env: seq<EnvVar>, desired: Desired, i: nat)
    requires WellNamed(desired) && i < |env| && Targeted(env, desired, i) && Leads(env, desired[env[i].name])
    ensures env[i] == desired[env[i].name]
  {
    var n := env[i].name;
    var k :| 0 <= k < |env| && env[k] == desired[n] && forall j :: 0 <= j < k ==> env[j].name != desired[n].name;
    assert forall j :: 0 <= j < i ==> env[..i][j] == env[j];
  }

  lemma AgreesIff(env: seq<EnvVar>, desired: Desired)
    requires WellNamed(desired)
    ensures Agrees(env, desired) <==> forall n :: n in desired ==> Leads(env, desired[n])
  {
    if Agrees(env, desired) {
      forall n | n in desired ensures Leads(env, desired[n]) { AgreeingLeads(env, desired, n); }
    } else if forall n :: n in desired ==> Leads(env, desired[n]) {
      forall i | 0 <= i < |env| && Targeted(env, desired, i) ensures env[i] == desired[env[i].name] {
        LeadingIsTargeted(env, desired, i);
      }
      forall n | n in desired ensures Names(env, n) { assert Leads(env, desired[n]); }
    }
  }

  lemma {:induction false} FirstNamed(env: seq<EnvVar>, n: string) returns (i: nat)
    requires Names(env, n)
    ensures i < |env| && env[i].name == n && !Names(env[..i], n)
  {
    i :| 0 <= i < |env| && env[i].name == n;
    if Names(env[..i], n) {
      var k := FirstNamed(env[..i], n);
      i := k;
      assert env[..|env|] == env;
    }
  }

  /** A set needs no update, so that the update path answers nil, exactly if it agrees with the configuration on
      every one of these fields; a difference in any single one makes it answer with an update. */
  lemma SettledIff(v: SetValue, c: Config, secretsHash: string)
    requires v.HasShape()
    ensures
      var k, t, spec := v.spec.containers[0], v.spec.claims[0].spec, v.spec;
      Settled(v, c, secretsHash) <==>
      && v.name == c.name && v.namespace == c.namespace
      && (if v.annotations.Some? && "runner-secrets-hash" in v.annotations.value
          then v.annotations.value["runner-secrets-hash"] else "") == secretsHash
      && k.image == c.image
      && (forall n :: n in DesiredEnv(c) ==> Leads(k.env, DesiredEnv(c)[n]))
      && spec.volumes == Some(Volumes(c)) && k.volumeMounts == Some(Mounts(c))
      && (t == c.workVolumeClaimTemplate || t.(volumeMode := Some("Filesystem")) == c.workVolumeClaimTemplate)
      && (if k.requests.Some? && "cpu" in k.requests.value then k.requests.value["cpu"].amount else 0) ==
         (if "cpu" in c.requests then c.requests["cpu"].amount else 0)
      && (if k.requests.Some? && "memory" in k.requests.value then k.requests.value["memory"].amount else 0) ==
         (if "memory" in c.requests then c.requests["memory"].amount else 0)
      && (if k.limits.Some? && "cpu" in k.limits.value then k.limits.value["cpu"].amount else 0) ==
         (if "cpu" in c.limits then c.limits["cpu"].amount else 0)
      && (if k.limits.Some? && "memory" in k.limits.value then k.limits.value["memory"].amount else 0) ==
         (if "memory" in c.limits then c.limits["memory"].amount else 0)
      && spec.templateAnnotations == c.annotations && spec.nodeSelector == c.nodeSelector
      && spec.tolerations == c.tolerations && spec.serviceAccountName == c.serviceAccountName
  {
    AgreesIff(v.spec.containers[0].env, DesiredEnv(c));
  }

  /** What the update writes, field by field: the configuration's own values; the claim template is replaced whole
      unless it differs in its mode only. */
  lemma UpdatedFields(v: SetValue, c: Config, secretsHash: string, order: seq<string>)
    requires v.HasShape() && IsOrder(order, DesiredEnv(c))
    ensures
      var u := Updated(v, c, secretsHash, order);
      var k := u.spec.containers[0];
      && u.name == c.name && u.namespace == c.namespace && u.resourceVersion == v.resourceVersion
      && k.image == c.image && k.requests == Some(c.requests) && k.limits == Some(c.limits)
      && |u.spec.containers| == |v.spec.containers|
      && (forall n :: n in DesiredEnv(c) ==> Leads(k.env, DesiredEnv(c)[n]))
      && u.spec.claims[0].spec == c.workVolumeClaimTemplate && u.spec.claims[0].labels == v.spec.claims[0].labels
      && (u.spec.claims[1..] == [] || u.spec.claims[1..] == v.spec.claims[1..])
  {
    MergedAgrees(FirstContainer(v.spec).env, DesiredEnv(c), order);
    AgreesIff(Merged(FirstContainer(v.spec).env, DesiredEnv(c), order), DesiredEnv(c));
  }
}
