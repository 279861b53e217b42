/** The ScaledObject of a ScaledActionRunner: generation (operator/sargenerator/sargenerator.go) and
    assignment (operator/controllers/scaledactionrunner_controller.go). Trigger metadata is a Go map,
    shared by reference: two trigger values may hold the same map object. */
module ScaledObjects {
  import opened Wrappers
  import opened KubeTypes

  datatype ScaleTarget = ScaleTarget(name: string, apiVersion: string, kind: string)

  datatype AuthRef = AuthRef(name: string, kind: string)

  datatype Advanced = Advanced(behavior: Option<Behavior>, restoreToOriginalReplicaCount: bool)

  class Metadata {
    var data: StringMap

    constructor (data: StringMap)
      ensures this.data == data
    {
      this.data := data;
    }
  }

  /** A trigger as held in memory, and its value. */
  datatype Trigger = Trigger(kind: string, auth: Option<AuthRef>, metadata: Metadata?)
  datatype TriggerValue = TriggerValue(kind: string, auth: Option<AuthRef>, metadata: Option<StringMap>)

  datatype ScaleSpec<T> = ScaleSpec(
    scaleTarget: Option<ScaleTarget>, minReplicas: Option<int>, maxReplicas: Option<int>, triggers: seq<T>,
    cooldownPeriod: Option<int>, pollingInterval: Option<int>, advanced: Option<Advanced>)

  type SpecValue = ScaleSpec<TriggerValue>

  datatype ObjectValue = ObjectValue(
    name: string, namespace: string, labels: Option<StringMap>, owner: Option<string>, resourceVersion: string,
    spec: SpecValue)
  {
    predicate HasMetadata() {
      Writable(spec)
    }
  }

  /** Writing the url into the first trigger needs its metadata map to exist. */
  predicate Writable(s: SpecValue) {
    s.scaleTarget.Some? && s.triggers != [] ==> s.triggers[0].metadata.Some?
  }

  ghost function Maps(triggers: seq<Trigger>): set<Metadata> {
    set t | t in triggers && t.metadata != null :: t.metadata
  }

  function TriggerOf(t: Trigger): TriggerValue
    reads t.metadata
  {
    TriggerValue(t.kind, t.auth, if t.metadata == null then None else Some(t.metadata.data))
  }

  function TriggersOf(triggers: seq<Trigger>): seq<TriggerValue>
    reads Maps(triggers)
  {
    seq(|triggers|, i requires 0 <= i < |triggers| reads Maps(triggers) => TriggerOf(triggers[i]))
  }

  function SpecOf(s: ScaleSpec<Trigger>): SpecValue
    reads Maps(s.triggers)
  {
    ScaleSpec(s.scaleTarget, s.minReplicas, s.maxReplicas, TriggersOf(s.triggers), s.cooldownPeriod,
        s.pollingInterval, s.advanced)
  }

  class ScaledObject {
    var name: string
    var namespace: string
    var labels: Option<StringMap>
    var owner: Option<string>
    var resourceVersion: string
    var spec: ScaleSpec<Trigger>

    constructor (v: ObjectValue, spec: ScaleSpec<Trigger>)
      requires SpecOf(spec) == v.spec
      ensures Value() == v && this.spec == spec
    {
      name, namespace, labels, owner := v.name, v.namespace, v.labels, v.owner;
      resourceVersion, this.spec := v.resourceVersion, spec;
    }

    function Value(): ObjectValue
      reads this, Maps(spec.triggers)
    {
      ObjectValue(name, namespace, labels, owner, resourceVersion, SpecOf(spec))
    }

    method DeepCopy() returns (copy: ScaledObject)
      ensures fresh(copy) && fresh(Maps(copy.spec.triggers)) && copy.Value() == Value()
    {
      copy := LoadScaledObject(Value());
    }
  }

  /** No two triggers share a metadata map. */
  ghost predicate Unshared(triggers: seq<Trigger>) {
    forall i, j :: 0 <= i < j < |triggers| && triggers[i].metadata != null ==>
      triggers[i].metadata != triggers[j].metadata
  }

  /** An unmarshalled or deep-copied spec has maps of its own. */
  method LoadTriggers(values: seq<TriggerValue>) returns (triggers: seq<Trigger>)
    ensures TriggersOf(triggers) == values && Unshared(triggers) && fresh(Maps(triggers))
  {
    triggers := [];
    for i := 0 to |values|
      invariant |triggers| == i && Unshared(triggers) && fresh(Maps(triggers))
      invariant forall j :: 0 <= j < i ==> TriggerOf(triggers[j]) == values[j]
    {
      var metadata: Metadata? := null;
      if values[i].metadata.Some? {
        metadata := new Metadata(values[i].metadata.value);
      }
      assert forall j :: 0 <= j < i && triggers[j].metadata != null ==> triggers[j].metadata in Maps(triggers);
      triggers := triggers + [Trigger(values[i].kind, values[i].auth, metadata)];
    }
  }

  method LoadSpec(v: SpecValue) returns (s: ScaleSpec<Trigger>)
    ensures SpecOf(s) == v && Unshared(s.triggers) && fresh(Maps(s.triggers))
  {
    var triggers := LoadTriggers(v.triggers);
    s := ScaleSpec(v.scaleTarget, v.minReplicas, v.maxReplicas, triggers, v.cooldownPeriod, v.pollingInterval,
        v.advanced);
  }

  method LoadScaledObject(v: ObjectValue) returns (so: ScaledObject)
    ensures fresh(so) && fresh(Maps(so.spec.triggers)) && so.Value() == v
  {
    var spec := LoadSpec(v.spec);
    so := new ScaledObject(v, spec);
  }

  // ---------------------------------------------------------------------------------------------
  // Values

  const URL: string := "url"

  function GeneratedTrigger(url: string, clusterTriggerName: string): TriggerValue {
    TriggerValue("metrics-api", Some(AuthRef(clusterTriggerName, "ClusterTriggerAuthentication")),
      Some(map["targetValue" := "1", "valueLocation" := "items.0.value", "authMode" := "tls"][URL := url]))
  }

  function GeneratedSpec(c: Config, url: string, clusterTriggerName: string): SpecValue {
    ScaleSpec(Some(ScaleTarget(c.name, "apps/v1", "StatefulSet")), Some(c.minRunners), Some(c.maxRunners),
      [GeneratedTrigger(url, clusterTriggerName)],
      if c.scaling.Some? then c.scaling.value.cooldownPeriod else None,
      if c.scaling.Some? then c.scaling.value.pollingInterval else None,
      if c.scaling.Some? && c.scaling.value.behavior.Some? then Some(Advanced(c.scaling.value.behavior, false))
          else None)
  }

  function GeneratedObject(c: Config, labels: Option<StringMap>, url: string, clusterTriggerName: string): ObjectValue {
    ObjectValue(c.name, c.namespace, Some(labels.GetOr(map[])), None, "", GeneratedSpec(c, url, clusterTriggerName))
  }

  function WithUrl(t: TriggerValue, url: string): TriggerValue
    requires t.metadata.Some?
  {
    t.(metadata := Some(t.metadata.value[URL := url]))
  }

  /** Everything but the trigger: the scaling settings and the bounds. */
  function WithScaling<T>(s: ScaleSpec<T>, c: Config): ScaleSpec<T> {
    var s' := s.(minReplicas := Some(c.minRunners), maxReplicas := Some(c.maxRunners));
    if c.scaling.None? then s'
    else
      s'.(cooldownPeriod := c.scaling.value.cooldownPeriod, pollingInterval := c.scaling.value.pollingInterval,
          advanced := if c.scaling.value.behavior.Some? then Some(Advanced(c.scaling.value.behavior, false))
              else s.advanced)
  }

  /** What the assignment makes of a spec. */
  function AssignedSpec(s: SpecValue, c: Config, url: string, clusterTriggerName: string): SpecValue
    requires Writable(s)
  {
    if s.scaleTarget.None? || s.triggers == [] then GeneratedSpec(c, url, clusterTriggerName)
    else
      WithScaling(s, c).(scaleTarget := Some(s.scaleTarget.value.(name := c.name)),
                         triggers := s.triggers[0 := WithUrl(s.triggers[0], url)])
  }

  function Assigned(v: ObjectValue, c: Config, url: string, clusterTriggerName: string): ObjectValue
    requires v.HasMetadata()
  {
    v.(name := c.name, namespace := c.namespace, spec := AssignedSpec(v.spec, c, url, clusterTriggerName))
  }

  // ---------------------------------------------------------------------------------------------
  // The operations

  method GenerateScaledObject(r: ScaledActionRunner, url: string, clusterTriggerName: string) returns (so: ScaledObject)
    ensures fresh(so) && fresh(Maps(so.spec.triggers))
    ensures so.Value() == GeneratedObject(r.config, r.labels, url, clusterTriggerName)
  {
    so := LoadScaledObject(GeneratedObject(r.config, r.labels, url, clusterTriggerName));
  }

  /** Writes the url into the first trigger's own map, through the reference. */
  method SetUrl(s: ScaleSpec<Trigger>, url: string)
    requires s.triggers != [] && s.triggers[0].metadata != null && Unshared(s.triggers) && url != ""
    modifies s.triggers[0].metadata
    ensures
      var was := old(SpecOf(s));
      SpecOf(s) == was.(triggers := was.triggers[0 := WithUrl(was.triggers[0], url)])
  {
    ghost var before := TriggersOf(s.triggers);
    var metadata := s.triggers[0].metadata;
    var current := if URL in metadata.data then metadata.data[URL] else "";
    if url != current {
      metadata.data := metadata.data[URL := url];
    }
    assert metadata.data == before[0].metadata.value[URL := url];
    forall i | 0 < i < |s.triggers| ensures TriggerOf(s.triggers[i]) == before[i] {
      assert s.triggers[i].metadata != metadata;
    }
    assert TriggersOf(s.triggers) == before[0 := WithUrl(before[0], url)];
  }

  /** The spec to compare with: a deep copy of the found one, with the runner's properties assigned. */
  method AssignToCopy(found: SpecValue, r: ScaledActionRunner, url: string, clusterTriggerName: string)
    returns (spec: ScaleSpec<Trigger>)
    requires Writable(found) && url != ""
    ensures fresh(Maps(spec.triggers)) && SpecOf(spec) == AssignedSpec(found, r.config, url, clusterTriggerName)
  {
    var c := r.config;
    spec := LoadSpec(found);
    spec := WithScaling(spec, c);
    if spec.scaleTarget.None? || spec.triggers == [] {
      var so := GenerateScaledObject(r, url, clusterTriggerName);
      spec := so.spec;
    } else {
      if spec.scaleTarget.value.name != c.name {
        spec := spec.(scaleTarget := Some(spec.scaleTarget.value.(name := c.name)));
      }
      assert TriggersOf(spec.triggers)[0] == found.triggers[0] && spec.triggers[0].metadata in Maps(spec.triggers);
      SetUrl(spec, url);
    }
  }

  /** True exactly when the object changed. Only the object itself is written, never a map it shares:
      the spec is copied deeply before its first trigger's metadata is assigned through. */
  method AssignScaledObjectPropsFromRunner(found: ScaledObject, r: ScaledActionRunner, url: string,
      clusterTriggerName: string)
    returns (updated: bool)
    requires found.Value().HasMetadata() && url != ""
    modifies found
    ensures found.Value() == Assigned(old(found.Value()), r.config, url, clusterTriggerName)
    ensures updated <==> found.Value() != old(found.Value())
    ensures found.spec == old(found.spec) || fresh(Maps(found.spec.triggers))
  {
    ghost var before := found.Value();
    var renamed := AssignName(found, r.config);
    var spec := AssignToCopy(SpecOf(found.spec), r, url, clusterTriggerName);
    assert SpecOf(found.spec) == before.spec;
    var changed := SpecOf(spec) != SpecOf(found.spec);
    if changed {
      found.spec := spec;
    }
    assert SpecOf(found.spec) == AssignedSpec(before.spec, r.config, url, clusterTriggerName);
    return renamed || changed;
  }

  method AssignName(found: ScaledObject, c: Config) returns (updated: bool)
    modifies found`name, found`namespace
    ensures found.name == c.name && found.namespace == c.namespace
    ensures updated <==> old(found.name) != c.name || old(found.namespace) != c.namespace
  {
    updated := false;
    if found.name != c.name {
      found.name := c.name;
      updated := true;
    }
    if found.namespace != c.namespace {
      found.namespace := c.namespace;
      updated := true;
    }
  }

  /** A second assignment changes nothing. */
  lemma AssignIsIdempotent(v: ObjectValue, c: Config, url: string, clusterTriggerName: string)
    requires v.HasMetadata()
    ensures
      var w := Assigned(v, c, url, clusterTriggerName);
      w.HasMetadata() && Assigned(w, c, url, clusterTriggerName) == w
  {
    GeneratedIsAssigned(c, None, url, clusterTriggerName);
    var w := Assigned(v, c, url, clusterTriggerName);
    if v.spec.scaleTarget.Some? && v.spec.triggers != [] {
      WithUrlTwice(v.spec.triggers[0], url);
      assert w.spec.triggers[0 := w.spec.triggers[0]] == w.spec.triggers;
    }
  }

  lemma WithUrlTwice(t: TriggerValue, url: string)
    requires t.metadata.Some?
    ensures WithUrl(WithUrl(t, url), url) == WithUrl(t, url)
  {
    var m := t.metadata.value;
    assert m[URL := url][URL := url] == m[URL := url];
  }

  /** Create and update agree: a fresh object needs no assignment. */
  lemma GeneratedIsAssigned(c: Config, labels: Option<StringMap>, url: string, clusterTriggerName: string)
    ensures
      var g := GeneratedObject(c, labels, url, clusterTriggerName);
      g.HasMetadata() && Assigned(g, c, url, clusterTriggerName) == g
  {
    var m := map["targetValue" := "1", "valueLocation" := "items.0.value", "authMode" := "tls"];
    assert m[URL := url][URL := url] == m[URL := url];
    var g := GeneratedSpec(c, url, clusterTriggerName);
    assert g.triggers[0 := g.triggers[0]] == g.triggers;
  }

  /** What the assignment establishes on any object: the tracked fields are the configuration's. */
  lemma AssignedMatchesConfig(v: ObjectValue, c: Config, url: string, clusterTriggerName: string)
    requires v.HasMetadata()
    ensures
      var s := Assigned(v, c, url, clusterTriggerName).spec;
      && s.minReplicas == Some(c.minRunners) && s.maxReplicas == Some(c.maxRunners)
      && s.scaleTarget.Some? && s.scaleTarget.value.name == c.name
      && s.triggers != [] && s.triggers[0].metadata.Some?
      && URL in s.triggers[0].metadata.value && s.triggers[0].metadata.value[URL] == url
      && (c.scaling.Some? ==>
           && s.cooldownPeriod == c.scaling.value.cooldownPeriod && s.pollingInterval == c.scaling.value.pollingInterval
           && (c.scaling.value.behavior.Some? ==>
                 s.advanced.Some? && s.advanced.value.behavior == c.scaling.value.behavior))
  {
  }

  /** The generated object scales the StatefulSet of its own name between the bounds, by one trigger that reads the url
      with the cluster's credentials. */
  lemma GeneratedObjectFields(c: Config, labels: Option<StringMap>, url: string, clusterTriggerName: string)
    ensures
      var g := GeneratedObject(c, labels, url, clusterTriggerName);
      var t := g.spec.triggers[0];
      && g.name == c.name && g.namespace == c.namespace
      && g.spec.scaleTarget == Some(ScaleTarget(c.name, "apps/v1", "StatefulSet"))
      && g.spec.minReplicas == Some(c.minRunners) && g.spec.maxReplicas == Some(c.maxRunners)
      && |g.spec.triggers| == 1 && t.kind == "metrics-api"
      && t.auth == Some(AuthRef(clusterTriggerName, "ClusterTriggerAuthentication"))
      && t.metadata.Some? && "url" in t.metadata.value && t.metadata.value["url"] == url
      && "targetValue" in t.metadata.value && t.metadata.value["targetValue"] == "1"
      && "valueLocation" in t.metadata.value && t.metadata.value["valueLocation"] == "items.0.value"
      && "authMode" in t.metadata.value && t.metadata.value["authMode"] == "tls"
  {
  }

  /** What the assignment to an object with target and trigger leaves as it was. */
  lemma AssignKeepsTheRest(v: ObjectValue, c: Config, url: string, clusterTriggerName: string)
    requires v.HasMetadata() && v.spec.scaleTarget.Some? && v.spec.triggers != []
    ensures
      var w := Assigned(v, c, url, clusterTriggerName);
      var t, t' := v.spec.triggers[0], w.spec.triggers[0];
      && w.name == c.name && w.namespace == c.namespace
      && w.labels == v.labels && w.owner == v.owner && w.resourceVersion == v.resourceVersion
      && w.spec.scaleTarget.value.apiVersion == v.spec.scaleTarget.value.apiVersion
      && w.spec.scaleTarget.value.kind == v.spec.scaleTarget.value.kind
      && |w.spec.triggers| == |v.spec.triggers| && w.spec.triggers[1..] == v.spec.triggers[1..]
      && t'.kind == t.kind && t'.auth == t.auth && t'.metadata.value.Keys == t.metadata.value.Keys + {"url"}
      && (forall k :: k in t.metadata.value && k != "url" ==> t'.metadata.value[k] == t.metadata.value[k])
      && (c.scaling.None? ==>
            w.spec.cooldownPeriod == v.spec.cooldownPeriod && w.spec.pollingInterval == v.spec.pollingInterval)
      && (c.scaling.None? || c.scaling.value.behavior.None? ==> w.spec.advanced == v.spec.advanced)
  {
  }
}
