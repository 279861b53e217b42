/** The Kubernetes values the operator reads and writes, and the ScaledActionRunner after Setup
    (operator/api/v1alpha1/scaledactionrunner_types.go). None stands for a nil pointer, map or slice. */
module KubeTypes {
  import opened Wrappers

  datatype Key = Key(namespace: string, name: string)

  type StringMap = map<string, string>

  /** Equal compares amounts only; reflect.DeepEqual also sees how the quantity was written. */
  datatype Quantity = Quantity(amount: int, format: string)

  type ResourceList = map<string, Quantity>

  datatype EnvVar = EnvVar(name: string, value: string, fieldPath: Option<string>)

  datatype Volume =
    | HostPathVolume(name: string, path: string, hostPathType: string)
    | SecretVolume(name: string, secretName: string, defaultMode: int)
    | OtherVolume(name: string, source: string)

  datatype VolumeMount = VolumeMount(name: string, mountPath: string, readOnly: bool)

  datatype Toleration = Toleration(key: string, operator: string, value: string, effect: string)

  datatype Container = Container(
    name: string, image: string, env: seq<EnvVar>, volumeMounts: Option<seq<VolumeMount>>,
    requests: Option<ResourceList>, limits: Option<ResourceList>, postStart: seq<string>)

  datatype Requirement = Requirement(key: string, operator: string, values: Option<seq<string>>)

  datatype LabelSelector = LabelSelector(matchLabels: Option<StringMap>, matchExpressions: Option<seq<Requirement>>)

  datatype ClaimSpec = ClaimSpec(
    accessModes: Option<seq<string>>, selector: Option<LabelSelector>,
    limits: Option<ResourceList>, requests: Option<ResourceList>,
    volumeName: string, storageClass: Option<string>, volumeMode: Option<string>, dataSource: Option<string>)

  datatype Claim = Claim(name: string, labels: StringMap, spec: ClaimSpec, phase: string)

  /** A StatefulSet's spec, its pod template's metadata and pod spec flattened into it. */
  datatype SetSpec = SetSpec(
    replicas: int, selector: StringMap, templateLabels: StringMap, templateAnnotations: Option<StringMap>,
    serviceAccountName: string, nodeSelector: Option<StringMap>, tolerations: Option<seq<Toleration>>,
    volumes: Option<seq<Volume>>, containers: seq<Container>, claims: seq<Claim>, serviceName: string)

  datatype SetValue = SetValue(
    name: string, namespace: string, labels: StringMap, annotations: Option<StringMap>,
    owner: Option<string>, resourceVersion: string, spec: SetSpec)
  {
    /** The code indexes the first container and the first claim template unconditionally. */
    predicate HasShape() {
      spec.containers != [] && spec.claims != []
    }

    /** Reading a key of a nil map gives the empty string. */
    function Annotation(key: string): string {
      if annotations.Some? && key in annotations.value then annotations.value[key] else ""
    }
  }

  datatype ScalingPolicy = ScalingPolicy(kind: string, value: int, periodSeconds: int)

  datatype ScalingRules = ScalingRules(
    stabilizationWindow: Option<int>, selectPolicy: Option<string>, policies: Option<seq<ScalingPolicy>>)

  datatype Behavior = Behavior(scaleUp: Option<ScalingRules>, scaleDown: Option<ScalingRules>)

  datatype ScalingSpec = ScalingSpec(
    behavior: Option<Behavior>, pollingInterval: Option<int>, cooldownPeriod: Option<int>)

  /** The fields of a ScaledActionRunner that Setup leaves non-nil. */
  datatype Config = Config(
    name: string, namespace: string, maxRunners: int, minRunners: int,
    runnerSecrets: seq<string>, githubTokenSecret: string, owner: string, repo: string,
    scaling: Option<ScalingSpec>,
    image: string, runnerLabels: string, annotations: Option<StringMap>, nodeSelector: Option<StringMap>,
    env: seq<EnvVar>, workVolumeClaimTemplate: ClaimSpec, limits: ResourceList, requests: ResourceList,
    tolerations: Option<seq<Toleration>>, serviceAccountName: string, mountDockerSock: bool, patch: string)

  /** The custom resource as an object: generating a StatefulSet writes into its label map. */
  class ScaledActionRunner {
    const config: Config
    var labels: Option<StringMap>

    constructor (config: Config, labels: Option<StringMap>)
      ensures this.config == config && this.labels == labels
    {
      this.config, this.labels := config, labels;
    }
  }

  class StatefulSet {
    var name: string
    var namespace: string
    var labels: StringMap
    var annotations: Option<StringMap>
    var owner: Option<string>
    var resourceVersion: string
    var spec: SetSpec

    constructor (v: SetValue)
      ensures Value() == v
    {
      name, namespace, labels, annotations := v.name, v.namespace, v.labels, v.annotations;
      owner, resourceVersion, spec := v.owner, v.resourceVersion, v.spec;
    }

    function Value(): SetValue
      reads this
    {
      SetValue(name, namespace, labels, annotations, owner, resourceVersion, spec)
    }

    method DeepCopy() returns (copy: StatefulSet)
      ensures fresh(copy) && copy.Value() == Value()
    {
      copy := new StatefulSet(Value());
    }
  }

  function FirstContainer(s: SetSpec): Container
    requires s.containers != []
  {
    s.containers[0]
  }

  function WithFirstContainer(s: SetSpec, c: Container): SetSpec
    requires s.containers != []
  {
    s.(containers := s.containers[0 := c])
  }
}
