/** operator/sargenerator/sargenerator.go: the StatefulSet generated for a ScaledActionRunner, and its patch. */
module SarGenerator {
  import opened Wrappers
  import opened KubeTypes
  import opened EnvVars
  import opened Strings

  const SECRETS_HASH: string := "runner-secrets-hash"
  const PATCH_HASH: string := "patch-hash"
  const FILESYSTEM: string := "Filesystem"
  const CREDS: string := "/actions-creds/"
  const POST_START: seq<string> := ["/bin/bash", "-c", "HOST=$(hostname); cp /actions-creds/$HOST/.runner /actions-creds/$HOST/.credentials /actions-creds/$HOST/.credentials_rsaparams /actions-runner/ -vfL"]

  // ---------------------------------------------------------------------------------------------
  // Environment

  function BaseEnv(c: Config): Desired {
    map["REPO_URL" := EnvVar("REPO_URL", "git@github.com:" + c.owner + "/" + c.repo + ".git", None),
        "RUNNER_NAME" := EnvVar("RUNNER_NAME", "", Some("metadata.name")),
        "RUNNER_WORKDIR" := EnvVar("RUNNER_WORKDIR", "/actions-runner/_work", None),
        "DISABLE_AUTOMATIC_DEREGISTRATION" := EnvVar("DISABLE_AUTOMATIC_DEREGISTRATION", "true", None)]
  }

  /** The last entry of a name wins. */
  function WithAll(desired: Desired, env: seq<EnvVar>): (d: Desired)
    ensures WellNamed(desired) ==> WellNamed(d)
  {
    if env == [] then desired
    else WithAll(desired, env[..|env| - 1])[env[|env| - 1].name := env[|env| - 1]]
  }

  function DesiredEnv(c: Config): (d: Desired)
    ensures WellNamed(d)
  {
    var d := WithAll(BaseEnv(c), c.env);
    if c.runnerLabels != "" then d["LABELS" := EnvVar("LABELS", c.runnerLabels, None)] else d
  }

  lemma {:induction false} WithAllIs(desired: Desired, env: seq<EnvVar>, n: string)
    ensures n in WithAll(desired, env) <==> n in desired || Names(env, n)
    ensures !Names(env, n) && n in desired ==> WithAll(desired, env)[n] == desired[n]
  {
    if env != [] {
      var last := |env| - 1;
      WithAllIs(desired, env[..last], n);
      NamesSnoc(env[..last], env[last], n);
      assert env[..last] + [env[last]] == env;
    }
  }

  /** No later entry has the name of this one. */
  ghost predicate LastOf(env: seq<EnvVar>, i: nat)
    requires i < |env|
  {
    forall j :: i < j < |env| ==> env[j].name != env[i].name
  }

  lemma {:induction false} WithAllLast(desired: Desired, env: seq<EnvVar>, i: nat)
    requires i < |env| && LastOf(env, i)
    ensures env[i].name in WithAll(desired, env) && WithAll(desired, env)[env[i].name] == env[i]
  {
    if i < |env| - 1 {
      WithAllLast(desired, env[..|env| - 1], i);
    }
  }

  /** The runner labels come first, then the last configured variable of a name, then the four fixed ones. */
  lemma DesiredVariable(c: Config, n: string)
    ensures n == "LABELS" && c.runnerLabels != "" ==>
              n in DesiredEnv(c) && DesiredEnv(c)[n] == EnvVar("LABELS", c.runnerLabels, None)
    ensures n != "LABELS" || c.runnerLabels == "" ==>
              && (forall i :: 0 <= i < |c.env| && LastOf(c.env, i) && c.env[i].name == n ==>
                    n in DesiredEnv(c) && DesiredEnv(c)[n] == c.env[i])
              && (!Names(c.env, n) ==>
                    (n in DesiredEnv(c) <==>
                       n in ["REPO_URL", "RUNNER_NAME", "RUNNER_WORKDIR", "DISABLE_AUTOMATIC_DEREGISTRATION"]))
  {
    WithAllIs(BaseEnv(c), c.env, n);
    forall i | 0 <= i < |c.env| && LastOf(c.env, i) && c.env[i].name == n
      ensures n in WithAll(BaseEnv(c), c.env) && WithAll(BaseEnv(c), c.env)[n] == c.env[i]
    {
      WithAllLast(BaseEnv(c), c.env, i);
    }
  }

  /** The fixed variables, where the configuration does not name them. */
  lemma FixedVariables(c: Config)
    ensures !Names(c.env, "REPO_URL") ==>
              "REPO_URL" in DesiredEnv(c)
              && DesiredEnv(c)["REPO_URL"].value == "git@github.com:" + c.owner + "/" + c.repo + ".git"
    ensures !Names(c.env, "RUNNER_NAME") ==>
              "RUNNER_NAME" in DesiredEnv(c) && DesiredEnv(c)["RUNNER_NAME"].fieldPath == Some("metadata.name")
    ensures !Names(c.env, "RUNNER_WORKDIR") ==>
              "RUNNER_WORKDIR" in DesiredEnv(c) && DesiredEnv(c)["RUNNER_WORKDIR"].value == Mounts(c)[0].mountPath
    ensures !Names(c.env, "DISABLE_AUTOMATIC_DEREGISTRATION") ==>
              "DISABLE_AUTOMATIC_DEREGISTRATION" in DesiredEnv(c)
              && DesiredEnv(c)["DISABLE_AUTOMATIC_DEREGISTRATION"].value == "true"
  {
    WithAllIs(BaseEnv(c), c.env, "REPO_URL");
    WithAllIs(BaseEnv(c), c.env, "RUNNER_NAME");
    WithAllIs(BaseEnv(c), c.env, "RUNNER_WORKDIR");
    WithAllIs(BaseEnv(c), c.env, "DISABLE_AUTOMATIC_DEREGISTRATION");
  }

  method GetDesiredEnv(c: Config) returns (toSet: Desired)
    ensures toSet == DesiredEnv(c)
  {
    toSet := BaseEnv(c);
    for i := 0 to |c.env|
      invariant toSet == WithAll(BaseEnv(c), c.env[..i])
    {
      assert c.env[..i + 1][..i] == c.env[..i];
      toSet := toSet[c.env[i].name := c.env[i]];
    }
    assert c.env[..|c.env|] == c.env;
    if c.runnerLabels != "" {
      toSet := toSet["LABELS" := EnvVar("LABELS", c.runnerLabels, None)];
    }
  }

  function WithEnv(s: SetSpec, env: seq<EnvVar>): SetSpec
    requires s.containers != []
  {
    WithFirstContainer(s, FirstContainer(s).(env := env))
  }

  lemma WithEnvTwice(s: SetSpec, env: seq<EnvVar>, env': seq<EnvVar>)
    requires s.containers != []
    ensures WithEnv(s, env).containers != [] && FirstContainer(WithEnv(s, env)).env == env
    ensures WithEnv(WithEnv(s, env), env') == WithEnv(s, env')
    ensures WithEnv(s, FirstContainer(s).env) == s
  {
  }

  /** The settings that SetEnvVars copies over besides the environment. */
  function WithSettings(s: SetSpec, c: Config): SetSpec
    requires s.containers != []
  {
    WithFirstContainer(s, FirstContainer(s).(requests := Some(c.requests), limits := Some(c.limits)))
      .(templateAnnotations := c.annotations, nodeSelector := c.nodeSelector, tolerations := c.tolerations)
  }

  /** What is left to set after the first i entries. */
  ghost predicate Remaining(toSet: Desired, desired: Desired, env: seq<EnvVar>) {
    && (forall n :: n in toSet <==> n in desired && !Names(env, n))
    && (forall n :: n in toSet ==> toSet[n] == desired[n])
  }

  lemma RemainingSnoc(toSet: Desired, desired: Desired, env: seq<EnvVar>, e: EnvVar)
    requires Remaining(toSet, desired, env)
    ensures Remaining(toSet - {e.name}, desired, env + [e])
  {
    forall n ensures Names(env + [e], n) <==> Names(env, n) || n == e.name { NamesSnoc(env, e, n); }
  }

  /** The first i entries are done: `current` is the list now. */
  ghost predicate Overwriting(env: seq<EnvVar>, desired: Desired, i: nat, current: seq<EnvVar>, toSet: Desired,
      modified: bool) {
    && i <= |env|
    && current == Overlaid(env, desired)[..i] + env[i..]
    && Remaining(toSet, desired, env[..i])
    && (modified <==> Overlaid(env, desired)[..i] != env[..i])
  }

  lemma OverwriteStart(env: seq<EnvVar>, desired: Desired)
    ensures Overwriting(env, desired, 0, env, desired, false)
  {
  }

  lemma OverwriteDone(env: seq<EnvVar>, desired: Desired, current: seq<EnvVar>, toSet: Desired, modified: bool)
    requires Overwriting(env, desired, |env|, current, toSet, modified)
    ensures current == Overlaid(env, desired) && Remaining(toSet, desired, env)
    ensures modified <==> Overlaid(env, desired) != env
  {
    assert env[..|env|] == env && Overlaid(env, desired)[..|env|] == Overlaid(env, desired);
    assert current == Overlaid(env, desired) + [];
  }

  lemma OverlaidEntry(env: seq<EnvVar>, desired: Desired, i: nat, toSet: Desired)
    requires i < |env| && Remaining(toSet, desired, env[..i])
    ensures Overlaid(env, desired)[i] == if env[i].name in toSet then toSet[env[i].name] else env[i]
  {
  }

  /** Writing entry i of a list that is done up to i. */
  lemma OverwriteAt(env: seq<EnvVar>, o: seq<EnvVar>, i: nat)
    requires i < |env| == |o|
    ensures
      var current := o[..i] + env[i..];
      && current[i := o[i]] == o[..i + 1] + env[i + 1..]
      && (o[i] == env[i] ==> current == o[..i + 1] + env[i + 1..])
      && (o[..i + 1] != env[..i + 1] <==> o[..i] != env[..i] || o[i] != env[i])
  {
  }

  lemma OverwriteStep(env: seq<EnvVar>, desired: Desired, i: nat, current: seq<EnvVar>, toSet: Desired, modified: bool)
    requires i < |env| && Overwriting(env, desired, i, current, toSet, modified)
    ensures
      var e := env[i];
      var v := if e.name in toSet then toSet[e.name] else e;
      var current' := if v != e then current[i := v] else current;
      Overwriting(env, desired, i + 1, current', toSet - {e.name}, modified || v != e)
  {
    OverlaidEntry(env, desired, i, toSet);
    OverwriteAt(env, Overlaid(env, desired), i);
    RemainingSnoc(toSet, desired, env[..i], env[i]);
    assert env[..i + 1] == env[..i] + [env[i]];
  }

  method SetEntry(ss: StatefulSet, i: nat, v: EnvVar, ghost spec: SetSpec, ghost env: seq<EnvVar>)
      returns (ghost env': seq<EnvVar>)
    requires spec.containers != [] && ss.spec == WithEnv(spec, env) && i < |env|
    modifies ss`spec
    ensures env' == env[i := v] && ss.spec == WithEnv(spec, env')
  {
    env' := env[i := v];
    WithEnvTwice(spec, env, env');
    ss.spec := WithEnv(ss.spec, FirstContainer(ss.spec).env[i := v]);
  }

  /** One entry: overwrite it if it is wanted with another value, and forget the name. */
  method OverwriteEntry(e: EnvVar, i: nat, desired: Desired, toSet: Desired, modified: bool, ss: StatefulSet,
    ghost spec: SetSpec, ghost env: seq<EnvVar>, ghost current: seq<EnvVar>)
    returns (toSet': Desired, modified': bool, ghost current': seq<EnvVar>)
    requires spec.containers != [] && ss.spec == WithEnv(spec, current)
    requires Overwriting(env, desired, i, current, toSet, modified) && i < |env| && e == env[i]
    modifies ss`spec
    ensures ss.spec == WithEnv(spec, current') && Overwriting(env, desired, i + 1, current', toSet', modified')
  {
    OverwriteStep(env, desired, i, current, toSet, modified);
    modified', current' := modified, current;
    if e.name in toSet {
      if e != toSet[e.name] {
        modified' := true;
        current' := SetEntry(ss, i, toSet[e.name], spec, current);
      }
    }
    toSet' := toSet - {e.name};
  }

  /** The first loop: every entry in turn. */
  method OverwriteEnv(desired: Desired, ss: StatefulSet) returns (toSet: Desired, modified: bool)
    requires ss.spec.containers != []
    modifies ss`spec
    ensures
      var env := FirstContainer(old(ss.spec)).env;
      && ss.spec == WithEnv(old(ss.spec), Overlaid(env, desired))
      && Remaining(toSet, desired, env)
      && (modified <==> Overlaid(env, desired) != env)
  {
    var env := FirstContainer(ss.spec).env;
    ghost var spec, current := ss.spec, env;
    toSet, modified := desired, false;
    OverwriteStart(env, desired);
    WithEnvTwice(spec, env, env);
    for i := 0 to |env|
      invariant ss.spec == WithEnv(spec, current) && Overwriting(env, desired, i, current, toSet, modified)
    {
      toSet, modified, current := OverwriteEntry(env[i], i, desired, toSet, modified, ss, spec, env, current);
    }
    OverwriteDone(env, desired, current, toSet, modified);
  }

  /** The last loop: append what is left, in the order in which the run time iterates the map. */
  method AppendEnv(toSet: Desired, ghost desired: Desired, ghost env: seq<EnvVar>, order: seq<string>, ss: StatefulSet)
    returns (modified: bool)
    requires ss.spec.containers != [] && Remaining(toSet, desired, env) && IsOrder(order, desired)
    modifies ss`spec
    ensures ss.spec == WithEnv(old(ss.spec), FirstContainer(old(ss.spec)).env + Missing(env, desired, order))
    ensures modified <==> Missing(env, desired, order) != []
  {
    ghost var spec, present := ss.spec, FirstContainer(ss.spec).env;
    modified := false;
    assert present + [] == present;
    assert ss.spec == WithEnv(spec, present);
    for k := 0 to |order|
      invariant ss.spec == WithEnv(spec, present + Missing(env, desired, order[..k]))
      invariant modified <==> Missing(env, desired, order[..k]) != []
    {
      assert order[..k + 1][..k] == order[..k];
      var n := order[k];
      ghost var before := Missing(env, desired, order[..k]);
      if n in toSet {
        modified := true;
        ss.spec := WithEnv(ss.spec, FirstContainer(ss.spec).env + [toSet[n]]);
        assert present + (before + [desired[n]]) == (present + before) + [desired[n]];
      } else {
        assert Missing(env, desired, order[..k + 1]) == before;
      }
    }
    assert order[..|order|] == order;
  }

  lemma ModifiedIffDisagrees(env: seq<EnvVar>, desired: Desired, order: seq<string>)
    requires WellNamed(desired) && IsOrder(order, desired)
    ensures (Overlaid(env, desired) != env || Missing(env, desired, order) != []) <==> !Agrees(env, desired)
  {
    UnchangedIffAgrees(env, desired, order);
    assert Overlaid(env, desired) + [] == Overlaid(env, desired);
    assert Merged(env, desired, order)[..|env|] == Overlaid(env, desired);
  }

  /** The in-place merge, and the settings copied over with it. */
  method SetEnvVars(c: Config, ss: StatefulSet, order: seq<string>) returns (modified: bool)
    requires ss.spec.containers != [] && IsOrder(order, DesiredEnv(c))
    modifies ss`spec
    ensures
      var env := FirstContainer(old(ss.spec)).env;
      && ss.spec == WithSettings(WithEnv(old(ss.spec), Merged(env, DesiredEnv(c), order)), c)
      && (modified <==> !Agrees(env, DesiredEnv(c)))
      && (modified <==> FirstContainer(ss.spec).env != env)
  {
    ghost var env := FirstContainer(ss.spec).env;
    var desired := GetDesiredEnv(c);
    var toSet;
    toSet, modified := OverwriteEnv(desired, ss);
    ss.spec := WithSettings(ss.spec, c);
    var appended := AppendEnv(toSet, desired, env, order, ss);
    modified := modified || appended;
    ModifiedIffDisagrees(env, desired, order);
    UnchangedIffAgrees(env, desired, order);
  }

  // ---------------------------------------------------------------------------------------------
  // Volumes

  function RunnerName(c: Config, i: nat): string {
    c.name + "-" + Decimal(i)
  }

  /** How many runners have a secret: min(max(maxRunners, 0), number of secrets). */
  function RunnerCount(c: Config): nat {
    var n := if c.maxRunners < 0 then 0 else c.maxRunners;
    if n < |c.runnerSecrets| then n else |c.runnerSecrets|
  }

  function SecretVolumes(c: Config, n: nat): seq<Volume>
    requires n <= |c.runnerSecrets|
  {
    seq(n, i requires 0 <= i < n => SecretVolume(RunnerName(c, i), c.runnerSecrets[i], 420))
  }

  function SecretMounts(c: Config, n: nat): seq<VolumeMount> {
    seq(n, i requires 0 <= i < n => VolumeMount(RunnerName(c, i), CREDS + RunnerName(c, i), true))
  }

  function Volumes(c: Config): seq<Volume> {
    (if c.mountDockerSock then [HostPathVolume("dockersock", "/var/run/docker.sock", "")] else [])
    + SecretVolumes(c, RunnerCount(c))
  }

  function Mounts(c: Config): seq<VolumeMount> {
    [VolumeMount("workdir", "/actions-runner/_work", false)]
    + (if c.mountDockerSock then [VolumeMount("dockersock", "/var/run/docker.sock", false)] else [])
    + SecretMounts(c, RunnerCount(c))
  }

  method GetVolumes(c: Config) returns (volumes: seq<Volume>, mounts: seq<VolumeMount>)
    ensures volumes == Volumes(c) && mounts == Mounts(c)
  {
    volumes := [];
    if c.mountDockerSock {
      volumes := volumes + [HostPathVolume("dockersock", "/var/run/docker.sock", "")];
    }
    mounts := [VolumeMount("workdir", "/actions-runner/_work", false)];
    if c.mountDockerSock {
      mounts := mounts + [VolumeMount("dockersock", "/var/run/docker.sock", false)];
    }
    ghost var volumes0, mounts0 := volumes, mounts;
    var i := 0;
    while i < c.maxRunners
      invariant 0 <= i <= RunnerCount(c)
      invariant volumes == volumes0 + SecretVolumes(c, i)
      invariant mounts == mounts0 + SecretMounts(c, i)
    {
      var name := RunnerName(c, i);
      if i >= |c.runnerSecrets| {
        break;
      }
      assert SecretVolumes(c, i + 1) == SecretVolumes(c, i) + [SecretVolume(name, c.runnerSecrets[i], 420)];
      assert SecretMounts(c, i + 1) == SecretMounts(c, i) + [VolumeMount(name, CREDS + name, true)];
      volumes := volumes + [SecretVolume(name, c.runnerSecrets[i], 420)];
      mounts := mounts + [VolumeMount(name, CREDS + name, true)];
      i := i + 1;
    }
  }

  lemma RunnerNameInjective(c: Config, i: nat, j: nat)
    requires RunnerName(c, i) == RunnerName(c, j)
    ensures i == j
  {
    assert RunnerName(c, i)[|c.name| + 1..] == Decimal(i);
    assert RunnerName(c, j)[|c.name| + 1..] == Decimal(j);
    DecimalInjective(i, j);
  }

  /** A runner's name has a dash. */
  lemma RunnerIsNotDockerSock(c: Config, i: nat)
    ensures RunnerName(c, i) != "dockersock"
  {
    assert RunnerName(c, i)[|c.name|] == '-';
  }

  lemma CredsPathInjective(c: Config, i: nat, j: nat)
    requires CREDS + RunnerName(c, i) == CREDS + RunnerName(c, j)
    ensures i == j
  {
    assert (CREDS + RunnerName(c, i))[|CREDS|..] == RunnerName(c, i);
    assert (CREDS + RunnerName(c, j))[|CREDS|..] == RunnerName(c, j);
    RunnerNameInjective(c, i, j);
  }

  lemma VolumeNamesDistinct(c: Config, i: nat, j: nat)
    requires i < j < |Volumes(c)|
    ensures Volumes(c)[i].name != Volumes(c)[j].name
  {
    var d := if c.mountDockerSock then 1 else 0;
    assert Volumes(c)[j].name == RunnerName(c, j - d);
    if i < d {
      RunnerIsNotDockerSock(c, j - d);
    } else if Volumes(c)[i].name == Volumes(c)[j].name {
      RunnerNameInjective(c, i - d, j - d);
    }
  }

  lemma MountPathsDistinct(c: Config, i: nat, j: nat)
    requires i < j < |Mounts(c)|
    ensures Mounts(c)[i].mountPath != Mounts(c)[j].mountPath
  {
    var d := if c.mountDockerSock then 2 else 1;
    if j >= d {
      assert Mounts(c)[j].mountPath[9] == 'c';
      if i >= d && Mounts(c)[i].mountPath == Mounts(c)[j].mountPath {
        CredsPathInjective(c, i - d, j - d);
      }
    }
  }

  lemma MountNamesVolume(c: Config, i: nat) returns (k: nat)
    requires 0 < i < |Mounts(c)|
    ensures k < |Volumes(c)| && Volumes(c)[k].name == Mounts(c)[i].name
  {
    k := i - 1;
  }

  function FindMount(mounts: seq<VolumeMount>, path: string): Option<VolumeMount> {
    if mounts == [] then None
    else if mounts[0].mountPath == path then Some(mounts[0])
    else FindMount(mounts[1..], path)
  }

  function FindVolume(volumes: seq<Volume>, name: string): Option<Volume> {
    if volumes == [] then None
    else if volumes[0].name == name then Some(volumes[0])
    else FindVolume(volumes[1..], name)
  }

  lemma {:induction false} FindMountAt(mounts: seq<VolumeMount>, i: nat)
    requires i < |mounts|
    requires forall j :: 0 <= j < i ==> mounts[j].mountPath != mounts[i].mountPath
    ensures FindMount(mounts, mounts[i].mountPath) == Some(mounts[i])
  {
    if i > 0 {
      FindMountAt(mounts[1..], i - 1);
    }
  }

  lemma {:induction false} FindVolumeAt(volumes: seq<Volume>, i: nat)
    requires i < |volumes|
    requires forall j :: 0 <= j < i ==> volumes[j].name != volumes[i].name
    ensures FindVolume(volumes, volumes[i].name) == Some(volumes[i])
  {
    if i > 0 {
      FindVolumeAt(volumes[1..], i - 1);
    }
  }

  /** The volume a pod of that hostname finds its credentials in, as the post-start hook looks them up. */
  function CredentialsOf(c: Config, hostname: string): Option<Volume> {
    match FindMount(Mounts(c), "/actions-creds/" + hostname)
    case None => None
    case Some(m) => FindVolume(Volumes(c), m.name)
  }

  lemma MountOfRunner(c: Config, i: nat)
    requires i < RunnerCount(c)
    ensures FindMount(Mounts(c), CREDS + RunnerName(c, i)) ==
        Some(VolumeMount(RunnerName(c, i), CREDS + RunnerName(c, i), true))
  {
    var m := (if c.mountDockerSock then 2 else 1) + i;
    forall j | 0 <= j < m ensures Mounts(c)[j].mountPath != Mounts(c)[m].mountPath { MountPathsDistinct(c, j, m); }
    FindMountAt(Mounts(c), m);
  }

  lemma VolumeOfRunner(c: Config, i: nat)
    requires i < RunnerCount(c)
    ensures FindVolume(Volumes(c), RunnerName(c, i)) == Some(SecretVolume(RunnerName(c, i), c.runnerSecrets[i], 420))
  {
    var v := (if c.mountDockerSock then 1 else 0) + i;
    forall j | 0 <= j < v ensures Volumes(c)[j].name != Volumes(c)[v].name { VolumeNamesDistinct(c, j, v); }
    FindVolumeAt(Volumes(c), v);
  }

  /** Pod name-i finds exactly runnerSecrets[i] behind the path that its start hook reads, for every runner below
      maxRunners that has a secret; no other pod of the set finds anything. */
  lemma PodFindsItsSecret(c: Config, i: nat)
    ensures
      var hostname := c.name + "-" + Decimal(i);
      CredentialsOf(c, hostname) ==
      if i < c.maxRunners && i < |c.runnerSecrets| then Some(SecretVolume(hostname, c.runnerSecrets[i], 420)) else None
  {
    if i < RunnerCount(c) {
      MountOfRunner(c, i);
      VolumeOfRunner(c, i);
    } else {
      forall j | 0 <= j < |Mounts(c)| ensures Mounts(c)[j].mountPath != CREDS + RunnerName(c, i) {
        NoMountOfOther(c, i, j);
      }
      FindNoMount(Mounts(c), CREDS + RunnerName(c, i));
    }
  }

  lemma NoMountOfOther(c: Config, i: nat, j: nat)
    requires i >= RunnerCount(c) && j < |Mounts(c)|
    ensures Mounts(c)[j].mountPath != CREDS + RunnerName(c, i)
  {
    var d := if c.mountDockerSock then 2 else 1;
    assert (CREDS + RunnerName(c, i))[9] == 'c';
    if j >= d && Mounts(c)[j].mountPath == CREDS + RunnerName(c, i) {
      CredsPathInjective(c, i, j - d);
    }
  }

  lemma {:induction false} FindNoMount(mounts: seq<VolumeMount>, path: string)
    requires forall j :: 0 <= j < |mounts| ==> mounts[j].mountPath != path
    ensures FindMount(mounts, path) == None
  {
    if mounts != [] {
      FindNoMount(mounts[1..], path);
    }
  }

  /** The docker socket is mounted at its own path from the host exactly if it is asked for, the work directory
      always. */
  lemma FixedMounts(c: Config)
    ensures Mounts(c)[0] == VolumeMount("workdir", "/actions-runner/_work", false)
    ensures VolumeMount("dockersock", "/var/run/docker.sock", false) in Mounts(c) <==> c.mountDockerSock
    ensures HostPathVolume("dockersock", "/var/run/docker.sock", "") in Volumes(c) <==> c.mountDockerSock
  {
    if c.mountDockerSock {
      assert Mounts(c)[1] == VolumeMount("dockersock", "/var/run/docker.sock", false);
      assert Volumes(c)[0] == HostPathVolume("dockersock", "/var/run/docker.sock", "");
    }
  }

  // ---------------------------------------------------------------------------------------------
  // The StatefulSet

  function AppLabels(labels: Option<StringMap>): StringMap {
    labels.GetOr(map[])["app" := "action-runner"]
  }

  /** The generated StatefulSet. */
  function Generated(c: Config, labels: Option<StringMap>, secretsHash: string, order: seq<string>): SetValue {
    var ls := AppLabels(labels);
    SetValue(c.name, c.namespace, ls, Some(map[SECRETS_HASH := secretsHash]), None, "",
      SetSpec(c.minRunners, ls, ls, c.annotations, c.serviceAccountName, c.nodeSelector, c.tolerations,
          Some(Volumes(c)),
        [Container("runner", c.image, Merged([], DesiredEnv(c), order), Some(Mounts(c)), Some(c.requests),
                   Some(c.limits), POST_START)],
        [Claim("workdir", map[], c.workVolumeClaimTemplate, "")], ""))
  }

  /** The generated set, field by field: it selects its own pods, labelled as the resource is and as an action runner,
      starts with the minimum, and carries the secrets hash. */
  lemma GeneratedFields(c: Config, labels: Option<StringMap>, secretsHash: string, order: seq<string>)
    ensures
      var v := Generated(c, labels, secretsHash, order);
      var k := v.spec.containers[0];
      && v.name == c.name && v.namespace == c.namespace && v.spec.replicas == c.minRunners
      && v.annotations == Some(map["runner-secrets-hash" := secretsHash])
      && v.spec.selector == v.spec.templateLabels == v.labels
      && "app" in v.labels && v.labels["app"] == "action-runner"
      && (forall l :: labels.Some? && l in labels.value && l != "app" ==>
            l in v.labels && v.labels[l] == labels.value[l])
      && (forall l :: l in v.labels && l != "app" ==> labels.Some? && l in labels.value)
      && |v.spec.containers| == 1 && k.name == "runner" && k.image == c.image
      && k.requests == Some(c.requests) && k.limits == Some(c.limits)
      && v.spec.serviceAccountName == c.serviceAccountName && v.spec.templateAnnotations == c.annotations
      && v.spec.nodeSelector == c.nodeSelector && v.spec.tolerations == c.tolerations
      && |v.spec.claims| == 1 && v.spec.claims[0].name == Mounts(c)[0].name
      && v.spec.claims[0].spec == c.workVolumeClaimTemplate
  {
  }

  /** A label map that is not nil is shared with the custom resource, so "app" is written there too. */
  method GenerateStatefulSet(r: ScaledActionRunner, secretsHash: string, order: seq<string>) returns (ss: StatefulSet)
    requires IsOrder(order, DesiredEnv(r.config))
    modifies r`labels
    ensures fresh(ss) && ss.Value() == Generated(r.config, old(r.labels), secretsHash, order)
    ensures r.labels == if old(r.labels).None? then None else Some(AppLabels(old(r.labels)))
  {
    var c := r.config;
    var ls := AppLabels(r.labels);
    if r.labels.Some? {
      r.labels := Some(ls);
    }
    var container := Container("runner", c.image, [], Some([]), None, None, POST_START);
    var spec := SetSpec(c.minRunners, ls, ls, None, c.serviceAccountName, None, None, Some([]),
                        [container], [Claim("workdir", map[], c.workVolumeClaimTemplate, "")], "");
    ss := new StatefulSet(SetValue(c.name, c.namespace, ls, Some(map[SECRETS_HASH := secretsHash]), None, "", spec));
    var _ := SetEnvVars(c, ss, order);
    var volumes, mounts := GetVolumes(c);
    ss.spec := ss.spec.(volumes := Some(volumes));
    ss.spec := WithFirstContainer(ss.spec, FirstContainer(ss.spec).(volumeMounts := Some(mounts)));
  }

  // ---------------------------------------------------------------------------------------------
  // The user's patch

  predicate SameUpToReplicas(s: SetSpec, t: SetSpec) {
    s.(replicas := t.replicas) == t
  }

  /** `apply` decodes the patch and applies it to a spec (RFC 6902), None on any error; `hash` is the digest of
      a spec with its replicas fixed. Nothing is assumed about collisions. */
  datatype Patcher = Patcher(apply: SetSpec -> Option<SetSpec>, hash: SetSpec -> string)
  {
    ghost predicate Valid() {
      && (forall s :: hash(s) != "")
      && (forall s, t :: SameUpToReplicas(s, t) ==> hash(s) == hash(t))
    }
  }

  datatype PatchOutcome = PatchFailed | NotPatched(hash: string) | PatchedTo(v: SetValue, hash: string)

  function WithAnnotation(v: SetValue, key: string, value: string): SetValue {
    v.(annotations := Some(v.annotations.GetOr(map[])[key := value]))
  }

  function Patched(v: SetValue, c: Config, p: Patcher): PatchOutcome {
    if c.patch == "" then NotPatched("")
    else
      match p.apply(v.spec)
      case None => PatchFailed
      case Some(spec) =>
        if v.Annotation(PATCH_HASH) != p.hash(spec) then
          PatchedTo(WithAnnotation(v, PATCH_HASH, p.hash(spec)).(spec := spec), p.hash(spec))
        else NotPatched(p.hash(spec))
  }

  /** Writes into the copy's annotation map, which must not be nil. */
  method PatchStatefulSet(ss: StatefulSet, c: Config, p: Patcher)
      returns (patched: StatefulSet?, hash: string, failed: bool)
    requires c.patch != "" ==> ss.annotations.Some?
    ensures patched != null ==> fresh(patched)
    ensures
      match Patched(ss.Value(), c, p)
      case PatchFailed => failed && patched == null
      case NotPatched(h) => !failed && patched == null && hash == h
      case PatchedTo(v, h) => !failed && patched != null && hash == h && patched.Value() == v
  {
    patched, hash, failed := null, "", false;
    if c.patch == "" {
      return;
    }
    var spec := p.apply(ss.spec);
    if spec.None? {
      failed := true;
      return;
    }
    hash := p.hash(spec.value);
    if ss.Value().Annotation(PATCH_HASH) != hash {
      patched := ss.DeepCopy();
      patched.annotations := Some(patched.annotations.value[PATCH_HASH := hash]);
      patched.spec := spec.value;
    }
  }
}
