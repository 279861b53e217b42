/** An API server drops a list or map that is empty from what it stores, and hands it back as nil. The update path
    compares with reflect.DeepEqual, to which empty and nil differ
    (operator/controllers/scaledactionrunner_controller.go:422-473). */
module Storage {
  import opened Wrappers
  import opened KubeTypes
  import opened EnvVars
  import opened SarGenerator
  import opened SetUpdates
  import opened SetSync
  import opened SetRuns

  function StoredMap<V(==)>(m: Option<map<string, V>>): Option<map<string, V>> {
    if m == Some(map[]) then None else m
  }

  function StoredList<T(==)>(s: Option<seq<T>>): Option<seq<T>> {
    if s == Some([]) then None else s
  }

  function StoredContainer(k: Container): Container {
    k.(volumeMounts := StoredList(k.volumeMounts), requests := StoredMap(k.requests), limits := StoredMap(k.limits))
  }

  function StoredRequirements(rs: seq<Requirement>): seq<Requirement> {
    seq(|rs|, i requires 0 <= i < |rs| => rs[i].(values := StoredList(rs[i].values)))
  }

  function StoredSelector(l: LabelSelector): LabelSelector {
    LabelSelector(StoredMap(l.matchLabels),
                  if l.matchExpressions.None? then None
                      else StoredList(Some(StoredRequirements(l.matchExpressions.value))))
  }

  function StoredClaimSpec(s: ClaimSpec): ClaimSpec {
    s.(accessModes := StoredList(s.accessModes),
       selector := if s.selector.None? then None else Some(StoredSelector(s.selector.value)),
       limits := StoredMap(s.limits), requests := StoredMap(s.requests))
  }

  /** What is read back of an object. */
  function Stored(v: SetValue): SetValue {
    var s := v.spec;
    var containers := seq(|s.containers|, i requires 0 <= i < |s.containers| => StoredContainer(s.containers[i]));
    var claims := seq(|s.claims|,
        i requires 0 <= i < |s.claims| => s.claims[i].(spec := StoredClaimSpec(s.claims[i].spec)));
    v.(annotations := StoredMap(v.annotations),
       spec := s.(templateAnnotations := StoredMap(s.templateAnnotations), nodeSelector := StoredMap(s.nodeSelector),
                  tolerations := StoredList(s.tolerations), volumes := StoredList(s.volumes),
                  containers := containers, claims := claims))
  }

  /** The configuration asks for nothing that is lost in storage: there is a volume, and what is empty is nil,
      inside the claim template, too. */
  predicate StorageSafe(c: Config) {
    PodSafe(c) && StoredClaimSpec(c.workVolumeClaimTemplate) == c.workVolumeClaimTemplate
  }

  predicate PodSafe(c: Config) {
    && (c.mountDockerSock || (c.maxRunners > 0 && c.runnerSecrets != []))
    && c.annotations != Some(map[]) && c.nodeSelector != Some(map[]) && c.tolerations != Some([])
  }

  /** A container always has a mount, and an empty resource list counts as zero, like none. */
  lemma StoredContainerSettledIff(k: Container, c: Config)
    ensures ContainerSettled(StoredContainer(k), c) <==> ContainerSettled(k, c)
  {
    assert Mounts(c) != [];
  }

  lemma StoredPodSettledIff(v: SetValue, c: Config)
    ensures PodSettled(v.spec, c) ==> (PodSettled(Stored(v).spec, c) <==> PodSafe(c))
    ensures PodSettled(Stored(v).spec, c) ==> PodSafe(c)
  {
    assert Volumes(c) == [] <==> !c.mountDockerSock && RunnerCount(c) == 0;
  }

  /** Storing twice is storing once. */
  lemma StoredClaimTwice(s: ClaimSpec)
    ensures StoredClaimSpec(StoredClaimSpec(s)) == StoredClaimSpec(s)
  {
    if s.selector.Some? && s.selector.value.matchExpressions.Some? {
      var rs := s.selector.value.matchExpressions.value;
      assert StoredRequirements(StoredRequirements(rs)) == StoredRequirements(rs);
    }
  }

  lemma StoredClaimSettledIff(s: ClaimSpec, c: Config)
    ensures
      var safe := StoredClaimSpec(c.workVolumeClaimTemplate) == c.workVolumeClaimTemplate;
      && (ClaimSettled(s, c) ==> (ClaimSettled(StoredClaimSpec(s), c) <==> safe))
      && (ClaimSettled(StoredClaimSpec(s), c) ==> safe)
  {
    StoredClaimTwice(s);
  }

  /** Storage leaves a settled set settled exactly for safe configurations, and never settles one for others. */
  lemma StoredIsSettledIff(v: SetValue, c: Config, secretsHash: string)
    requires v.HasShape()
    ensures Stored(v).HasShape()
    ensures Settled(v, c, secretsHash) ==> (Settled(Stored(v), c, secretsHash) <==> StorageSafe(c))
    ensures Settled(Stored(v), c, secretsHash) ==> StorageSafe(c)
  {
    StoredContainerSettledIff(FirstContainer(v.spec), c);
    StoredPodSettledIff(v, c);
    StoredClaimSettledIff(v.spec.claims[0].spec, c);
  }

  /** Create and update still agree on a generated set that went through storage, exactly for these configurations. */
  lemma GeneratedSurvivesStorageIff(c: Config, labels: Option<StringMap>, secretsHash: string, order: seq<string>,
      owner: Option<string>)
    requires IsOrder(order, DesiredEnv(c))
    ensures
      var v := Stored(Generated(c, labels, secretsHash, order).(owner := owner));
      v.HasShape() && (Settled(v, c, secretsHash) <==> StorageSafe(c))
  {
    GeneratedIsSettled(c, labels, secretsHash, order, owner);
    StoredIsSettledIff(Generated(c, labels, secretsHash, order).(owner := owner), c, secretsHash);
  }

  // ---------------------------------------------------------------------------------------------
  // Runs

  function ThenStored(d: Deployed, decision: Decision): Deployed {
    match Then(d, decision)
    case None => None
    case Some(v) => Some(Stored(v))
  }

  /** The writes of a run in which whatever is written goes through storage. */
  ghost function StoredWrites(d: Deployed, f: Fixed, orders: seq<seq<string>>): nat
    decreases |orders|
  {
    if orders == [] || (d.Some? && !d.value.HasShape()) then 0
    else
      var decision := Step(d, f, orders[0]);
      (if decision.Write? then 1 else 0)
      + StoredWrites(if decision.Write? then ThenStored(d, decision) else d, f, orders[1..])
  }

  /** What a reconcile without a patch writes is settled when it is read back, exactly for safe configurations. */
  lemma StoredStep(d: Deployed, f: Fixed, order: seq<string>)
    requires (d.Some? ==> d.value.HasShape()) && IsOrder(order, DesiredEnv(f.c)) && f.p.Valid() && f.c.patch == ""
    requires Step(d, f, order).Write?
    ensures
      var v := ThenStored(d, Step(d, f, order)).value;
      v.HasShape() && (Settled(v, f.c, f.secretsHash) <==> StorageSafe(f.c))
  {
    var u := StepIsWritten(d, f, order);
    var v := Then(d, Step(d, f, order)).value;
    assert Settled(v, f.c, f.secretsHash) <==> Settled(u, f.c, f.secretsHash);
    StoredIsSettledIff(v, f.c, f.secretsHash);
  }

  lemma {:induction false} SettledWritesNothing(v: SetValue, f: Fixed, orders: seq<seq<string>>)
    requires Orders(orders, f) && f.p.Valid() && f.c.patch == "" && v.HasShape() && Settled(v, f.c, f.secretsHash)
    ensures StoredWrites(Some(v), f, orders) == 0
    decreases |orders|
  {
    if orders != [] {
      KeepIff(v, f.c, f.secretsHash, orders[0], f.p);
      SettledWritesNothing(v, f, orders[1..]);
    }
  }

  lemma {:induction false} UnsafeChurns(d: Deployed, f: Fixed, orders: seq<seq<string>>)
    requires Orders(orders, f) && f.p.Valid() && f.c.patch == "" && !StorageSafe(f.c)
    requires d.Some? ==> d.value.HasShape() && !Settled(d.value, f.c, f.secretsHash)
    ensures StoredWrites(d, f, orders) == |orders|
    decreases |orders|
  {
    if orders != [] {
      if d.Some? {
        KeepIff(d.value, f.c, f.secretsHash, orders[0], f.p);
      }
      StoredStep(d, f, orders[0]);
      UnsafeChurns(ThenStored(d, Step(d, f, orders[0])), f, orders[1..]);
    }
  }

  /** Without a patch, a run that starts with no set, or with one read back from storage, deletes and recreates the
      set in every reconcile if the configuration does not survive storage, and otherwise writes once at most. */
  lemma ChurnsIffUnsafe(d: Deployed, f: Fixed, orders: seq<seq<string>>)
    requires Orders(orders, f) && f.p.Valid() && f.c.patch == "" && orders != []
    requires d.Some? ==> d.value.HasShape() && exists v: SetValue :: d.value == Stored(v)
    ensures
      StoredWrites(d, f, orders) ==
      if !StorageSafe(f.c) then |orders|
      else if d.Some? && Settled(d.value, f.c, f.secretsHash) then 0
      else 1
  {
    if !StorageSafe(f.c) {
      if d.Some? {
        var v: SetValue :| d.value == Stored(v);
        StoredShape(v);
        StoredIsSettledIff(v, f.c, f.secretsHash);
      }
      UnsafeChurns(d, f, orders);
    } else if d.Some? && Settled(d.value, f.c, f.secretsHash) {
      SettledWritesNothing(d.value, f, orders);
    } else {
      if d.Some? {
        KeepIff(d.value, f.c, f.secretsHash, orders[0], f.p);
      }
      StoredStep(d, f, orders[0]);
      SettledWritesNothing(ThenStored(d, Step(d, f, orders[0])).value, f, orders[1..]);
    }
  }

  lemma StoredShape(v: SetValue)
    ensures Stored(v).HasShape() <==> v.HasShape()
  {
    assert |Stored(v).spec.containers| == |v.spec.containers| && |Stored(v).spec.claims| == |v.spec.claims|;
  }
}
