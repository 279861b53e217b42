/** The ScaledObject in an API server that drops empty lists and maps: the comparison with the found spec
    (operator/controllers/scaledactionrunner_controller.go:258) sees the lists of policies in a scaling behaviour. */
module ObjectStorage {
  import opened Wrappers
  import opened KubeTypes
  import opened ScaledObjects
  import Storage

  function StoredRules(r: Option<ScalingRules>): Option<ScalingRules> {
    if r.None? then None else Some(r.value.(policies := Storage.StoredList(r.value.policies)))
  }

  function StoredBehavior(b: Behavior): Behavior {
    Behavior(StoredRules(b.scaleUp), StoredRules(b.scaleDown))
  }

  function StoredAdvanced(a: Advanced): Advanced {
    a.(behavior := if a.behavior.None? then None else Some(StoredBehavior(a.behavior.value)))
  }

  /** What is read back of an object; trigger metadata is stored even if it is empty. */
  function StoredObject(v: ObjectValue): ObjectValue {
    v.(labels := Storage.StoredMap(v.labels),
       spec := v.spec.(advanced := if v.spec.advanced.None? then None else Some(StoredAdvanced(v.spec.advanced.value))))
  }

  /** The configured behaviour, if any, has no empty list of policies. */
  predicate BehaviorSafe(c: Config) {
    c.scaling.Some? && c.scaling.value.behavior.Some? ==>
      StoredBehavior(c.scaling.value.behavior.value) == c.scaling.value.behavior.value
  }

  /** An assigned object that went through storage needs no assignment exactly for a safe behaviour. */
  lemma AssignedSurvivesStorageIff(v: ObjectValue, c: Config, url: string, clusterTriggerName: string)
    requires v.HasMetadata()
    ensures
      var w := StoredObject(Assigned(v, c, url, clusterTriggerName));
      w.HasMetadata() && (Assigned(w, c, url, clusterTriggerName) == w <==> BehaviorSafe(c))
  {
    AssignIsIdempotent(v, c, url, clusterTriggerName);
    var w := Assigned(v, c, url, clusterTriggerName);
    assert Assigned(StoredObject(w), c, url, clusterTriggerName).spec.triggers == w.spec.triggers;
  }

  lemma UnsafeIsNeverAssigned(v: ObjectValue, c: Config, url: string, clusterTriggerName: string)
    requires StoredObject(v).HasMetadata() && !BehaviorSafe(c)
    ensures Assigned(StoredObject(v), c, url, clusterTriggerName) != StoredObject(v)
  {
  }

  /** The writes of n reconciles in a row to an object that is there, each going through storage. */
  function ObjectWrites(v: ObjectValue, c: Config, url: string, clusterTriggerName: string, n: nat): nat
    requires v.HasMetadata()
    decreases n
  {
    var w := Assigned(v, c, url, clusterTriggerName);
    if n == 0 then 0
    else if w == v then ObjectWrites(v, c, url, clusterTriggerName, n - 1)
    else
      AssignedSurvivesStorageIff(v, c, url, clusterTriggerName);
      1 + ObjectWrites(StoredObject(w), c, url, clusterTriggerName, n - 1)
  }

  lemma {:induction false} AssignedWritesNothing(v: ObjectValue, c: Config, url: string, clusterTriggerName: string,
      n: nat)
    requires v.HasMetadata() && Assigned(v, c, url, clusterTriggerName) == v
    ensures ObjectWrites(v, c, url, clusterTriggerName, n) == 0
    decreases n
  {
    if n > 0 {
      AssignedWritesNothing(v, c, url, clusterTriggerName, n - 1);
    }
  }

  lemma {:induction false} UnsafeObjectChurns(v: ObjectValue, c: Config, url: string, clusterTriggerName: string,
      n: nat)
    requires StoredObject(v).HasMetadata() && !BehaviorSafe(c)
    ensures ObjectWrites(StoredObject(v), c, url, clusterTriggerName, n) == n
    decreases n
  {
    if n > 0 {
      var w := Assigned(StoredObject(v), c, url, clusterTriggerName);
      UnsafeIsNeverAssigned(v, c, url, clusterTriggerName);
      AssignedSurvivesStorageIff(StoredObject(v), c, url, clusterTriggerName);
      UnsafeObjectChurns(w, c, url, clusterTriggerName, n - 1);
    }
  }

  /** An object read back from storage is updated in every reconcile if a configured list of policies is empty,
      and otherwise once at most. */
  lemma ObjectChurnsIffUnsafe(v: ObjectValue, c: Config, url: string, clusterTriggerName: string, n: nat)
    requires StoredObject(v).HasMetadata() && n > 0
    ensures
      ObjectWrites(StoredObject(v), c, url, clusterTriggerName, n) ==
      if !BehaviorSafe(c) then n
      else if Assigned(StoredObject(v), c, url, clusterTriggerName) == StoredObject(v) then 0
      else 1
  {
    var s := StoredObject(v);
    if !BehaviorSafe(c) {
      UnsafeObjectChurns(v, c, url, clusterTriggerName, n);
    } else if Assigned(s, c, url, clusterTriggerName) == s {
      AssignedWritesNothing(s, c, url, clusterTriggerName, n);
    } else {
      AssignedSurvivesStorageIff(s, c, url, clusterTriggerName);
      AssignedWritesNothing(StoredObject(Assigned(s, c, url, clusterTriggerName)), c, url, clusterTriggerName, n - 1);
    }
  }
}
