/** Reconciles of a whole cluster: convergence, and what a run may write. */
module ReconcileRuns {
  import opened Wrappers
  import opened KubeTypes
  import opened ApiServer
  import opened EnvVars
  import opened SarGenerator
  import opened SetUpdates
  import opened SetSync
  import opened SetRuns
  import opened SecretsHash
  import opened ScaledObjects
  import opened Reconcile

  /** Every call succeeds. */
  function NoFaults(lag: nat): Faults {
    Faults(NO_SECRET_FAULTS, NO_SECRET_FAULTS, false, false, POLLS, false, lag, false, false, false, false, 0)
  }

  /** The order in which a reconcile meets the environment, and how long its deletion takes. */
  datatype Turn = Turn(order: seq<string>, lag: nat)
  {
    ghost predicate Valid(c: Config) {
      IsOrder(order, DesiredEnv(c)) && lag < POLLS
    }
  }

  /** A deletion that is under way completes within the poll limit. */
  ghost predicate SetQuick(s: Store<Key, SetValue>, key: Key) {
    SetReady(s, key) && (key in s.leaving ==> s.leaving[key] < POLLS)
  }

  predicate AtRest<V>(s: Store<Key, V>, key: Key) {
    key !in s.leaving
  }

  /** The resource and the core are there. The set and the object may be in the course of being deleted. */
  ghost predicate Ready(w: World, i: Input) {
    && i.core.Some? && i.runner.Fetched? && i.Valid() && i.p.Valid() && StablePatch(i.runner.resource.config, i.p)
    && SetQuick(w.sets, i.req) && ObjectReady(w.objects, i.req)
  }

  function FixedBy(r: Resource, secretsHash: string, p: Patcher): Fixed {
    Fixed(r.config, r.labels, secretsHash, p)
  }

  /** With successful calls, the store follows the decision on what the first read finds. */
  lemma SetTurn(s: Store<Key, SetValue>, r: Resource, secretsHash: string, p: Patcher, t: Turn)
    requires SetQuick(s, KeyOf(r.config)) && t.lag < POLLS
    ensures
      var key, d := KeyOf(r.config), s.Seen(KeyOf(r.config));
      var decision := Step(d, FixedBy(r, secretsHash, p), t.order);
      SetsAfter(s, r.config, r.labels, Hash(secretsHash), t.order, p, NoFaults(t.lag)) ==
      match decision
      case Broken => (s.AfterGet(key), SyncError)
      case Keep => (s.AfterGet(key), if d.None? then SyncError else Synced(false))
      case Write(_) =>
        (Store(s.stored[key := Then(d, decision).value], s.leaving - {key}, s.writes + if d.None? then 1 else 2),
            Synced(true))
  {
    var key := KeyOf(r.config);
    var decision := Step(s.Seen(key), FixedBy(r, secretsHash, p), t.order);
    if decision.Write? {
      if s.Seen(key).Some? {
        FoundTurn(s, key, decision, t.lag);
      } else {
        NewTurn(s, key, decision, t.lag);
      }
    }
  }

  lemma FoundTurn(s: Store<Key, SetValue>, key: Key, decision: Decision, lag: nat)
    requires SetQuick(s, key) && s.Seen(key).Some? && lag < POLLS && decision.Write?
    ensures
      FoundSet(s.AfterGet(key), key, decision, NoFaults(lag)) ==
      (Store(s.stored[key := decision.v.(resourceVersion := NO_VERSION)], s.leaving - {key}, s.writes + 2),
          Synced(true))
  {
    var q := s.AfterGet(key);
    RecreatedAtOnce(q, key, decision.v, NoFaults(lag));
    assert q.leaving - {key} == s.leaving - {key};
  }

  lemma NewTurn(s: Store<Key, SetValue>, key: Key, decision: Decision, lag: nat)
    requires SetQuick(s, key) && s.Seen(key).None? && decision.Write?
    ensures
      NewSet(s.AfterGet(key), key, decision, NoFaults(lag)) ==
      (Store(s.stored[key := decision.v], s.leaving - {key}, s.writes + 1), Synced(true))
  {
    var q := s.AfterGet(key);
    assert q.leaving == s.leaving - {key} && q.stored[key := decision.v] == s.stored[key := decision.v];
  }

  lemma RecreatedAtOnce(s: Store<Key, SetValue>, key: Key, v: SetValue, f: Faults)
    requires key in s.stored && (key in s.leaving ==> s.leaving[key] < POLLS)
    requires !f.setDelete && !f.setCreate && f.setLag < POLLS && f.setPollReads >= POLLS
    ensures Recreated(s, key, v, f) ==
        Store(s.stored[key := v.(resourceVersion := NO_VERSION)], s.leaving - {key}, s.writes + 2)
  {
    var deleted := s.Deleted(key, f.setLag);
    PolledDeletion(deleted, key, POLLS);
    assert deleted.leaving - {key} == s.leaving - {key};
    assert (s.stored - {key})[key := v.(resourceVersion := NO_VERSION)] ==
        s.stored[key := v.(resourceVersion := NO_VERSION)];
  }

  /** The polls see the set go: for a deletion already under way the deletion call is immaterial, and the first
      read has brought it closer by one. */
  predicate Vanishes(s: Store<Key, SetValue>, key: Key, f: Faults) {
    if key in s.leaving then s.leaving[key] <= 60 && s.leaving[key] <= f.setPollReads
    else !f.setDelete && f.setLag < 60 && f.setLag < f.setPollReads
  }

  /** Whatever fails after the decision, the reconcile reports a modified set. The replacement is deployed exactly
      if the polls see the old set go and the creation does not fail; if only the creation fails there is no set,
      and otherwise still the old one. */
  lemma ReplacementIsDeployedIff(s: Store<Key, SetValue>, r: Resource, secretsHash: string, p: Patcher,
                                 order: seq<string>, f: Faults)
    requires SetReady(s, KeyOf(r.config)) && s.Seen(KeyOf(r.config)).Some?
    requires IsOrder(order, DesiredEnv(r.config)) && p.Valid() && !f.setGet
    requires Decide(s.stored[KeyOf(r.config)], r.config, secretsHash, order, p).Write?
    ensures
      var key, old_ := KeyOf(r.config), s.stored[KeyOf(r.config)];
      var w := Decide(old_, r.config, secretsHash, order, p).v.(resourceVersion := "0x0");
      var (s', reply) := SetsAfter(s, r.config, r.labels, Hash(secretsHash), order, p, f);
      && reply == Synced(true)
      && (key in s'.stored && s'.stored[key] == w <==> Vanishes(s, key, f) && !f.setCreate)
      && (key !in s'.stored <==> Vanishes(s, key, f) && f.setCreate)
      && (key in s'.stored && s'.stored[key] == old_ <==> !Vanishes(s, key, f))
  {
    var key := KeyOf(r.config);
    var polls := PollsMade(POLLS, f.setPollReads);
    var q := s.AfterGet(key);
    WriteChanges(s.stored[key], r.config, secretsHash, order, p);
    var deleted := if f.setDelete then q.Refused() else q.Deleted(key, f.setLag);
    if key in deleted.leaving {
      PolledDeletion(deleted, key, polls);
    } else {
      PolledInPlace(deleted, key, polls);
    }
  }

  ghost predicate SetInSync(s: Store<Key, SetValue>, key: Key, c: Config, secretsHash: string, p: Patcher) {
    AtRest(s, key) && key in s.stored && InSync(s.stored[key], c, secretsHash, p)
  }

  /** The next read finds the set, and the decision is to keep it. */
  ghost predicate KeptIn(s: Store<Key, SetValue>, r: Resource, secretsHash: string, p: Patcher, order: seq<string>)
    requires SetReady(s, KeyOf(r.config))
  {
    s.Seen(KeyOf(r.config)).Some? && Decide(s.stored[KeyOf(r.config)], r.config, secretsHash, order, p) == Keep
  }

  /** One turn only reads the sets, or brings them in sync with at most a deletion and a creation. */
  lemma SetTurnSyncs(s: Store<Key, SetValue>, r: Resource, secretsHash: string, p: Patcher, t: Turn)
    requires SetQuick(s, KeyOf(r.config))
    requires t.Valid(r.config) && p.Valid() && StablePatch(r.config, p)
    ensures
      var key := KeyOf(r.config);
      var (s', reply) := SetsAfter(s, r.config, r.labels, Hash(secretsHash), t.order, p, NoFaults(t.lag));
      && SetQuick(s', key)
      && (SetInSync(s, key, r.config, secretsHash, p) ==> s' == s && reply == Synced(false))
      && if reply == Synced(true)
         then SetInSync(s', key, r.config, secretsHash, p) && s.writes < s'.writes <= s.writes + 2
         else s' == s.AfterGet(key) && (reply == Synced(false) <==> KeptIn(s, r, secretsHash, p, t.order))
  {
    SetTurn(s, r, secretsHash, p, t);
    var d, f := s.Seen(KeyOf(r.config)), FixedBy(r, secretsHash, p);
    if Step(d, f, t.order).Write? {
      StepSyncs(d, f, t.order);
    }
  }

  // ---------------------------------------------------------------------------------------------

  ghost predicate ObjectAssigned(s: Store<Key, ObjectValue>, key: Key, c: Config, url: string, trigger: string) {
    key in s.stored && s.stored[key].HasMetadata() && Assigned(s.stored[key], c, url, trigger) == s.stored[key]
  }

  ghost predicate ObjectInSync(s: Store<Key, ObjectValue>, key: Key, c: Config, url: string, trigger: string) {
    AtRest(s, key) && ObjectAssigned(s, key, c, url, trigger)
  }

  /** One write if the object is not as assigned, and one to create it anew if it is being deleted. */
  ghost function ObjectDebt(s: Store<Key, ObjectValue>, key: Key, c: Config, url: string, trigger: string): nat {
    (if AtRest(s, key) then 0 else 1) + if ObjectAssigned(s, key, c, url, trigger) then 0 else 1
  }

  lemma ObjectTurnSyncs(s: Store<Key, ObjectValue>, c: Config, labels: Option<StringMap>, url: string,
      trigger: string, lag: nat)
    requires ObjectReady(s, KeyOf(c))
    ensures
      var key := KeyOf(c);
      var (s', reply) := ObjectsAfter(s, c, labels, url, trigger, NoFaults(lag));
      && ObjectReady(s', key) && ObjectAssigned(s', key, c, url, trigger)
      && (reply == if s.Seen(key).Some? && ObjectAssigned(s, key, c, url, trigger) then Synced(false) else Synced(true))
      && (reply == Synced(false) ==> s' == s.AfterGet(key))
      && s'.writes + ObjectDebt(s', key, c, url, trigger) <= s.writes + ObjectDebt(s, key, c, url, trigger)
  {
    var key := KeyOf(c);
    if s.Seen(key).Some? {
      AssignIsIdempotent(s.stored[key], c, url, trigger);
    } else {
      OwnedIsAssigned(c, labels, url, trigger);
    }
  }

  lemma OwnedIsAssigned(c: Config, labels: Option<StringMap>, url: string, trigger: string)
    ensures
      var g := GeneratedObject(c, labels, url, trigger).(owner := Some(c.name));
      g.HasMetadata() && Assigned(g, c, url, trigger) == g
  {
    GeneratedIsAssigned(c, labels, url, trigger);
  }

  // ---------------------------------------------------------------------------------------------
  // The cluster

  function HashFor(i: Input, secrets: map<Key, Secret>): Hash
    requires i.core.Some? && i.runner.Fetched?
  {
    HashOf(secrets, i.runner.resource.config, i.core.value.apiServerNamespace, NO_SECRET_FAULTS)
  }

  predicate ValidFor(i: Input, secrets: map<Key, Secret>)
    requires i.core.Some? && i.runner.Fetched?
  {
    Validates(secrets, i.runner.resource, i.core.value.apiServerNamespace, NO_SECRET_FAULTS)
  }

  function UrlFor(i: Input): string
    requires i.core.Some? && i.runner.Fetched?
  {
    MetricsUrl(i.runner.resource, i.core.value, i.req)
  }

  function TriggerFor(i: Input): string
    requires i.core.Some? && i.runner.Fetched?
  {
    MetricsServer(i.runner.resource, i.core.value).apiServerName
  }

  ghost predicate SetsSynced(w: World, i: Input, secrets: map<Key, Secret>)
    requires i.core.Some? && i.runner.Fetched?
  {
    HashFor(i, secrets).Hash? && SetInSync(w.sets, i.req, i.runner.resource.config, HashFor(i, secrets).value, i.p)
  }

  ghost predicate ObjectsAssigned(w: World, i: Input)
    requires i.core.Some? && i.runner.Fetched?
  {
    ObjectAssigned(w.objects, i.req, i.runner.resource.config, UrlFor(i), TriggerFor(i))
  }

  ghost predicate ObjectsSynced(w: World, i: Input)
    requires i.core.Some? && i.runner.Fetched?
  {
    ObjectInSync(w.objects, i.req, i.runner.resource.config, UrlFor(i), TriggerFor(i))
  }

  ghost function SetsDebt(w: World, i: Input, secrets: map<Key, Secret>): nat
    requires i.core.Some? && i.runner.Fetched?
  {
    if SetsSynced(w, i, secrets) then 0 else 2
  }

  ghost function ObjectsDebt(w: World, i: Input): nat
    requires i.core.Some? && i.runner.Fetched?
  {
    ObjectDebt(w.objects, i.req, i.runner.resource.config, UrlFor(i), TriggerFor(i))
  }

  /** Each write brings its store closer to being in sync, and what is in sync stays as it is. */
  ghost predicate Converging(w: World, w': World, i: Input, secrets: map<Key, Secret>)
    requires i.core.Some? && i.runner.Fetched?
  {
    SetsConverging(w, w', i, secrets) && ObjectsConverging(w, w', i)
  }

  ghost predicate SetsConverging(w: World, w': World, i: Input, secrets: map<Key, Secret>)
    requires i.core.Some? && i.runner.Fetched?
  {
    && w'.sets.writes + SetsDebt(w', i, secrets) <= w.sets.writes + SetsDebt(w, i, secrets)
    && (w'.sets.writes != w.sets.writes ==> SetsSynced(w', i, secrets))
    && (SetsSynced(w, i, secrets) ==> w'.sets == w.sets)
  }

  ghost predicate ObjectsConverging(w: World, w': World, i: Input)
    requires i.core.Some? && i.runner.Fetched?
  {
    && w'.objects.writes + ObjectsDebt(w', i) <= w.objects.writes + ObjectsDebt(w, i)
    && (ObjectsSynced(w, i) ==> w'.objects == w.objects)
  }

  /** Reading is all that a reconcile did. */
  function OnlyRead(w: World, key: Key): World {
    World(w.sets.AfterGet(key), w.objects.AfterGet(key))
  }

  lemma ValidIsResynced(w: World, i: Input, secrets: map<Key, Secret>, t: Turn)
    requires Ready(w, i)
    ensures
      Reconciled(w, i, secrets, t.order, NoFaults(t.lag)) ==
      if ValidFor(i, secrets) then Resynced(w, i, HashFor(i, secrets), t.order, NoFaults(t.lag)) else (w, Error)
    ensures ValidFor(i, secrets) ==> HashFor(i, secrets).Hash?
  {
  }

  lemma ResyncedSets(w: World, i: Input, secrets: map<Key, Secret>, t: Turn)
    requires Ready(w, i) && t.Valid(i.runner.resource.config) && HashFor(i, secrets).Hash?
    ensures
      var w' := Resynced(w, i, HashFor(i, secrets), t.order, NoFaults(t.lag)).0;
      SetQuick(w'.sets, i.req) && SetsConverging(w, w', i, secrets)
  {
    SetTurnSyncs(w.sets, i.runner.resource, HashFor(i, secrets).value, i.p, t);
  }

  lemma ResyncedObjects(w: World, i: Input, secrets: map<Key, Secret>, t: Turn)
    requires Ready(w, i) && HashFor(i, secrets).Hash?
    ensures
      var w' := Resynced(w, i, HashFor(i, secrets), t.order, NoFaults(t.lag)).0;
      ObjectReady(w'.objects, i.req) && ObjectsConverging(w, w', i)
  {
    var r, h := i.runner.resource, HashFor(i, secrets);
    ObjectTurnSyncs(w.objects, r.config, LabelsAfter(r.labels, h), UrlFor(i), TriggerFor(i), t.lag);
  }

  lemma ResyncedConverges(w: World, i: Input, secrets: map<Key, Secret>, t: Turn)
    requires Ready(w, i) && t.Valid(i.runner.resource.config) && HashFor(i, secrets).Hash?
    ensures
      var (w', result) := Resynced(w, i, HashFor(i, secrets), t.order, NoFaults(t.lag));
      && Ready(w', i) && Converging(w, w', i, secrets)
      && (SetsSynced(w, i, secrets) && ObjectsSynced(w, i) ==> result == Done(false))
      && (result == Done(false) ==> w' == OnlyRead(w, i.req))
  {
    ResyncedSets(w, i, secrets, t);
    ResyncedObjects(w, i, secrets, t);
    ResyncedResult(w, i, secrets, t);
  }

  lemma ResyncedResult(w: World, i: Input, secrets: map<Key, Secret>, t: Turn)
    requires Ready(w, i) && t.Valid(i.runner.resource.config) && HashFor(i, secrets).Hash?
    ensures
      var (w', result) := Resynced(w, i, HashFor(i, secrets), t.order, NoFaults(t.lag));
      && (SetsSynced(w, i, secrets) && ObjectsSynced(w, i) ==> result == Done(false))
      && (result == Done(false) ==> w' == OnlyRead(w, i.req))
  {
    var r, h := i.runner.resource, HashFor(i, secrets);
    SetTurnSyncs(w.sets, r, h.value, i.p, t);
    ObjectTurnSyncs(w.objects, r.config, LabelsAfter(r.labels, h), UrlFor(i), TriggerFor(i), t.lag);
  }

  /** How the result tells what was decided. */
  lemma ResyncedOutcome(w: World, i: Input, secrets: map<Key, Secret>, t: Turn)
    requires Ready(w, i) && t.Valid(i.runner.resource.config) && HashFor(i, secrets).Hash?
    ensures
      var (w', result) := Resynced(w, i, HashFor(i, secrets), t.order, NoFaults(t.lag));
      var kept := KeptIn(w.sets, i.runner.resource, HashFor(i, secrets).value, i.p, t.order);
      && (result == Done(false) <==> kept && w.objects.Seen(i.req).Some? && ObjectsAssigned(w, i))
      && (result.Done? ==>
           && ObjectsAssigned(w', i)
           && if w'.sets.writes != w.sets.writes then SetsSynced(w', i, secrets)
              else kept && w'.sets == w.sets.AfterGet(i.req))
  {
    var r, h := i.runner.resource, HashFor(i, secrets);
    SetTurnSyncs(w.sets, r, h.value, i.p, t);
    ObjectTurnSyncs(w.objects, r.config, LabelsAfter(r.labels, h), UrlFor(i), TriggerFor(i), t.lag);
  }

  /** One turn of the whole. */
  lemma TurnSyncs(w: World, i: Input, secrets: map<Key, Secret>, t: Turn)
    requires Ready(w, i) && t.Valid(i.runner.resource.config)
    ensures
      var (w', result) := Reconciled(w, i, secrets, t.order, NoFaults(t.lag));
      && Ready(w', i) && Converging(w, w', i, secrets)
      && (ValidFor(i, secrets) && SetsSynced(w, i, secrets) && ObjectsSynced(w, i) ==> result == Done(false))
      && (result == Done(false) ==> w' == OnlyRead(w, i.req))
  {
    ValidIsResynced(w, i, secrets, t);
    if ValidFor(i, secrets) {
      ResyncedConverges(w, i, secrets, t);
    }
  }

  /** The cluster after a run of reconciles with the resource, the core and the secrets unchanged. */
  ghost function AfterRun(w: World, i: Input, secrets: map<Key, Secret>, turns: seq<Turn>): World
    requires Ready(w, i) && forall k :: 0 <= k < |turns| ==> turns[k].Valid(i.runner.resource.config)
    decreases |turns|
  {
    if turns == [] then w
    else
      TurnSyncs(w, i, secrets, turns[0]);
      AfterRun(Reconciled(w, i, secrets, turns[0].order, NoFaults(turns[0].lag)).0, i, secrets, turns[1..])
  }

  /** No churn, however long the run, also while an earlier deletion is still under way: at most one deletion and
      one creation of the StatefulSet, and one write of the ScaledObject, two if it was being deleted. */
  lemma {:induction false} RunWritesLittle(w: World, i: Input, secrets: map<Key, Secret>, turns: seq<Turn>)
    requires Ready(w, i) && forall k :: 0 <= k < |turns| ==> turns[k].Valid(i.runner.resource.config)
    ensures
      var w' := AfterRun(w, i, secrets, turns);
      && w'.sets.writes <= w.sets.writes + SetsDebt(w, i, secrets) <= w.sets.writes + 2
      && w'.objects.writes <= w.objects.writes + ObjectsDebt(w, i)
      && ObjectsDebt(w, i) <= if AtRest(w.objects, i.req) then 1 else 2
    decreases |turns|
  {
    if turns != [] {
      TurnSyncs(w, i, secrets, turns[0]);
      var w' := Reconciled(w, i, secrets, turns[0].order, NoFaults(turns[0].lag)).0;
      RunWritesLittle(w', i, secrets, turns[1..]);
    }
  }

  // ---------------------------------------------------------------------------------------------
  // The second reconcile

  ghost predicate Silent(w: World, i: Input, secrets: map<Key, Secret>, t: Turn)
    requires Ready(w, i)
  {
    Reconciled(w, i, secrets, t.order, NoFaults(t.lag)) == (OnlyRead(w, i.req), Done(false))
  }

  /** No deletion completes before the next reconcile reads. */
  predicate BothSeen(w: World, key: Key) {
    w.sets.Seen(key).Some? && w.objects.Seen(key).Some?
  }

  /** After a reconcile without error the next one is silent exactly if it finds set and object and keeps the set. */
  lemma NextIsSilentIff(w: World, i: Input, secrets: map<Key, Secret>, first: Turn, second: Turn)
    requires Ready(w, i) && first.Valid(i.runner.resource.config) && second.Valid(i.runner.resource.config)
    requires Reconciled(w, i, secrets, first.order, NoFaults(first.lag)).1.Done?
    ensures
      var w' := Reconciled(w, i, secrets, first.order, NoFaults(first.lag)).0;
      && Ready(w', i) && HashFor(i, secrets).Hash? && i.req in w'.sets.stored
      && (Silent(w', i, secrets, second) <==>
          BothSeen(w', i.req)
          && Keep ==
             Decide(w'.sets.stored[i.req], i.runner.resource.config, HashFor(i, secrets).value, second.order, i.p))
  {
    FirstDecision(w, i, secrets, first);
    TurnSyncs(w, i, secrets, first);
    SilentIff(Reconciled(w, i, secrets, first.order, NoFaults(first.lag)).0, i, secrets, second);
  }

  lemma SilentIff(w: World, i: Input, secrets: map<Key, Secret>, t: Turn)
    requires Ready(w, i) && t.Valid(i.runner.resource.config) && ValidFor(i, secrets) && HashFor(i, secrets).Hash?
    requires ObjectsAssigned(w, i)
    ensures
      Silent(w, i, secrets, t) <==>
      BothSeen(w, i.req)
      && Decide(w.sets.stored[i.req], i.runner.resource.config, HashFor(i, secrets).value, t.order, i.p) == Keep
  {
    ValidIsResynced(w, i, secrets, t);
    ResyncedConverges(w, i, secrets, t);
    ResyncedOutcome(w, i, secrets, t);
  }

  /** What decides whether the set is kept by the reconcile after a successful one: that one wrote it, or there is
      no patch, or the set lacks at most one variable. */
  ghost predicate Steady(w: World, w': World, i: Input)
    requires i.runner.Fetched? && i.req in w'.sets.stored && w'.sets.stored[i.req].HasShape()
  {
    w'.sets.writes != w.sets.writes || i.runner.resource.config.patch == ""
    || |AbsentFrom(w'.sets.stored[i.req], i.runner.resource.config)| <= 1
  }

  /** What a successful reconcile leaves behind: a set that it wrote, or one that it decided to keep. */
  ghost predicate Decided(w: World, w': World, i: Input, secrets: map<Key, Secret>, first: Turn)
    requires i.core.Some? && i.runner.Fetched?
  {
    && HashFor(i, secrets).Hash? && i.req in w'.sets.stored && ObjectsAssigned(w', i)
    && var v, c, h := w'.sets.stored[i.req], i.runner.resource.config, HashFor(i, secrets).value;
    if w'.sets.writes != w.sets.writes then InSync(v, c, h, i.p)
    else v.HasShape() && Decide(v, c, h, first.order, i.p) == Keep
  }

  lemma ResyncedDecides(w: World, i: Input, secrets: map<Key, Secret>, first: Turn)
    requires Ready(w, i) && first.Valid(i.runner.resource.config) && HashFor(i, secrets).Hash?
    ensures
      var (w', result) := Resynced(w, i, HashFor(i, secrets), first.order, NoFaults(first.lag));
      result.Done? ==> Decided(w, w', i, secrets, first)
  {
    ResyncedOutcome(w, i, secrets, first);
    var (w', result) := Resynced(w, i, HashFor(i, secrets), first.order, NoFaults(first.lag));
    if result.Done? && w'.sets.writes == w.sets.writes {
      assert w'.sets.stored == w.sets.stored;
    }
  }

  lemma FirstDecision(w: World, i: Input, secrets: map<Key, Secret>, first: Turn)
    requires Ready(w, i) && first.Valid(i.runner.resource.config)
    requires Reconciled(w, i, secrets, first.order, NoFaults(first.lag)).1.Done?
    ensures ValidFor(i, secrets)
        && Decided(w, Reconciled(w, i, secrets, first.order, NoFaults(first.lag)).0, i, secrets, first)
  {
    ValidIsResynced(w, i, secrets, first);
    ResyncedDecides(w, i, secrets, first);
  }

  /** Convergence: after a reconcile without error the second one only reads, if the deletions under way leave it
      something to find and the set is steady. */
  lemma SecondReconcileIsSilent(w: World, i: Input, secrets: map<Key, Secret>, first: Turn, second: Turn)
    requires Ready(w, i) && first.Valid(i.runner.resource.config) && second.Valid(i.runner.resource.config)
    requires Reconciled(w, i, secrets, first.order, NoFaults(first.lag)).1.Done?
    ensures
      var w' := Reconciled(w, i, secrets, first.order, NoFaults(first.lag)).0;
      && Ready(w', i) && i.req in w'.sets.stored
      && (BothSeen(w', i.req) && Steady(w, w', i) ==> Silent(w', i, secrets, second))
  {
    var c, h := i.runner.resource.config, HashFor(i, secrets);
    var w' := Reconciled(w, i, secrets, first.order, NoFaults(first.lag)).0;
    FirstDecision(w, i, secrets, first);
    NextIsSilentIff(w, i, secrets, first, second);
    if w'.sets.writes == w.sets.writes && Steady(w, w', i) {
      KeepStays(w'.sets.stored[i.req], c, h.value, first.order, second.order, i.p);
    }
  }

  lemma KeepStays(v: SetValue, c: Config, secretsHash: string, first: seq<string>, second: seq<string>, p: Patcher)
    requires v.HasShape() && IsOrder(first, DesiredEnv(c)) && IsOrder(second, DesiredEnv(c)) && p.Valid()
    requires Decide(v, c, secretsHash, first, p) == Keep
    requires c.patch == "" || |AbsentFrom(v, c)| <= 1
    ensures Decide(v, c, secretsHash, second, p) == Keep
  {
    if c.patch == "" {
      KeepIff(v, c, secretsHash, first, p);
      KeepIff(v, c, secretsHash, second, p);
    } else {
      DecisionIgnoresOrder(v, c, secretsHash, first, second, p);
    }
  }

  /** Exactly then, if patch and digest tell orders apart: the second reconcile is silent however it meets the
      environment, if and only if nothing vanishes before it reads and the set is steady. */
  lemma SecondReconcileIsSilentIff(w: World, i: Input, secrets: map<Key, Secret>, first: Turn)
    requires Ready(w, i) && first.Valid(i.runner.resource.config) && TellsOrdersApart(i.p)
    requires Reconciled(w, i, secrets, first.order, NoFaults(first.lag)).1.Done?
    ensures
      var w' := Reconciled(w, i, secrets, first.order, NoFaults(first.lag)).0;
      && Ready(w', i) && i.req in w'.sets.stored
      && ((forall second: Turn :: second.Valid(i.runner.resource.config) ==> Silent(w', i, secrets, second)) <==>
          BothSeen(w', i.req) && Steady(w, w', i))
  {
    var c, h := i.runner.resource.config, HashFor(i, secrets);
    var w' := Reconciled(w, i, secrets, first.order, NoFaults(first.lag)).0;
    FirstDecision(w, i, secrets, first);
    SecondReconcileIsSilent(w, i, secrets, first, first);
    if BothSeen(w', i.req) && Steady(w, w', i) {
      forall second: Turn | second.Valid(c) ensures Silent(w', i, secrets, second) {
        SecondReconcileIsSilent(w, i, secrets, first, second);
      }
    } else {
      var other := first;
      if !Steady(w, w', i) {
        var order' := SomeOrderIsNotKept(w'.sets.stored[i.req], c, h.value, first.order, i.p);
        other := Turn(order', first.lag);
      }
      NextIsSilentIff(w, i, secrets, first, other);
      assert other.Valid(c) && !Silent(w', i, secrets, other);
    }
  }

  // ---------------------------------------------------------------------------------------------

  lemma SamePayloadsSameHash(i: Input, a: map<Key, Secret>, b: map<Key, Secret>)
    requires i.core.Some? && i.runner.Fetched? && SamePayloads(a, b)
    ensures HashFor(i, a) == HashFor(i, b) && (ValidFor(i, a) <==> ValidFor(i, b))
  {
    PayloadsDecideHash(a, b, i.runner.resource.config, RunnerCount(i.runner.resource.config), NO_SECRET_FAULTS);
  }

  lemma SameHashSameReconcile(w: World, i: Input, a: map<Key, Secret>, b: map<Key, Secret>, t: Turn)
    requires Ready(w, i) && HashFor(i, a) == HashFor(i, b) && (ValidFor(i, a) <==> ValidFor(i, b))
    ensures Reconciled(w, i, a, t.order, NoFaults(t.lag)) == Reconciled(w, i, b, t.order, NoFaults(t.lag))
  {
  }

  /** Secrets matter by their payloads only: a reconcile with the secrets as another one left them is the same. */
  lemma AnnotatedSecretsSameReconcile(w: World, i: Input, secrets: map<Key, Secret>, t: Turn)
    requires Ready(w, i)
    ensures
      var after := SecretsReconciled(i, secrets, NoFaults(t.lag));
      Reconciled(w, i, after, t.order, NoFaults(t.lag)) == Reconciled(w, i, secrets, t.order, NoFaults(t.lag))
  {
    SecretsAfterKeepsPayloads(secrets, i.runner.resource.config, i.core.value.apiServerNamespace, NO_SECRET_FAULTS);
    var after := SecretsReconciled(i, secrets, NoFaults(t.lag));
    assert SamePayloads(after, secrets);
    SamePayloadsSameHash(i, after, secrets);
    SameHashSameReconcile(w, i, after, secrets, t);
  }

  // ---------------------------------------------------------------------------------------------
  // Secrets

  /** A resource is valid exactly if its scale factor parses and its secrets are there. */
  lemma ValidForIff(i: Input, secrets: map<Key, Secret>)
    requires i.core.Some? && i.runner.Fetched?
    ensures
      ValidFor(i, secrets) <==>
      i.runner.resource.scaleFactorParses
      && AllThere(secrets, i.runner.resource.config, i.core.value.apiServerNamespace)
  {
    var c := i.runner.resource.config;
    if ValidFor(i, secrets) {
      forall k | 0 <= k < |c.runnerSecrets| ensures Key(c.namespace, c.runnerSecrets[k]) in secrets {
        assert ReadOf(secrets, Key(c.namespace, c.runnerSecrets[k]), NO_SECRET_FAULTS).Payload?;
      }
    }
  }

  /** A silent reconcile without a patch found the set settled and the object in sync. */
  lemma SilentIsSettled(w: World, i: Input, secrets: map<Key, Secret>, t: Turn)
    requires Ready(w, i) && t.Valid(i.runner.resource.config) && i.runner.resource.config.patch == ""
    requires Reconciled(w, i, secrets, t.order, NoFaults(t.lag)) == (w, Done(false))
    ensures HashFor(i, secrets).Hash? && i.req in w.sets.stored && ObjectsSynced(w, i)
    ensures Settled(w.sets.stored[i.req], i.runner.resource.config, HashFor(i, secrets).value)
  {
    TurnSyncs(w, i, secrets, t);
    SetTurn(w.sets, i.runner.resource, HashFor(i, secrets).value, i.p, t);
    KeepIff(w.sets.stored[i.req], i.runner.resource.config, HashFor(i, secrets).value, t.order, i.p);
  }

  /** A settled set is written again exactly when the secrets hash is another. */
  lemma OtherHashRecreates(s: Store<Key, SetValue>, r: Resource, ha: string, hb: string, p: Patcher, t: Turn)
    requires SetReady(s, KeyOf(r.config)) && KeyOf(r.config) !in s.leaving && t.lag < POLLS && p.Valid()
    requires r.config.patch == "" && KeyOf(r.config) in s.stored && Settled(s.stored[KeyOf(r.config)], r.config, ha)
    ensures
      var (s', reply) := SetsAfter(s, r.config, r.labels, Hash(hb), t.order, p, NoFaults(t.lag));
      reply == Synced(ha != hb) && (s' != s <==> ha != hb)
  {
    SetTurn(s, r, hb, p, t);
    KeepIff(s.stored[KeyOf(r.config)], r.config, hb, t.order, p);
  }

  /** A settled set and an object in sync, met with another hash. */
  lemma OtherHashResyncs(w: World, i: Input, ha: string, secrets: map<Key, Secret>, t: Turn)
    requires Ready(w, i) && t.Valid(i.runner.resource.config) && i.runner.resource.config.patch == ""
    requires ObjectsSynced(w, i) && AtRest(w.sets, i.req) && i.req in w.sets.stored && HashFor(i, secrets).Hash?
    requires Settled(w.sets.stored[i.req], i.runner.resource.config, ha)
    ensures
      var (w', result) := Resynced(w, i, HashFor(i, secrets), t.order, NoFaults(t.lag));
      result == Done(ha != HashFor(i, secrets).value) && (w'.sets != w.sets <==> ha != HashFor(i, secrets).value)
  {
    var r, h := i.runner.resource, HashFor(i, secrets);
    OtherHashRecreates(w.sets, r, ha, h.value, i.p, t);
    ObjectTurnSyncs(w.objects, r.config, LabelsAfter(r.labels, h), UrlFor(i), TriggerFor(i), t.lag);
  }

  lemma HashesDifferIff(i: Input, a: map<Key, Secret>, b: map<Key, Secret>)
    requires i.core.Some? && i.runner.Fetched? && AsciiSecrets(a) && AsciiSecrets(b)
    requires
      var c, ns := i.runner.resource.config, i.core.value.apiServerNamespace;
      AllThere(a, c, ns) && AllThere(b, c, ns)
    ensures HashFor(i, a).Hash? && HashFor(i, b).Hash?
    ensures
      HashFor(i, a).value != HashFor(i, b).value <==>
      !SameSecrets(a, b, i.runner.resource.config, i.core.value.apiServerNamespace)
  {
    SameFingerprintIff(a, b, i.runner.resource.config, i.core.value.apiServerNamespace);
  }

  lemma OtherHashReconciles(w: World, i: Input, ha: string, secrets: map<Key, Secret>, t: Turn)
    requires Ready(w, i) && t.Valid(i.runner.resource.config) && i.runner.resource.config.patch == ""
    requires ObjectsSynced(w, i) && AtRest(w.sets, i.req) && i.req in w.sets.stored && ValidFor(i, secrets)
    requires Settled(w.sets.stored[i.req], i.runner.resource.config, ha)
    ensures HashFor(i, secrets).Hash?
    ensures
      var (w', result) := Reconciled(w, i, secrets, t.order, NoFaults(t.lag));
      result == Done(ha != HashFor(i, secrets).value) && (w'.sets != w.sets <==> ha != HashFor(i, secrets).value)
  {
    ValidIsResynced(w, i, secrets, t);
    OtherHashResyncs(w, i, ha, secrets, t);
  }

  /** Without a patch, a cluster in sync is written again exactly when the token changed, or a runner secret below
      maxRunners. */
  lemma SecretChangeRecreatesIff(w: World, i: Input, a: map<Key, Secret>, b: map<Key, Secret>, first: Turn,
                                 second: Turn)
    requires Ready(w, i) && first.Valid(i.runner.resource.config) && second.Valid(i.runner.resource.config)
    requires i.runner.resource.config.patch == "" && i.runner.resource.scaleFactorParses
    requires
      var c, ns := i.runner.resource.config, i.core.value.apiServerNamespace;
      AllThere(a, c, ns) && AllThere(b, c, ns) && AsciiSecrets(a) && AsciiSecrets(b)
    requires Reconciled(w, i, a, first.order, NoFaults(first.lag)) == (w, Done(false))
    ensures
      var c, ns := i.runner.resource.config, i.core.value.apiServerNamespace;
      var (w', result) := Reconciled(w, i, b, second.order, NoFaults(second.lag));
      && result == Done(!SameSecrets(a, b, c, ns))
      && (w'.sets == w.sets <==> SameSecrets(a, b, c, ns))
  {
    HashesDifferIff(i, a, b);
    ValidForIff(i, b);
    SilentIsSettled(w, i, a, first);
    OtherHashReconciles(w, i, HashFor(i, a).value, b, second);
  }

  // ---------------------------------------------------------------------------------------------
  // Frame

  lemma RecreatedElsewhere(s: Store<Key, SetValue>, key: Key, v: SetValue, f: Faults, other: Key)
    requires other != key
    ensures At(Recreated(s, key, v, f), other) == At(s, other)
  {
    var polls := PollsMade(POLLS, f.setPollReads);
    var deleted := if f.setDelete then s.Refused() else s.Deleted(key, f.setLag);
    CallsElsewhere(s, key, v, f.setLag, other);
    PolledElsewhere(deleted, key, polls, other);
    CallsElsewhere(deleted.Polled(key, polls), key, v.(resourceVersion := NO_VERSION), 0, other);
  }

  lemma DecisionElsewhere(s: Store<Key, SetValue>, key: Key, decision: Decision, f: Faults, other: Key)
    requires other != key
    ensures At(NewSet(s, key, decision, f).0, other) == At(FoundSet(s, key, decision, f).0, other) == At(s, other)
  {
    if decision.Write? {
      CallsElsewhere(s, key, decision.v, 0, other);
      RecreatedElsewhere(s, key, decision.v, f, other);
    }
  }

  lemma SetsElsewhere(s: Store<Key, SetValue>, c: Config, labels: Option<StringMap>, hash: Hash, order: seq<string>,
      p: Patcher, f: Faults, other: Key)
    requires SetReady(s, KeyOf(c)) && other != KeyOf(c)
    ensures At(SetsAfter(s, c, labels, hash, order, p, f).0, other) == At(s, other)
  {
    var key, secretsHash := KeyOf(c), if hash.Hash? then hash.value else "";
    GetElsewhere(s, key, other);
    if s.Seen(key).Some? {
      DecisionElsewhere(s.AfterGet(key), key, Decide(s.Seen(key).value, c, secretsHash, order, p), f, other);
    } else {
      DecisionElsewhere(s.AfterGet(key), key, DecideNew(c, labels, secretsHash, order, p), f, other);
    }
  }

  lemma ObjectsElsewhere(s: Store<Key, ObjectValue>, c: Config, labels: Option<StringMap>, url: string,
      trigger: string, f: Faults, other: Key)
    requires ObjectReady(s, KeyOf(c)) && other != KeyOf(c)
    ensures At(ObjectsAfter(s, c, labels, url, trigger, f).0, other) == At(s, other)
  {
    var t, key := s.AfterGet(KeyOf(c)), KeyOf(c);
    GetElsewhere(s, key, other);
    if s.Seen(key).Some? {
      CallsElsewhere(t, key, Assigned(s.Seen(key).value, c, url, trigger), 0, other);
    }
  }

  lemma DependantElsewhere<V>(s: Store<Key, V>, key: Key, getFails: bool, deleteFails: bool, lag: nat, other: Key)
    requires other != key
    ensures At(DependantDeleted(s, key, getFails, deleteFails, lag).0, other) == At(s, other)
  {
  }

  lemma ResyncedElsewhere(w: World, i: Input, hash: Hash, order: seq<string>, f: Faults, other: Key)
    requires i.Valid() && i.core.Some? && i.runner.Fetched? && SetReady(w.sets, i.req) && ObjectReady(w.objects, i.req)
    requires other != i.req
    ensures
      var w' := Resynced(w, i, hash, order, f).0;
      At(w'.sets, other) == At(w.sets, other) && At(w'.objects, other) == At(w.objects, other)
  {
    var r := i.runner.resource;
    SetsElsewhere(w.sets, r.config, r.labels, hash, order, i.p, f, other);
    ObjectsElsewhere(w.objects, r.config, LabelsAfter(r.labels, hash), UrlFor(i), TriggerFor(i), f, other);
  }

  /** Whatever fails, a reconcile touches no other object. */
  lemma OthersAreUntouched(w: World, i: Input, secrets: map<Key, Secret>, order: seq<string>, f: Faults, other: Key)
    requires i.Valid() && SetReady(w.sets, i.req) && ObjectReady(w.objects, i.req) && other != i.req
    ensures
      var w' := Reconciled(w, i, secrets, order, f).0;
      At(w'.sets, other) == At(w.sets, other) && At(w'.objects, other) == At(w.objects, other)
  {
    DependantElsewhere(w.sets, i.req, f.setGet, f.setDelete, f.setLag, other);
    DependantElsewhere(w.objects, i.req, f.objectGet, f.objectDelete, f.objectLag, other);
    if i.core.Some? && i.runner.Fetched? {
      var r, ns := i.runner.resource, i.core.value.apiServerNamespace;
      ResyncedElsewhere(w, i, HashOf(secrets, r.config, ns, f.secrets), order, f, other);
    }
  }

  /** Once the resource is gone, its dependants are being deleted or are not there. */
  lemma DependantsGo(w: World, i: Input, secrets: map<Key, Secret>, order: seq<string>, f: Faults)
    requires i.Valid() && SetReady(w.sets, i.req) && ObjectReady(w.objects, i.req)
    requires i.core.Some? && i.runner.Gone? && Reconciled(w, i, secrets, order, f).1.Done?
    ensures
      var w' := Reconciled(w, i, secrets, order, f).0;
      && (i.req in w'.sets.stored ==> i.req in w'.sets.leaving)
      && (i.req in w'.objects.stored ==> i.req in w'.objects.leaving)
  {
  }

  // ---------------------------------------------------------------------------------------------
  // Errors

  /** An error while the set is synced does not keep the object from being synced: it is created or assigned, under
      the same url, unless its own calls fail. */
  lemma SetErrorStillSyncsObject(w: World, i: Input, secrets: map<Key, Secret>, order: seq<string>, f: Faults)
    requires i.core.Some? && i.runner.Fetched? && i.Valid() && SetReady(w.sets, i.req) && ObjectReady(w.objects, i.req)
    requires Validates(secrets, i.runner.resource, i.core.value.apiServerNamespace, f.validation)
    requires !f.objectGet && !f.objectCreate && !f.objectUpdate
    ensures ObjectsAssigned(Reconciled(w, i, secrets, order, f).0, i)
  {
    var r := i.runner.resource;
    var hash := HashOf(secrets, r.config, i.core.value.apiServerNamespace, f.secrets);
    ObjectFaultsDecide(w.objects, r.config, LabelsAfter(r.labels, hash), UrlFor(i), TriggerFor(i), f);
    ObjectTurnSyncs(w.objects, r.config, LabelsAfter(r.labels, hash), UrlFor(i), TriggerFor(i), 0);
  }

  lemma ObjectFaultsDecide(s: Store<Key, ObjectValue>, c: Config, labels: Option<StringMap>, url: string,
                           trigger: string, f: Faults)
    requires ObjectReady(s, KeyOf(c)) && !f.objectGet && !f.objectCreate && !f.objectUpdate
    ensures ObjectsAfter(s, c, labels, url, trigger, f) == ObjectsAfter(s, c, labels, url, trigger, NoFaults(0))
  {
  }

  /** Without a token in either place the set is not touched. */
  lemma MissingTokenTouchesNoSet(s: Store<Key, SetValue>, r: Resource, order: seq<string>, p: Patcher, f: Faults)
    requires SetReady(s, KeyOf(r.config))
    ensures SetsAfter(s, r.config, r.labels, TokenMissing, order, p, f) == (s, SyncError)
  {
  }

  /** A token that cannot be read for any other reason is taken for an empty fingerprint: without a patch, a set that
      is settled under its real one is deleted and recreated. */
  lemma UnreadableTokenRecreates(s: Store<Key, SetValue>, r: Resource, h: string, p: Patcher, t: Turn)
    requires SetQuick(s, KeyOf(r.config)) && AtRest(s, KeyOf(r.config)) && t.Valid(r.config) && p.Valid()
    requires r.config.patch == "" && KeyOf(r.config) in s.stored && h != ""
    requires Settled(s.stored[KeyOf(r.config)], r.config, h)
    ensures
      var (s', reply) := SetsAfter(s, r.config, r.labels, TokenUnreadable, t.order, p, NoFaults(t.lag));
      && reply == Synced(true) && s'.writes == s.writes + 2
      && KeyOf(r.config) in s'.stored && s'.stored[KeyOf(r.config)].Annotation("runner-secrets-hash") == ""
  {
    var v := s.stored[KeyOf(r.config)];
    SetTurn(s, r, "", p, t);
    KeepIff(v, r.config, "", t.order, p);
    WriteIsWritten(v, r.config, "", t.order, p);
  }

  /** The object is created with the resource's labels, and labelled as an action runner if the resource has any. */
  lemma CreatedObjectLabels(w: World, i: Input, hash: Hash, order: seq<string>, f: Faults)
    requires i.core.Some? && i.runner.Fetched? && i.Valid() && SetReady(w.sets, i.req) && ObjectReady(w.objects, i.req)
    requires w.objects.Seen(i.req).None? && !f.objectGet && !f.objectCreate && !hash.TokenMissing?
    ensures
      var after := Resynced(w, i, hash, order, f).0.objects;
      var mine := i.runner.resource.labels;
      && i.req in after.stored && after.stored[i.req].labels.Some? && after.stored[i.req].owner == Some(i.req.name)
      && var labels := after.stored[i.req].labels.value;
      if mine.None? then labels == map[]
      else labels.Keys == mine.value.Keys + {"app"} && labels["app"] == "action-runner"
           && forall l :: l in mine.value && l != "app" ==> labels[l] == mine.value[l]
  {
  }
}
