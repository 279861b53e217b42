/** Runs of reconciles of one StatefulSet, with the resource, its configuration and its secrets unchanged. */
module SetRuns {
  import opened Wrappers
  import opened KubeTypes
  import opened EnvVars
  import opened EnvOrders
  import opened SarGenerator
  import opened SetUpdates
  import opened SetSync
  import opened Strings

  /** What stays the same over a run. */
  datatype Fixed = Fixed(c: Config, labels: Option<StringMap>, secretsHash: string, p: Patcher)

  /** What is deployed, if anything, and one reconcile of it. */
  type Deployed = Option<SetValue>

  ghost function Step(d: Deployed, f: Fixed, order: seq<string>): Decision
    requires d.Some? ==> d.value.HasShape()
  {
    match d
    case None => DecideNew(f.c, f.labels, f.secretsHash, order, f.p)
    case Some(v) => Decide(v, f.c, f.secretsHash, order, f.p)
  }

  /** A replacement is stored under a version of its own. */
  function Then(d: Deployed, decision: Decision): Deployed {
    if !decision.Write? then d
    else if d.None? then Some(decision.v)
    else Some(decision.v.(resourceVersion := NO_VERSION))
  }

  /** A deployment without the container or the claim that the code indexes ends the run: it panics. */
  ghost function Writes(d: Deployed, f: Fixed, orders: seq<seq<string>>): nat
    decreases |orders|
  {
    if orders == [] || (d.Some? && !d.value.HasShape()) then 0
    else
      var decision := Step(d, f, orders[0]);
      (if decision.Write? then 1 else 0) + Writes(Then(d, decision), f, orders[1..])
  }

  ghost predicate Orders(orders: seq<seq<string>>, f: Fixed) {
    forall i :: 0 <= i < |orders| ==> IsOrder(orders[i], DesiredEnv(f.c))
  }

  lemma StepIsWritten(d: Deployed, f: Fixed, order: seq<string>) returns (u: SetValue)
    requires (d.Some? ==> d.value.HasShape()) && IsOrder(order, DesiredEnv(f.c)) && f.p.Valid()
    requires Step(d, f, order).Write?
    ensures Written(Step(d, f, order).v, u, f.c, f.secretsHash, f.p)
  {
    match d
    case None =>
      NewIsWritten(f.c, f.labels, f.secretsHash, order, f.p);
      u := Generated(f.c, f.labels, f.secretsHash, order).(owner := Some(f.c.name));
    case Some(v) =>
      WriteIsWritten(v, f.c, f.secretsHash, order, f.p);
      u := Unpatched(v, f.c, f.secretsHash, order);
  }

  /** After a write the deployment is in sync. */
  lemma StepSyncs(d: Deployed, f: Fixed, order: seq<string>)
    requires (d.Some? ==> d.value.HasShape()) && IsOrder(order, DesiredEnv(f.c)) && f.p.Valid() && StablePatch(f.c, f.p)
    requires Step(d, f, order).Write?
    ensures InSync(Then(d, Step(d, f, order)).value, f.c, f.secretsHash, f.p)
  {
    var u := StepIsWritten(d, f, order);
    var w := Step(d, f, order).v;
    var version := if d.None? then w.resourceVersion else NO_VERSION;
    WrittenIsInSync(w, u, f.c, f.secretsHash, version, f.p);
    assert w.(resourceVersion := w.resourceVersion) == w;
  }

  lemma {:induction false} InSyncStaysSilent(v: SetValue, f: Fixed, orders: seq<seq<string>>)
    requires Orders(orders, f) && InSync(v, f.c, f.secretsHash, f.p)
    ensures Writes(Some(v), f, orders) == 0
  {
    if orders != [] {
      InSyncStaysSilent(v, f, orders[1..]);
    }
  }

  /** No churn: with no patch or a repeatable one, a run of any length writes the StatefulSet at most once,
      from any deployment and whatever orders the environment is met in. */
  lemma {:induction false} AtMostOneWrite(d: Deployed, f: Fixed, orders: seq<seq<string>>)
    requires Orders(orders, f) && f.p.Valid() && StablePatch(f.c, f.p)
    ensures Writes(d, f, orders) <= 1
  {
    if orders != [] && (d.Some? ==> d.value.HasShape()) {
      var decision := Step(d, f, orders[0]);
      if decision.Write? {
        StepSyncs(d, f, orders[0]);
        InSyncStaysSilent(Then(d, decision).value, f, orders[1..]);
      } else {
        AtMostOneWrite(d, f, orders[1..]);
      }
    }
  }

  // ---------------------------------------------------------------------------------------------
  // The second reconcile

  /** The variables that an update would append to the first container. */
  ghost function AbsentFrom(v: SetValue, c: Config): set<string>
    requires v.HasShape()
  {
    Absent(FirstContainer(v.spec).env, DesiredEnv(c))
  }

  /** With at most one variable to append, the decision does not depend on the order; a settled set lacks none. */
  lemma DecisionIgnoresOrder(v: SetValue, c: Config, secretsHash: string, order: seq<string>, order': seq<string>,
      p: Patcher)
    requires v.HasShape() && IsOrder(order, DesiredEnv(c)) && IsOrder(order', DesiredEnv(c))
    requires |AbsentFrom(v, c)| <= 1
    ensures Decide(v, c, secretsHash, order, p) == Decide(v, c, secretsHash, order', p)
  {
    OrderIsHidden(FirstContainer(v.spec).env, DesiredEnv(c), order, order');
  }

  lemma SettledLacksNothing(v: SetValue, c: Config, secretsHash: string)
    requires v.HasShape() && Settled(v, c, secretsHash)
    ensures AbsentFrom(v, c) == {}
  {
  }

  /** Convergence: the second reconcile is silent, if the first one wrote, or there is no patch, or the set
      lacked at most one variable. */
  lemma SecondIsSilent(d: Deployed, f: Fixed, first: seq<string>, second: seq<string>)
    requires d.Some? ==> d.value.HasShape()
    requires IsOrder(first, DesiredEnv(f.c)) && IsOrder(second, DesiredEnv(f.c)) && f.p.Valid() && StablePatch(f.c, f.p)
    requires !Step(d, f, first).Broken?
    requires Step(d, f, first).Write? || f.c.patch == "" || |AbsentFrom(d.value, f.c)| <= 1
    ensures
      var d' := Then(d, Step(d, f, first));
      d'.Some? && d'.value.HasShape() && Step(d', f, second) == Keep
  {
    if Step(d, f, first).Write? {
      StepSyncs(d, f, first);
    } else if f.c.patch == "" {
      KeepIff(d.value, f.c, f.secretsHash, first, f.p);
      KeepIff(d.value, f.c, f.secretsHash, second, f.p);
    } else {
      DecisionIgnoresOrder(d.value, f.c, f.secretsHash, first, second, f.p);
    }
  }

  predicate DifferentEnvNames(s: SetSpec, t: SetSpec) {
    s.containers != [] && t.containers != [] && NamesOf(s.containers[0].env) != NamesOf(t.containers[0].env)
  }

  /** A patch and a digest that between them keep the names of the first container's variables apart. */
  ghost predicate TellsOrdersApart(p: Patcher) {
    forall s, t :: p.apply(s).Some? && p.apply(t).Some? && DifferentEnvNames(s, t) ==>
      p.hash(p.apply(s).value) != p.hash(p.apply(t).value)
  }

  /** Without a write, a silent reconcile says nothing about the next one: annotated with the hash of one patched
      update, an unsettled set is kept in that order and replaced in any order with another hash. */
  lemma SilentThenWrites(v: SetValue, c: Config, secretsHash: string, first: seq<string>, second: seq<string>,
      p: Patcher)
    requires v.HasShape() && !Settled(v, c, secretsHash) && p.Valid() && c.patch != ""
    requires p.apply(UpdatedSpec(v.spec, c, first)).Some? && p.apply(UpdatedSpec(v.spec, c, second)).Some?
    ensures
      var hash, hash' := p.hash(p.apply(UpdatedSpec(v.spec, c, first)).value),
          p.hash(p.apply(UpdatedSpec(v.spec, c, second)).value);
      var w := WithAnnotation(v, PATCH_HASH, hash);
      && Decide(w, c, secretsHash, first, p) == Keep
      && (Decide(w, c, secretsHash, second, p).Write? <==> hash != hash')
  {
    var w := WithAnnotation(v, PATCH_HASH, p.hash(p.apply(UpdatedSpec(v.spec, c, first)).value));
    AnnotationKeepsUnsettled(v, c, secretsHash, w.Annotation(PATCH_HASH));
    KeepIff(w, c, secretsHash, first, p);
    KeepIff(w, c, secretsHash, second, p);
  }

  lemma AnnotationKeepsUnsettled(v: SetValue, c: Config, secretsHash: string, hash: string)
    requires v.HasShape() && !Settled(v, c, secretsHash)
    ensures
      var w := WithAnnotation(v, PATCH_HASH, hash);
      w.HasShape() && !Settled(w, c, secretsHash) && w.spec == v.spec && w.Annotation(PATCH_HASH) == hash
  {
    assert PATCH_HASH != SECRETS_HASH;
  }

  /** A set that a patch keeps and that lacks two variables or more is not kept in some other order. */
  lemma SomeOrderIsNotKept(v: SetValue, c: Config, secretsHash: string, order: seq<string>, p: Patcher)
      returns (order': seq<string>)
    requires v.HasShape() && p.Valid() && TellsOrdersApart(p) && c.patch != "" && IsOrder(order, DesiredEnv(c))
    requires Decide(v, c, secretsHash, order, p) == Keep && |AbsentFrom(v, c)| >= 2
    ensures IsOrder(order', DesiredEnv(c)) && Decide(v, c, secretsHash, order', p) != Keep
  {
    order' := OrderShows(FirstContainer(v.spec).env, DesiredEnv(c), order);
    UnsettledUpdate(v, c, secretsHash);
    KeepIff(v, c, secretsHash, order, p);
    KeepIff(v, c, secretsHash, order', p);
    assert DifferentEnvNames(UpdatedSpec(v.spec, c, order), UpdatedSpec(v.spec, c, order'));
  }

  lemma UnsettledUpdate(v: SetValue, c: Config, secretsHash: string)
    requires v.HasShape() && |AbsentFrom(v, c)| >= 2
    ensures !Settled(v, c, secretsHash)
    ensures forall order :: Unpatched(v, c, secretsHash, order).spec == UpdatedSpec(v.spec, c, order)
  {
    if Settled(v, c, secretsHash) {
      SettledLacksNothing(v, c, secretsHash);
    }
  }

  /** Kept once under a patch, a set is kept in every order exactly when it lacks at most one variable. */
  lemma KeptInEveryOrderIff(v: SetValue, c: Config, secretsHash: string, order: seq<string>, p: Patcher)
    requires v.HasShape() && p.Valid() && TellsOrdersApart(p) && c.patch != "" && IsOrder(order, DesiredEnv(c))
    requires Decide(v, c, secretsHash, order, p) == Keep
    ensures
      (forall order' :: IsOrder(order', DesiredEnv(c)) ==> Decide(v, c, secretsHash, order', p) == Keep) <==>
      |AbsentFrom(v, c)| <= 1
  {
    if |AbsentFrom(v, c)| <= 1 {
      forall order' | IsOrder(order', DesiredEnv(c)) ensures Decide(v, c, secretsHash, order', p) == Keep {
        DecisionIgnoresOrder(v, c, secretsHash, order, order', p);
      }
    } else {
      var order' := SomeOrderIsNotKept(v, c, secretsHash, order, p);
    }
  }

  function EnvDigest(s: SetSpec): string {
    if s.containers == [] then "-" else Digest(NamesOf(s.containers[0].env))
  }

  /** There is such a digest, and with it the patch that changes nothing is a repeatable one. */
  lemma EnvPatcher(c: Config) returns (p: Patcher)
    ensures p.Valid() && TellsOrdersApart(p) && StablePatch(c, p)
  {
    p := Patcher((s: SetSpec) => Some(s), EnvDigest);
    forall s, t | DifferentEnvNames(s, t) ensures EnvDigest(s) != EnvDigest(t) {
      if EnvDigest(s) == EnvDigest(t) {
        DigestInjective(NamesOf(s.containers[0].env), NamesOf(t.containers[0].env));
      }
    }
  }

  // ---------------------------------------------------------------------------------------------
  // Patches that append

  predicate OneMore(s: SetSpec, t: SetSpec) {
    |t.containers| == |s.containers| + 1
  }

  function Appended(s: SetSpec, k: Container): SetSpec {
    s.(containers := s.containers + [k])
  }

  /** A patch that appends a container, and a digest that can count containers. */
  ghost predicate Appends(p: Patcher, k: Container) {
    && (forall s :: p.apply(s) == Some(Appended(s, k)))
    && (forall s, t :: OneMore(s, t) ==> p.hash(s) != p.hash(t))
  }

  lemma AppendPatcher(k: Container) returns (p: Patcher)
    ensures p.Valid() && Appends(p, k)
  {
    p := Patcher(s => Some(Appended(s, k)), (s: SetSpec) => Decimal(|s.containers|));
    forall s, t | OneMore(s, t) ensures p.hash(s) != p.hash(t) {
      if p.hash(s) == p.hash(t) {
        DecimalInjective(|s.containers|, |t.containers|);
      }
    }
    forall s ensures p.hash(s) != "" { assert |Decimal(|s.containers|)| > 0; }
  }

  lemma AppendedSetIsReplaced(w: SetValue, u: SetValue, f: Fixed, k: Container, version: string, order: seq<string>)
      returns (u': SetValue)
    requires IsOrder(order, DesiredEnv(f.c)) && f.p.Valid() && f.c.patch != "" && Appends(f.p, k)
    requires Written(w, u, f.c, f.secretsHash, f.p)
    ensures w.HasShape()
    ensures
      var d := Step(Some(w.(resourceVersion := version)), f, order);
      d.Write? && Written(d.v, u', f.c, f.secretsHash, f.p)
  {
    assert w.HasShape();
    var w' := w.(resourceVersion := version);
    WrittenIsKeptIff(w, u, f.c, f.secretsHash, version, order, f.p);
    var r := Refreshed(w.spec, f.c, order);
    assert |r.containers| == |w.spec.containers|;
    assert OneMore(w.spec, Appended(r, k)) && f.p.apply(r) == Some(Appended(r, k));
    u' := StepIsWritten(Some(w'), f, order);
  }

  lemma {:induction false} AppendedSetChurns(w: SetValue, u: SetValue, f: Fixed, k: Container, version: string,
      orders: seq<seq<string>>)
    requires Orders(orders, f) && f.p.Valid() && f.c.patch != "" && Appends(f.p, k)
    requires Written(w, u, f.c, f.secretsHash, f.p)
    ensures w.HasShape() && Writes(Some(w.(resourceVersion := version)), f, orders) == |orders|
    decreases |orders|
  {
    if orders == [] {
      assert w.HasShape();
    } else {
      var u' := AppendedSetIsReplaced(w, u, f, k, version, orders[0]);
      AppendedSetChurns(Step(Some(w.(resourceVersion := version)), f, orders[0]).v, u', f, k, NO_VERSION, orders[1..]);
    }
  }

  /** Such a patch is applied again to its own result, so every reconcile deletes and recreates the set. */
  lemma {:induction false} AppendPatchNeverSettles(f: Fixed, k: Container, orders: seq<seq<string>>)
    requires Orders(orders, f) && f.p.Valid() && f.c.patch != "" && Appends(f.p, k)
    ensures Writes(None, f, orders) == |orders|
  {
    if orders != [] {
      assert Step(None, f, orders[0]).Write?;
      var u := StepIsWritten(None, f, orders[0]);
      var w := Step(None, f, orders[0]).v;
      AppendedSetChurns(w, u, f, k, w.resourceVersion, orders[1..]);
      assert w.(resourceVersion := w.resourceVersion) == w;
    }
  }

  // ---------------------------------------------------------------------------------------------
  // Secrets

  /** To the patch and its digest, the update of a spec makes no difference. */
  ghost predicate UpdateIsInvisible(s: SetSpec, c: Config, order: seq<string>, p: Patcher)
    requires s.containers != [] && s.claims != []
  {
    var plain, updated := p.apply(s), p.apply(UpdatedSpec(s, c, order));
    plain.Some? && updated.Some? && p.hash(plain.value) == p.hash(updated.value)
  }

  /** A deployment kept under one secrets hash is replaced under another, if there is no patch. Under a patch it is
      kept, unless one of the two hashes is the one it is annotated with and the update that the other one calls for
      shows in the digest. The empty hash, used when the token cannot be read, is no exception. */
  lemma RotationReplacesIff(v: SetValue, c: Config, h1: string, h2: string, order: seq<string>, p: Patcher)
    requires v.HasShape() && p.Valid() && h1 != h2
    requires Decide(v, c, h1, order, p) == Keep
    ensures c.patch == "" ==> Decide(v, c, h2, order, p).Write?
    ensures
      Decide(v, c, h2, order, p) == Keep <==>
      && c.patch != ""
      && ((Settled(v, c, h1) <==> Settled(v, c, h2)) || UpdateIsInvisible(v.spec, c, order, p))
  {
    KeepIff(v, c, h1, order, p);
    KeepIff(v, c, h2, order, p);
    if c.patch == "" {
      assert !Settled(v, c, h2);
    } else {
      UnpatchedSpec(v, c, h1, order);
      UnpatchedSpec(v, c, h2, order);
    }
  }

  lemma UnpatchedSpec(v: SetValue, c: Config, secretsHash: string, order: seq<string>)
    requires v.HasShape()
    ensures Unpatched(v, c, secretsHash, order).spec == if Settled(v, c, secretsHash) then v.spec
        else UpdatedSpec(v.spec, c, order)
  {
  }
}
