/** operator/controllers/scaledactionrunner_controller.go, syncStatefulSet: what a reconcile decides about the
    StatefulSet, and what becomes of it over a run of reconciles. */
module SetSync {
  import opened Wrappers
  import opened KubeTypes
  import opened EnvVars
  import opened SarGenerator
  import opened SetUpdates

  datatype Decision = Broken | Keep | Write(v: SetValue)

  /** The set that the patch is applied to. */
  ghost function Unpatched(v: SetValue, c: Config, secretsHash: string, order: seq<string>): SetValue
    requires v.HasShape()
  {
    if Settled(v, c, secretsHash) then v else Updated(v, c, secretsHash, order)
  }

  /** The patch writes into an annotation map, which only an empty secrets hash leaves nil. */
  predicate Patchable(v: SetValue, c: Config, secretsHash: string) {
    c.patch != "" && secretsHash == "" ==> v.annotations.Some?
  }

  ghost function Decide(v: SetValue, c: Config, secretsHash: string, order: seq<string>, p: Patcher): Decision
    requires v.HasShape()
  {
    var u := Unpatched(v, c, secretsHash, order);
    match Patched(u, c, p)
    case PatchFailed => Broken
    case NotPatched(hash) =>
      if v.annotations.Some? && hash != "" && hash == v.Annotation(PATCH_HASH) then Keep
      else if Settled(v, c, secretsHash) then Keep
      else Write(u)
    case PatchedTo(w, hash) =>
      if v.annotations.Some? && hash != "" && hash == v.Annotation(PATCH_HASH) then Keep else Write(w)
  }

  function DecideNew(c: Config, labels: Option<StringMap>, secretsHash: string, order: seq<string>,
      p: Patcher): Decision {
    var g := Generated(c, labels, secretsHash, order).(owner := Some(c.name));
    match Patched(g, c, p)
    case PatchFailed => Broken
    case NotPatched(_) => Write(g)
    case PatchedTo(w, _) => Write(w)
  }

  const NO_VERSION: string := "0x0"

  // ---------------------------------------------------------------------------------------------
  // Patches

  /** What the update path makes of a spec. */
  ghost function Refreshed(s: SetSpec, c: Config, order: seq<string>): SetSpec
    requires s.containers != [] && s.claims != []
  {
    if SpecSettled(s, c) then s else UpdatedSpec(s, c, order)
  }

  /** Patching, updating and patching again gives the spec that patching once gave. */
  ghost predicate Repeatable(s: SetSpec, c: Config, order: seq<string>, p: Patcher) {
    match p.apply(s)
    case None => true
    case Some(t) =>
      && t.containers != [] && t.claims != []
      && var again := p.apply(Refreshed(t, c, order));
      again.Some? && SameUpToReplicas(again.value, t)
  }

  ghost predicate StablePatch(c: Config, p: Patcher) {
    c.patch != "" ==>
      forall s, order :: SpecSettled(s, c) && IsOrder(order, DesiredEnv(c)) ==> Repeatable(s, c, order, p)
  }

  // ---------------------------------------------------------------------------------------------
  // One reconcile

  ghost predicate HashMatches(v: SetValue, c: Config, secretsHash: string, order: seq<string>, p: Patcher)
    requires v.HasShape()
  {
    var spec := p.apply(Unpatched(v, c, secretsHash, order).spec);
    spec.Some? && v.Annotation(PATCH_HASH) == p.hash(spec.value)
  }

  /** A set is left alone exactly when it needs no update and there is no patch, or the hash of the patched
      spec is the one it is annotated with: a patch hides everything the update path tracks. */
  lemma KeepIff(v: SetValue, c: Config, secretsHash: string, order: seq<string>, p: Patcher)
    requires v.HasShape() && p.Valid()
    ensures
      Decide(v, c, secretsHash, order, p) == Keep <==>
      if c.patch == "" then Settled(v, c, secretsHash) else HashMatches(v, c, secretsHash, order, p)
  {
  }

  lemma UnpatchedKeepsAnnotations(v: SetValue, c: Config, secretsHash: string, order: seq<string>)
    requires v.HasShape()
    ensures Unpatched(v, c, secretsHash, order).Annotation(PATCH_HASH) == v.Annotation(PATCH_HASH)
  {
  }

  lemma UnpatchedIsSettled(v: SetValue, c: Config, secretsHash: string, order: seq<string>)
    requires v.HasShape() && IsOrder(order, DesiredEnv(c))
    ensures Unpatched(v, c, secretsHash, order).HasShape()
        && Settled(Unpatched(v, c, secretsHash, order), c, secretsHash)
  {
    if !Settled(v, c, secretsHash) {
      UpdateSettles(v, c, secretsHash, order);
    }
  }

  /** What a reconcile writes: a settled set, or the patched spec of one, annotated with its hash. */
  ghost predicate Written(w: SetValue, u: SetValue, c: Config, secretsHash: string, p: Patcher) {
    && u.HasShape() && Settled(u, c, secretsHash)
    && if c.patch == "" then w == u
       else
         p.apply(u.spec).Some?
         && w == WithAnnotation(u, PATCH_HASH, p.hash(p.apply(u.spec).value)).(spec := p.apply(u.spec).value)
  }

  lemma WriteIsWritten(v: SetValue, c: Config, secretsHash: string, order: seq<string>, p: Patcher)
    requires v.HasShape() && IsOrder(order, DesiredEnv(c)) && p.Valid()
    requires Decide(v, c, secretsHash, order, p).Write?
    ensures Written(Decide(v, c, secretsHash, order, p).v, Unpatched(v, c, secretsHash, order), c, secretsHash, p)
  {
    UnpatchedIsSettled(v, c, secretsHash, order);
    UnpatchedKeepsAnnotations(v, c, secretsHash, order);
  }

  /** A replacement always differs from what it replaces. */
  lemma WriteChanges(v: SetValue, c: Config, secretsHash: string, order: seq<string>, p: Patcher)
    requires v.HasShape() && IsOrder(order, DesiredEnv(c)) && p.Valid()
    requires Decide(v, c, secretsHash, order, p).Write?
    ensures Decide(v, c, secretsHash, order, p).v.(resourceVersion := NO_VERSION) != v
  {
    WriteIsWritten(v, c, secretsHash, order, p);
    var w, u := Decide(v, c, secretsHash, order, p).v, Unpatched(v, c, secretsHash, order);
    WrittenNames(w, u, c, secretsHash, p);
    KeepIff(v, c, secretsHash, order, p);
  }

  lemma NewIsWritten(c: Config, labels: Option<StringMap>, secretsHash: string, order: seq<string>, p: Patcher)
    requires IsOrder(order, DesiredEnv(c)) && p.Valid()
    requires DecideNew(c, labels, secretsHash, order, p).Write?
    ensures
      var g := Generated(c, labels, secretsHash, order).(owner := Some(c.name));
      Written(DecideNew(c, labels, secretsHash, order, p).v, g, c, secretsHash, p)
  {
    GeneratedIsSettled(c, labels, secretsHash, order, Some(c.name));
    var g := Generated(c, labels, secretsHash, order).(owner := Some(c.name));
    assert g.Annotation(PATCH_HASH) == "";
  }

  lemma WrittenNames(w: SetValue, u: SetValue, c: Config, secretsHash: string, p: Patcher)
    requires Written(w, u, c, secretsHash, p)
    ensures w.name == c.name && w.namespace == c.namespace && w.Annotation(SECRETS_HASH) == secretsHash
    ensures c.patch != "" ==> w.Annotation(PATCH_HASH) == p.hash(w.spec) && w.Annotation("patch-hash") == p.hash(w.spec)
    ensures Settled(w, c, secretsHash) <==> SpecSettled(w.spec, c)
  {
  }

  /** Exactly when the reconcile after a write is silent. */
  lemma WrittenIsKeptIff(w: SetValue, u: SetValue, c: Config, secretsHash: string, version: string,
      order: seq<string>, p: Patcher)
    requires Written(w, u, c, secretsHash, p) && w.HasShape() && p.Valid()
    ensures
      Decide(w.(resourceVersion := version), c, secretsHash, order, p) == Keep <==>
      (c.patch != "" ==>
        var again := p.apply(Refreshed(w.spec, c, order));
        again.Some? && p.hash(again.value) == p.hash(w.spec))
  {
    WrittenNames(w, u, c, secretsHash, p);
    var w' := w.(resourceVersion := version);
    assert Settled(w', c, secretsHash) <==> Settled(w, c, secretsHash);
    KeepIff(w', c, secretsHash, order, p);
    if c.patch != "" {
      assert Unpatched(w', c, secretsHash, order).spec == Refreshed(w.spec, c, order);
    }
  }

  /** In sync: silent whatever order the next reconcile meets the environment in. */
  ghost predicate InSync(v: SetValue, c: Config, secretsHash: string, p: Patcher) {
    && v.HasShape() && v.name == c.name && v.namespace == c.namespace
    && forall order :: IsOrder(order, DesiredEnv(c)) ==> Decide(v, c, secretsHash, order, p) == Keep
  }

  /** With no patch or a repeatable one, what a reconcile writes is in sync. */
  lemma WrittenIsInSync(w: SetValue, u: SetValue, c: Config, secretsHash: string, version: string, p: Patcher)
    requires Written(w, u, c, secretsHash, p) && p.Valid() && StablePatch(c, p)
    requires exists order :: IsOrder(order, DesiredEnv(c))
    ensures w.HasShape() && InSync(w.(resourceVersion := version), c, secretsHash, p)
  {
    WrittenNames(w, u, c, secretsHash, p);
    var order0 :| IsOrder(order0, DesiredEnv(c));
    assert c.patch != "" ==> Repeatable(u.spec, c, order0, p);
    var w' := w.(resourceVersion := version);
    forall order | IsOrder(order, DesiredEnv(c)) ensures Decide(w', c, secretsHash, order, p) == Keep {
      WrittenIsKeptIff(w, u, c, secretsHash, version, order, p);
      if c.patch != "" {
        assert Repeatable(u.spec, c, order, p);
      }
    }
  }
}
