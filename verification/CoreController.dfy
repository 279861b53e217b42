/** operator/controllers/scaledactionrunnercore_controller.go: the two-pass deployment of the generated objects. */
module CoreController {
  import opened Wrappers
  import opened ApiServer

  /** Blank stands for the empty string. */
  datatype Kind =
    | Blank | Secret | ServiceAccount | StatefulSet | Service | Deployment | ClusterRole | ClusterRoleBinding
    | RoleBinding | APIService | ServiceMonitor | ClusterTriggerAuthentication

  datatype Ident = Ident(kind: Kind, namespace: string, name: string)

  /** A generated object: writing it through the client may blank the kind that it carries in memory. */
  datatype ObjValue = ObjValue(ident: Ident, kind: Kind, version: string, crdKey: Option<string>)

  /** What the server holds of an object. */
  datatype Stored = Stored(version: string, crdKey: Option<string>)

  type Objects = Store<Ident, Stored>

  /** How the calls made for one object fare. */
  datatype Answer = Answer(
    getFails: bool, updateFails: bool, deleteFails: bool, lag: nat, pollReads: nat, createFails: bool,
        version: string, blanksKind: bool)
  {
    /** The server gives every object that it writes a version. */
    predicate Valid() {
      version != ""
    }
  }

  const POLLS: nat := 300

  datatype Outcome = Failed | Unchanged | Changed

  function AfterWrite(o: ObjValue, a: Answer): ObjValue {
    o.(version := a.version, kind := if a.blanksKind then Blank else o.kind)
  }

  function Made(s: Objects, o: ObjValue, a: Answer): (r: (Objects, ObjValue, Outcome)) {
    if a.createFails || o.ident in s.stored then (s.Refused(), o, Failed)
    else (s.Created(o.ident, Stored(a.version, o.crdKey)), AfterWrite(o, a), Changed)
  }

  function Placed(s: Objects, o: ObjValue, a: Answer): (r: (Objects, ObjValue, Outcome)) {
    if a.getFails then (s, o, Failed)
    else
      var t := s.AfterGet(o.ident);
      match s.Seen(o.ident)
      case None => Made(t, o, a)
      case Some(current) =>
        if o.crdKey.Some? && current.crdKey == o.crdKey then (t, o, Unchanged)
        else if !a.updateFails then (t.Replaced(o.ident, Stored(a.version, o.crdKey)), AfterWrite(o, a), Changed)
        else
          var refused := t.Refused();
          var deleted := if a.deleteFails then refused.Refused() else refused.Deleted(o.ident, a.lag);
          Made(deleted.Polled(o.ident, PollsMade(POLLS, a.pollReads)), o.(version := ""), a)
  }

  class Obj {
    const ident: Ident
    var kind: Kind
    var version: string
    var crdKey: Option<string>

    constructor (ident: Ident)
      ensures Value() == ObjValue(ident, ident.kind, "", None)
    {
      this.ident, kind, version, crdKey := ident, ident.kind, "", None;
    }

    function Value(): ObjValue
      reads this
    {
      ObjValue(ident, kind, version, crdKey)
    }
  }

  class Cluster {
    var objects: Objects

    constructor (objects: Objects)
      ensures this.objects == objects
    {
      this.objects := objects;
    }
  }

  method Create(o: Obj, cluster: Cluster, a: Answer) returns (outcome: Outcome)
    modifies o, cluster
    ensures (cluster.objects, o.Value(), outcome) == Made(old(cluster.objects), old(o.Value()), a)
  {
    if a.createFails || o.ident in cluster.objects.stored {
      cluster.objects := cluster.objects.Refused();
      return Failed;
    }
    cluster.objects := cluster.objects.Created(o.ident, Stored(a.version, o.crdKey));
    o.version := a.version;
    o.kind := if a.blanksKind then Blank else o.kind;
    return Changed;
  }

  /** An error of a read, like a read that finds nothing, ends the wait. */
  method WaitUntilGone(ident: Ident, cluster: Cluster, answered: nat)
    modifies cluster
    ensures cluster.objects == old(cluster.objects).Polled(ident, PollsMade(POLLS, answered))
  {
    ghost var before, polls := cluster.objects, PollsMade(POLLS, answered);
    var exists_, iterations := true, 0;
    while exists_ && iterations < POLLS
      invariant iterations <= POLLS && (exists_ ==> iterations <= polls)
      invariant before.Polled(ident, polls) == if exists_ then cluster.objects.Polled(ident, polls - iterations)
          else cluster.objects
    {
      if iterations < answered {
        exists_ := cluster.objects.Seen(ident).Some?;
        cluster.objects := cluster.objects.AfterGet(ident);
      } else {
        exists_ := false;
      }
      iterations := iterations + 1;
    }
  }

  method CreateUpdateOrReplace(o: Obj, cluster: Cluster, a: Answer) returns (outcome: Outcome)
    modifies o, cluster
    ensures (cluster.objects, o.Value(), outcome) == Placed(old(cluster.objects), old(o.Value()), a)
  {
    if a.getFails {
      return Failed;
    }
    var found := cluster.objects.Seen(o.ident);
    cluster.objects := cluster.objects.AfterGet(o.ident);
    if found.Some? {
      if o.crdKey.Some? && found.value.crdKey == o.crdKey {
        return Unchanged;
      }
      o.version := found.value.version;
      if !a.updateFails {
        cluster.objects := cluster.objects.Replaced(o.ident, Stored(a.version, o.crdKey));
        o.version := a.version;
        o.kind := if a.blanksKind then Blank else o.kind;
        return Changed;
      }
      cluster.objects := cluster.objects.Refused();
      o.version := "";
      cluster.objects := if a.deleteFails then cluster.objects.Refused() else cluster.objects.Deleted(o.ident, a.lag);
      WaitUntilGone(o.ident, cluster, a.pollReads);
    }
    outcome := Create(o, cluster, a);
  }

  // ---------------------------------------------------------------------------------------------
  // The two passes

  predicate IsPreReq(kind: Kind) {
    kind == Secret || kind == ServiceAccount
  }

  /** Another pass's object, or one that was written before and lost its kind. */
  predicate Skipped(o: ObjValue, preReqsOnly: bool) {
    preReqsOnly != IsPreReq(o.kind) || (o.kind == Blank && o.version != "")
  }

  /** The state of a pass: `handled` lists the objects that were placed, also the last one if it failed. */
  datatype Pass = Pass(objects: Objects, objs: seq<ObjValue>, handled: seq<nat>, changed: bool, failed: bool)

  function Visit(p: Pass, i: nat, a: Answer, preReqsOnly: bool): (r: Pass)
    requires i < |p.objs|
    ensures |r.objs| == |p.objs|
  {
    if p.failed || Skipped(p.objs[i], preReqsOnly) then p
    else
      var (objects, o, outcome) := Placed(p.objects, p.objs[i], a);
      Pass(objects, p.objs[i := o], p.handled + [i], p.changed || outcome == Changed, outcome == Failed)
  }

  /** The pass after the first n objects. */
  function Visited(p: Pass, n: nat, answers: seq<Answer>, preReqsOnly: bool): (r: Pass)
    requires n <= |p.objs| == |answers|
    ensures |r.objs| == |p.objs|
  {
    if n == 0 then p else Visit(Visited(p, n - 1, answers, preReqsOnly), n - 1, answers[n - 1], preReqsOnly)
  }

  function Start(objects: Objects, objs: seq<ObjValue>): Pass {
    Pass(objects, objs, [], false, false)
  }

  /** Both passes; the second is not started if the first fails. */
  function Deployed(objects: Objects, objs: seq<ObjValue>, answers: seq<Answer>): (r: Pass)
    requires |objs| == |answers|
    ensures |r.objs| == |objs|
  {
    var first := Visited(Start(objects, objs), |objs|, answers, true);
    Visited(first, |objs|, answers, false)
  }

  function Values(objs: seq<Obj>): (r: seq<ObjValue>)
    reads objs
  {
    seq(|objs|, i requires 0 <= i < |objs| reads objs => objs[i].Value())
  }

  ghost predicate Distinct(objs: seq<Obj>) {
    forall i, j :: 0 <= i < j < |objs| ==> objs[i] != objs[j]
  }

  method VisitObject(objs: seq<Obj>, i: nat, cluster: Cluster, a: Answer, preReqsOnly: bool, ghost p: Pass)
      returns (changed: bool, failed: bool)
    requires i < |objs| && Distinct(objs) && !p.failed && p.objects == cluster.objects && p.objs == Values(objs)
    modifies objs[i], cluster
    ensures
      var r := Visit(p, i, a, preReqsOnly);
      && r.objects == cluster.objects && r.objs == Values(objs)
      && failed == r.failed && (r.changed <==> p.changed || changed)
  {
    var k := objs[i].kind;
    var isPreReq := k == Secret || k == ServiceAccount;
    var alreadyCreated := k == Blank && objs[i].version != "";
    if preReqsOnly != isPreReq || alreadyCreated {
      return false, false;
    }
    var outcome := CreateUpdateOrReplace(objs[i], cluster, a);
    assert Values(objs) == p.objs[i := objs[i].Value()];
    return outcome == Changed, outcome == Failed;
  }

  method Deploy(objs: seq<Obj>, cluster: Cluster, answers: seq<Answer>, preReqsOnly: bool, ghost p: Pass)
      returns (c: bool, failed: bool)
    requires Distinct(objs) && |objs| == |answers|
    requires !p.failed && p.objects == cluster.objects && p.objs == Values(objs)
    modifies objs, cluster
    ensures
      var r := Visited(p, |objs|, answers, preReqsOnly);
      && r.objects == cluster.objects && r.objs == Values(objs)
      && failed == r.failed && (!failed ==> (r.changed <==> p.changed || c))
  {
    c := false;
    for i := 0 to |objs|
      invariant
        var r := Visited(p, i, answers, preReqsOnly);
        && r.objects == cluster.objects && r.objs == Values(objs)
        && !r.failed && (r.changed <==> p.changed || c)
    {
      var objChanged;
      objChanged, failed := VisitObject(objs, i, cluster, answers[i], preReqsOnly, Visited(p, i, answers, preReqsOnly));
      if failed {
        FailedStays(p, i + 1, |objs|, answers, preReqsOnly);
        return false, true;
      }
      c := c || objChanged;
    }
    failed := false;
  }

  lemma {:induction false} FailedStays(p: Pass, m: nat, n: nat, answers: seq<Answer>, preReqsOnly: bool)
    requires m <= n <= |p.objs| == |answers|
    requires Visited(p, m, answers, preReqsOnly).failed
    ensures Visited(p, n, answers, preReqsOnly) == Visited(p, m, answers, preReqsOnly)
  {
    if m < n {
      FailedStays(p, m, n - 1, answers, preReqsOnly);
    }
  }

  datatype Result = Error | Done(requeue: bool)

  method Reconcile(objs: seq<Obj>, cluster: Cluster, answers: seq<Answer>) returns (result: Result)
    requires Distinct(objs) && |objs| == |answers|
    modifies objs, cluster
    ensures
      var r := Deployed(old(cluster.objects), old(Values(objs)), answers);
      && r.objects == cluster.objects && r.objs == Values(objs)
      && result == if r.failed then Error else Done(r.changed)
  {
    ghost var start := Start(cluster.objects, Values(objs));
    var c1, failed := Deploy(objs, cluster, answers, true, start);
    ghost var first := Visited(start, |objs|, answers, true);
    if failed {
      FailedPassStops(first, |objs|, answers, false);
      return Error;
    }
    var c2;
    c2, failed := Deploy(objs, cluster, answers, false, first);
    if failed {
      return Error;
    }
    return Done(c1 || c2);
  }

  lemma {:induction false} FailedPassStops(p: Pass, n: nat, answers: seq<Answer>, preReqsOnly: bool)
    requires n <= |p.objs| == |answers| && p.failed
    ensures Visited(p, n, answers, preReqsOnly) == p
  {
    if n > 0 {
      FailedPassStops(p, n - 1, answers, preReqsOnly);
    }
  }
}
