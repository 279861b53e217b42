/** operator/coregenerator/coregenerator.go: which objects are generated for a core, and the key they carry. */
module CoreGenerator {
  import opened Wrappers
  import opened CoreController
  import opened CoreRuns

  datatype CoreSpec = CoreSpec(
    apiServerName: string, apiServerNamespace: string, createApiServer: bool,
    createMemcached: bool, memcachedAuth: bool, memcacheCredsSecret: string,
    prometheusNamespace: string, createAuthentication: bool, kedaNamespace: string)

  function Memcached(c: CoreSpec): seq<Ident> {
    if !c.createMemcached then []
    else
      var name := c.apiServerName + "-cache";
      [Ident(Kind.StatefulSet, c.apiServerNamespace, name), Ident(Kind.Service, c.apiServerNamespace, name)]
      + if c.memcachedAuth && c.memcacheCredsSecret == "" then [Ident(Kind.Secret, c.apiServerNamespace, name)] else []
  }

  function MetricsApiServer(c: CoreSpec): seq<Ident> {
    if !c.createApiServer then []
    else [
      Ident(Kind.Deployment, c.apiServerNamespace, c.apiServerName),
      Ident(Kind.Service, c.apiServerNamespace, c.apiServerName),
      Ident(Kind.ServiceAccount, c.apiServerNamespace, c.apiServerName),
      Ident(Kind.ClusterRole, "", "aggregated-apiserver-clusterrole"),
      Ident(Kind.ClusterRoleBinding, "", c.apiServerName + ":system:auth-delegator"),
      Ident(Kind.ClusterRoleBinding, "", c.apiServerName + ":apiserver-clusterrolebinding"),
      Ident(Kind.ClusterRoleBinding, "", c.apiServerName + ":operator-scaledactionrunner-viewer-role"),
      Ident(Kind.RoleBinding, "kube-system", c.apiServerName + ":extension-apiserver-authentication-reader"),
      Ident(Kind.APIService, "", "v1beta1.custom.metrics.k8s.io")]
  }

  function ServiceMonitor(c: CoreSpec): seq<Ident> {
    if c.prometheusNamespace == "" then [] else [Ident(Kind.ServiceMonitor, c.prometheusNamespace, c.apiServerName)]
  }

  function AuthTrigger(c: CoreSpec): seq<Ident> {
    if !c.createAuthentication then [] else [Ident(Kind.ClusterTriggerAuthentication, c.kedaNamespace, c.apiServerName)]
  }

  function Idents(c: CoreSpec): seq<Ident> {
    Memcached(c) + MetricsApiServer(c) + ServiceMonitor(c) + AuthTrigger(c)
  }

  function Keyed(idents: seq<Ident>, key: Option<string>): (objs: seq<ObjValue>)
    ensures |objs| == |idents|
  {
    seq(|idents|, i requires 0 <= i < |idents| => ObjValue(idents[i], idents[i].kind, "", key))
  }

  method New(idents: seq<Ident>) returns (objs: seq<Obj>)
    ensures fresh(objs) && Distinct(objs) && Values(objs) == Keyed(idents, None)
  {
    objs := [];
    for i := 0 to |idents|
      invariant |objs| == i && fresh(objs) && Distinct(objs)
      invariant forall j :: 0 <= j < i ==> objs[j].Value() == ObjValue(idents[j], idents[j].kind, "", None)
    {
      var o := new Obj(idents[i]);
      assert o !in objs;
      objs := objs + [o];
    }
  }

  /** Every object of the list gets the key. */
  method SetKey(objs: seq<Obj>, key: string)
    requires Distinct(objs)
    modifies objs
    ensures forall i :: 0 <= i < |objs| ==> objs[i].Value() == old(objs[i].Value()).(crdKey := Some(key))
  {
    for i := 0 to |objs|
      invariant forall j :: 0 <= j < |objs| ==>
        objs[j].Value() == if j < i then old(objs[j].Value()).(crdKey := Some(key)) else old(objs[j].Value())
    {
      objs[i].crdKey := Some(key);
    }
  }

  method Generate(c: CoreSpec, key: string) returns (objs: seq<Obj>)
    ensures fresh(objs) && Distinct(objs) && Values(objs) == Keyed(Idents(c), Some(key))
  {
    objs := New(Idents(c));
    ghost var before := Values(objs);
    SetKey(objs, key);
    assert forall i :: 0 <= i < |objs| ==> objs[i].Value() == before[i].(crdKey := Some(key));
  }

  ghost predicate Different(a: seq<Ident>) {
    forall i, j :: 0 <= i < j < |a| ==> a[i] != a[j]
  }

  ghost predicate Apart(a: seq<Ident>, b: seq<Ident>) {
    forall i, j :: 0 <= i < |a| && 0 <= j < |b| ==> a[i] != b[j]
  }

  ghost predicate NoBlank(a: seq<Ident>) {
    forall i :: 0 <= i < |a| ==> a[i].kind != Blank
  }

  lemma Concatenated(a: seq<Ident>, b: seq<Ident>)
    requires Different(a) && Different(b) && Apart(a, b) && NoBlank(a) && NoBlank(b)
    ensures Different(a + b) && NoBlank(a + b)
  {
  }

  lemma ApartConcatenated(a: seq<Ident>, b: seq<Ident>, c: seq<Ident>)
    requires Apart(a, c) && Apart(b, c)
    ensures Apart(a + b, c)
  {
  }

  lemma MemcachedDifferent(c: CoreSpec)
    ensures Different(Memcached(c)) && NoBlank(Memcached(c)) && Apart(Memcached(c), ServiceMonitor(c))
        && Apart(Memcached(c), AuthTrigger(c))
  {
  }

  lemma ApiServerDifferent(c: CoreSpec)
    ensures Different(MetricsApiServer(c)) && NoBlank(MetricsApiServer(c))
  {
    assert |c.apiServerName + ":system:auth-delegator"| < |c.apiServerName + ":apiserver-clusterrolebinding"|
        < |c.apiServerName + ":operator-scaledactionrunner-viewer-role"|;
  }

  lemma ApiServerApart(c: CoreSpec)
    ensures Apart(MetricsApiServer(c), ServiceMonitor(c)) && Apart(MetricsApiServer(c), AuthTrigger(c))
    ensures Apart(Memcached(c), MetricsApiServer(c))
  {
    assert |c.apiServerName + "-cache"| != |c.apiServerName|;
  }

  /** No two generated objects are the same object to the API server, and each has a kind. */
  lemma IdentsDifferent(c: CoreSpec)
    ensures Different(Idents(c)) && NoBlank(Idents(c))
  {
    MemcachedDifferent(c);
    ApiServerDifferent(c);
    ApiServerApart(c);
    var first := Memcached(c) + MetricsApiServer(c);
    Concatenated(Memcached(c), MetricsApiServer(c));
    ApartConcatenated(Memcached(c), MetricsApiServer(c), ServiceMonitor(c));
    Concatenated(first, ServiceMonitor(c));
    ApartConcatenated(Memcached(c), MetricsApiServer(c), AuthTrigger(c));
    assert Apart(ServiceMonitor(c), AuthTrigger(c));
    ApartConcatenated(first, ServiceMonitor(c), AuthTrigger(c));
    Concatenated(first + ServiceMonitor(c), AuthTrigger(c));
  }

  ghost predicate HasKind(a: seq<Ident>, kind: Kind) {
    exists i :: 0 <= i < |a| && a[i].kind == kind
  }

  lemma HasKindConcat(a: seq<Ident>, b: seq<Ident>, kind: Kind)
    ensures HasKind(a + b, kind) <==> HasKind(a, kind) || HasKind(b, kind)
  {
    if i :| 0 <= i < |a| && a[i].kind == kind {
      assert (a + b)[i].kind == kind;
    }
    if i :| 0 <= i < |b| && b[i].kind == kind {
      assert (a + b)[|a| + i].kind == kind;
    }
  }

  lemma GeneratedKinds(c: CoreSpec, kind: Kind)
    ensures
      HasKind(Idents(c), kind) <==>
      HasKind(Memcached(c), kind) || HasKind(MetricsApiServer(c), kind) || HasKind(ServiceMonitor(c), kind)
      || HasKind(AuthTrigger(c), kind)
  {
    HasKindConcat(Memcached(c), MetricsApiServer(c), kind);
    HasKindConcat(Memcached(c) + MetricsApiServer(c), ServiceMonitor(c), kind);
    HasKindConcat(Memcached(c) + MetricsApiServer(c) + ServiceMonitor(c), AuthTrigger(c), kind);
  }

  lemma MemcachedKinds(c: CoreSpec, kind: Kind)
    ensures
      HasKind(Memcached(c), kind) <==>
      c.createMemcached
      && (kind == StatefulSet || kind == Service
          || (kind == Secret && c.memcachedAuth && c.memcacheCredsSecret == ""))
  {
    var m := Memcached(c);
    if c.createMemcached {
      assert m[0].kind == StatefulSet && m[1].kind == Service;
      assert |m| > 2 ==> m[2].kind == Secret;
    }
  }

  lemma MetricsApiServerKinds(c: CoreSpec, kind: Kind)
    ensures
      HasKind(MetricsApiServer(c), kind) <==>
      c.createApiServer
      && kind in {Deployment, Service, ServiceAccount, ClusterRole, ClusterRoleBinding, RoleBinding, APIService}
  {
    var m := MetricsApiServer(c);
    if c.createApiServer {
      assert m[0].kind == Deployment && m[1].kind == Service && m[2].kind == ServiceAccount;
      assert m[3].kind == ClusterRole && m[4].kind == ClusterRoleBinding && m[7].kind == RoleBinding;
      assert m[8].kind == APIService;
    }
  }

  lemma OtherKinds(c: CoreSpec, kind: Kind)
    ensures HasKind(ServiceMonitor(c), kind) <==> c.prometheusNamespace != "" && kind == Kind.ServiceMonitor
    ensures HasKind(AuthTrigger(c), kind) <==> c.createAuthentication && kind == ClusterTriggerAuthentication
  {
    assert c.prometheusNamespace != "" ==> ServiceMonitor(c)[0].kind == Kind.ServiceMonitor;
    assert c.createAuthentication ==> AuthTrigger(c)[0].kind == ClusterTriggerAuthentication;
  }

  /** What is generated when: a secret only for a cache with credentials of its own. */
  lemma GeneratedWhen(c: CoreSpec, kind: Kind)
    ensures
      HasKind(Idents(c), kind) <==>
      match kind
      case StatefulSet => c.createMemcached
      case Secret => c.createMemcached && c.memcachedAuth && c.memcacheCredsSecret == ""
      case Service => c.createMemcached || c.createApiServer
      case ServiceMonitor => c.prometheusNamespace != ""
      case ClusterTriggerAuthentication => c.createAuthentication
      case Blank => false
      case _ => c.createApiServer
  {
    GeneratedKinds(c, kind);
    MemcachedKinds(c, kind);
    MetricsApiServerKinds(c, kind);
    OtherKinds(c, kind);
  }

  lemma GeneratedAreFresh(c: CoreSpec, key: string)
    ensures AllFresh(Keyed(Idents(c), Some(key))) && AllKeyed(Keyed(Idents(c), Some(key)), key)
  {
    IdentsDifferent(c);
  }

  lemma GeneratedAreDistinct(c: CoreSpec, key: string)
    ensures DistinctIdents(Keyed(Idents(c), Some(key)))
  {
    IdentsDifferent(c);
  }

  /** The reconciler on its own objects, from any start: after a success all carry the key, and a reconcile of the
      unchanged core writes nothing, exactly if no deletion still under way lets one of them vanish first. */
  lemma CoreConverges(objects: Objects, c: CoreSpec, key: string, first: seq<Answer>)
    requires |first| == |Idents(c)| && AllValid(first)
    requires !Deployed(objects, Keyed(Idents(c), Some(key)), first).failed
    ensures
      var objs := Keyed(Idents(c), Some(key));
      var after := Deployed(objects, objs, first).objects;
      && AllCarry(after, objs, key)
      && ((forall second: seq<Answer> :: |second| == |objs| ==> Silent(after, objs, second)) <==> AllSeen(after, objs))
  {
    GeneratedAreFresh(c, key);
    GeneratedAreDistinct(c, key);
    AllCarryAfterSuccess(objects, Keyed(Idents(c), Some(key)), key, first);
    SecondReconcileIsSilentIff(objects, Keyed(Idents(c), Some(key)), key, first);
  }
}
