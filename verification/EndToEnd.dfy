/** From the operator to the metrics server and back: the names by which the parts find each other. */
module EndToEnd {
  import opened KubeTypes
  import opened Strings
  import opened Reconcile
  import CC = CoreController
  import G = CoreGenerator
  import W = Workflows

  /** The override of the metrics server counts only if both annotations are there and not empty. */
  lemma MetricsServerIs(r: Resource, core: Core)
    ensures
      var a := r.annotations;
      if a.Some? && "OverrideMetricsName" in a.value && a.value["OverrideMetricsName"] != ""
         && "OverrideMetricsNamespace" in a.value && a.value["OverrideMetricsNamespace"] != ""
      then MetricsServer(r, core) == Core(a.value["OverrideMetricsName"], a.value["OverrideMetricsNamespace"])
      else MetricsServer(r, core) == core
  {
  }

  predicate Plain(part: string) {
    '/' !in part
  }

  /** The url, part by part: the metric of this runner, in its namespace, at the metrics server. */
  lemma UrlParts(r: Resource, core: Core, req: Key)
    requires Plain(MetricsServer(r, core).apiServerName) && Plain(MetricsServer(r, core).apiServerNamespace)
    requires Plain(req.namespace) && Plain(req.name)
    ensures
      var parts := Split(MetricsUrl(r, core, req));
      && |parts| >= 11 && parts[0] == "https:" && parts[1] == ""
      && parts[2] == MetricsServer(r, core).apiServerName + "." + MetricsServer(r, core).apiServerNamespace + ".svc"
      && parts[3] == "apis" && parts[4] == "custom.metrics.k8s.io" && parts[5] == "v1beta1"
      && parts[6] == "namespaces" && parts[7] == req.namespace
      && parts[8] == "Scaledactionrunners" && parts[9] == req.name
      && parts[10..] == Split(if r.selector.Some? && r.selector.value != "" then r.selector.value else "*")
  {
    var server := MetricsServer(r, core);
    var endpoint := server.apiServerName + "." + server.apiServerNamespace + ".svc";
    var api := "https://" + endpoint + "/apis/custom.metrics.k8s.io/v1beta1/namespaces";
    var runners := api + "/" + req.namespace + "/" + "Scaledactionrunners";
    var selector := if r.selector.Some? && r.selector.value != "" then r.selector.value else "*";
    assert MetricsUrl(r, core, req) == runners + "/" + req.name + "/" + selector by {
      NamespacesPath("https://" + endpoint);
      RunnersPath(api + "/" + req.namespace);
    }
    ApiParts(endpoint);
    RunnerParts(api, req.namespace, req.name, selector);
  }

  lemma RunnerParts(api: string, namespace: string, name: string, selector: string)
    requires Plain(namespace) && Plain(name)
    ensures
      Split(api + "/" + namespace + "/" + "Scaledactionrunners" + "/" + name + "/" + selector) ==
      Split(api) + [namespace, "Scaledactionrunners", name] + Split(selector)
  {
    SplitSnoc(api, namespace);
    SplitSnoc(api + "/" + namespace, "Scaledactionrunners");
    SplitSnoc(api + "/" + namespace + "/" + "Scaledactionrunners", name);
    SplitConcat(api + "/" + namespace + "/" + "Scaledactionrunners" + "/" + name, selector);
  }

  lemma NamespacesPath(s: string)
    ensures
      s + "/apis/custom.metrics.k8s.io/v1beta1/namespaces/" ==
      s + "/apis/custom.metrics.k8s.io/v1beta1/namespaces" + "/"
  {
    assert "/apis/custom.metrics.k8s.io/v1beta1/namespaces/" == "/apis/custom.metrics.k8s.io/v1beta1/namespaces" + "/";
  }

  lemma RunnersPath(s: string)
    ensures s + "/Scaledactionrunners/" == s + "/" + "Scaledactionrunners" + "/"
  {
    assert "/Scaledactionrunners/" == "/" + "Scaledactionrunners" + "/";
  }

  lemma ApiParts(endpoint: string)
    requires Plain(endpoint)
    ensures
      Split("https://" + endpoint + "/apis/custom.metrics.k8s.io/v1beta1/namespaces") ==
      ["https:", "", endpoint, "apis", "custom.metrics.k8s.io", "v1beta1", "namespaces"]
  {
    var host := "https://" + endpoint;
    HostParts(endpoint);
    GroupPath(host);
    GroupParts(host);
  }

  lemma HostParts(endpoint: string)
    requires Plain(endpoint)
    ensures Split("https://" + endpoint) == ["https:", "", endpoint]
  {
    assert "https://" + endpoint == "https:" + "/" + "" + "/" + endpoint;
    SplitSnoc("https:" + "/" + "", endpoint);
    SplitSnoc("https:", "");
    SplitPlain("https:");
  }

  lemma GroupParts(host: string)
    ensures
      Split(host + "/" + "apis" + "/" + "custom.metrics.k8s.io" + "/" + "v1beta1" + "/" + "namespaces") ==
      Split(host) + ["apis", "custom.metrics.k8s.io", "v1beta1", "namespaces"]
  {
    SplitSnoc(host, "apis");
    SplitSnoc(host + "/" + "apis", "custom.metrics.k8s.io");
    SplitSnoc(host + "/" + "apis" + "/" + "custom.metrics.k8s.io", "v1beta1");
    SplitSnoc(host + "/" + "apis" + "/" + "custom.metrics.k8s.io" + "/" + "v1beta1", "namespaces");
  }

  lemma GroupPath(s: string)
    ensures
      s + "/apis/custom.metrics.k8s.io/v1beta1/namespaces" ==
      s + "/" + "apis" + "/" + "custom.metrics.k8s.io" + "/" + "v1beta1" + "/" + "namespaces"
  {
    assert "/apis" == "/" + "apis";
    assert "/apis/custom.metrics.k8s.io" == "/apis" + "/" + "custom.metrics.k8s.io";
    assert "/apis/custom.metrics.k8s.io/v1beta1" == "/apis/custom.metrics.k8s.io" + "/" + "v1beta1";
    assert "/apis/custom.metrics.k8s.io/v1beta1/namespaces" ==
        "/apis/custom.metrics.k8s.io/v1beta1" + "/" + "namespaces";
  }

  /** The name in the url is the one under which the metrics server keeps the workflow of this very runner, once a
      resync has listed it. */
  lemma UrlFindsWorkflow(r: Resource, core: Core, req: Key, before: W.Store, runners: seq<W.Runner>,
                         i: nat, after: W.Store)
    requires Plain(MetricsServer(r, core).apiServerName) && Plain(MetricsServer(r, core).apiServerNamespace)
    requires Plain(req.namespace) && Plain(req.name) && req == KeyOf(r.config)
    requires W.IsResynced(before, runners, after) && i < |runners| && runners[i].token.Some?
    requires runners[i].name == r.config.name && runners[i].namespace == r.config.namespace
    requires runners[i].owner == r.config.owner && runners[i].repository == r.config.repo
    requires forall j :: i < j < |runners| ==> runners[j].name != r.config.name
    ensures
      var parts := Split(MetricsUrl(r, core, req));
      && |parts| > 9
      && var key := parts[9];
      && key in after && W.IsOf(after[key], runners[i])
      && after[key].owner == r.config.owner && after[key].repository == r.config.repo
  {
    UrlParts(r, core, req);
    LastIsFound(runners, i);
  }

  lemma {:induction false} LastIsFound(runners: seq<W.Runner>, i: nat)
    requires i < |runners| && runners[i].token.Some?
    requires forall j :: i < j < |runners| ==> runners[j].name != runners[i].name
    ensures
      W.LastNamed(runners, runners[i].name).Some?
      && W.IsOf(W.LastNamed(runners, runners[i].name).value, runners[i])
  {
    if i < |runners| - 1 {
      LastIsFound(runners[..|runners| - 1], i);
    }
  }

  /** Without an override, the url leads to the generated service, under the group and version that the generated
      APIService registers, and the trigger refers to the generated credentials. */
  lemma UrlReachesServer(r: Resource, c: G.CoreSpec, req: Key)
    requires Plain(c.apiServerName) && Plain(c.apiServerNamespace) && Plain(req.namespace) && Plain(req.name)
    requires c.createApiServer && c.createAuthentication
    requires
      var core := Core(c.apiServerName, c.apiServerNamespace);
      MetricsServer(r, core) == core
    ensures
      var core := Core(c.apiServerName, c.apiServerNamespace);
      var parts := Split(MetricsUrl(r, core, req));
      && |parts| >= 11
      && CC.Ident(CC.Kind.APIService, "", parts[5] + "." + parts[4]) in G.Idents(c)
      && CC.Ident(CC.Kind.Service, c.apiServerNamespace, c.apiServerName) in G.Idents(c)
      && parts[2] == c.apiServerName + "." + c.apiServerNamespace + ".svc"
      && var trigger := MetricsServer(r, core).apiServerName;
      CC.Ident(CC.Kind.ClusterTriggerAuthentication, c.kedaNamespace, trigger) in G.Idents(c)
  {
    UrlParts(r, Core(c.apiServerName, c.apiServerNamespace), req);
    GeneratedServer(c);
  }

  lemma GeneratedServer(c: G.CoreSpec)
    requires c.createApiServer && c.createAuthentication
    ensures CC.Ident(CC.Kind.APIService, "", "v1beta1" + "." + "custom.metrics.k8s.io") in G.Idents(c)
    ensures CC.Ident(CC.Kind.Service, c.apiServerNamespace, c.apiServerName) in G.Idents(c)
    ensures CC.Ident(CC.Kind.ClusterTriggerAuthentication, c.kedaNamespace, c.apiServerName) in G.Idents(c)
  {
    assert "v1beta1" + "." + "custom.metrics.k8s.io" == "v1beta1.custom.metrics.k8s.io";
    IsGenerated(c, 1);
    IsGenerated(c, 8);
    assert G.AuthTrigger(c)[0] in G.AuthTrigger(c);
  }

  lemma IsGenerated(c: G.CoreSpec, i: nat)
    requires c.createApiServer && i < |G.MetricsApiServer(c)|
    ensures G.MetricsApiServer(c)[i] in G.Idents(c)
  {
    assert G.MetricsApiServer(c)[i] in G.MetricsApiServer(c);
  }
}
