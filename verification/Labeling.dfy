/** apiserver/pkg/labeling/labeling.go: labels of queued runs, selection, and labels for output. */
module Labeling {
  import opened Strings
  import opened Workflows

  const WF_ID: string := "wf_id"
  const WF_NAME: string := "wf_name"
  const WF_RUNS_ON: string := "wf_runs_on"
  const CR_NAME: string := "cr_name"
  const CR_NAMESPACE: string := "cr_namespace"
  const CR_REPO: string := "cr_repo"
  const CR_OWNER: string := "cr_owner"
  const JOB_LABELS_FOR_PROMETHEUS: seq<string> := [WF_ID, WF_NAME, WF_RUNS_ON]

  type Labels = map<string, string>
  type Selector = Labels -> bool

  datatype WorkflowRun = WorkflowRun(id: nat, workflowId: nat)
  datatype WorkflowInfo = WorkflowInfo(name: string, runsOn: seq<string>)

  /** What getLabels reads besides the run. `sanitize` stands for sanitizeLabelValue. */
  datatype Context = Context(wf: Workflow, info: map<nat, WorkflowInfo>, sanitize: string -> string)

  /** strings.ReplaceAll(s, ".", "_") */
  function UndotAll(s: string): string {
    seq(|s|, i requires 0 <= i < |s| => if s[i] == '.' then '_' else s[i])
  }

  function UndotEach(parts: seq<string>): seq<string> {
    seq(|parts|, i requires 0 <= i < |parts| => UndotAll(parts[i]))
  }

  function RunsOnKey(runsOn: string): string {
    WF_RUNS_ON + "_" + runsOn
  }

  lemma RunsOnKeyInjective(a: string, b: string)
    requires RunsOnKey(a) == RunsOnKey(b)
    ensures a == b
  {
    assert RunsOnKey(a)[|WF_RUNS_ON| + 1..] == a && RunsOnKey(b)[|WF_RUNS_ON| + 1..] == b;
  }

  function RunsOnMap(runsOn: seq<string>): Labels {
    if runsOn == [] then map[]
    else
      var last := runsOn[|runsOn| - 1];
      RunsOnMap(runsOn[..|runsOn| - 1])[RunsOnKey(last) := last]
  }

  lemma {:induction false} RunsOnMapIs(runsOn: seq<string>, key: string)
    ensures key in RunsOnMap(runsOn) <==> exists l :: l in runsOn && RunsOnKey(l) == key
    ensures key in RunsOnMap(runsOn) ==> RunsOnKey(RunsOnMap(runsOn)[key]) == key
  {
    if runsOn != [] {
      var n := |runsOn| - 1;
      RunsOnMapIs(runsOn[..n], key);
      assert runsOn == runsOn[..n] + [runsOn[n]];
      if key in RunsOnMap(runsOn) {
        assert exists l :: l in runsOn && RunsOnKey(l) == key by {
          if RunsOnKey(runsOn[n]) != key {
            var l :| l in runsOn[..n] && RunsOnKey(l) == key;
          }
        }
      }
    }
  }

  function BaseLabels(ctx: Context, run: WorkflowRun): Labels {
    map[WF_ID := Decimal(run.workflowId),
        CR_NAME := ctx.sanitize(ctx.wf.name),
        CR_NAMESPACE := ctx.sanitize(ctx.wf.namespace),
        CR_REPO := ctx.sanitize(ctx.wf.repository),
        CR_OWNER := ctx.sanitize(ctx.wf.owner),
        WF_NAME := "unknown"]
  }

  /** The labels of one run. */
  function LabelsOf(ctx: Context, run: WorkflowRun): Labels {
    var base := BaseLabels(ctx, run);
    if run.workflowId !in ctx.info then base
    else
      var info := ctx.info[run.workflowId];
      (base[WF_NAME := ctx.sanitize(info.name)] + RunsOnMap(info.runsOn))
        [WF_RUNS_ON := Join(UndotEach(Sort(info.runsOn)), ".")]
  }

  lemma JoinUndotSnoc(parts: seq<string>, i: nat)
    requires i < |parts|
    ensures
      Join(UndotEach(parts[..i + 1]), ".") ==
      Join(UndotEach(parts[..i]), ".") + (if i > 0 then "." else "") + UndotAll(parts[i])
  {
    assert UndotEach(parts[..i + 1]) == UndotEach(parts[..i]) + [UndotAll(parts[i])];
    if i > 0 {
      JoinSnoc(UndotEach(parts[..i]), UndotAll(parts[i]), ".");
    }
  }

  method GetLabels(ctx: Context, run: WorkflowRun) returns (lbls: Labels)
    ensures lbls == LabelsOf(ctx, run)
  {
    lbls := BaseLabels(ctx, run);
    if run.workflowId in ctx.info {
      var info := ctx.info[run.workflowId];
      lbls := lbls[WF_NAME := ctx.sanitize(info.name)];
      var base := lbls;
      var allRunsOn;
      lbls, allRunsOn := AddRunsOn(base, info.runsOn);
      RunsOnMapSorted(info.runsOn);
      lbls := lbls[WF_RUNS_ON := allRunsOn];
    }
  }

  method AddRunsOn(base: Labels, runsOn: seq<string>) returns (lbls: Labels, allRunsOn: string)
    ensures RunsOnDone(base, Sort(runsOn), lbls, allRunsOn)
  {
    lbls, allRunsOn := base, "";
    var sorted := Sort(runsOn);
    for i := 0 to |sorted|
      invariant RunsOnDone(base, sorted[..i], lbls, allRunsOn)
    {
      RunsOnStep(base, sorted, i, lbls, allRunsOn);
      var rl := sorted[i];
      if i > 0 {
        allRunsOn := allRunsOn + ".";
      }
      allRunsOn := allRunsOn + UndotAll(rl);
      lbls := lbls[RunsOnKey(rl) := rl];
    }
    assert sorted[..|sorted|] == sorted;
  }

  lemma SameRunsOnMap(a: seq<string>, b: seq<string>)
    requires forall l :: l in a <==> l in b
    ensures RunsOnMap(a) == RunsOnMap(b)
  {
    forall key ensures key in RunsOnMap(a) <==> key in RunsOnMap(b) {
      RunsOnMapIs(a, key);
      RunsOnMapIs(b, key);
    }
    forall key | key in RunsOnMap(a) ensures RunsOnMap(a)[key] == RunsOnMap(b)[key] {
      RunsOnMapIs(a, key);
      RunsOnMapIs(b, key);
      RunsOnKeyInjective(RunsOnMap(a)[key], RunsOnMap(b)[key]);
    }
  }

  ghost predicate RunsOnDone(base: Labels, runsOn: seq<string>, lbls: Labels, allRunsOn: string) {
    lbls == base + RunsOnMap(runsOn) && allRunsOn == Join(UndotEach(runsOn), ".")
  }

  lemma RunsOnStep(base: Labels, runsOn: seq<string>, i: nat, lbls: Labels, allRunsOn: string)
    requires i < |runsOn| && RunsOnDone(base, runsOn[..i], lbls, allRunsOn)
    ensures RunsOnDone(base, runsOn[..i + 1],
                       lbls[RunsOnKey(runsOn[i]) := runsOn[i]],
                       allRunsOn + (if i > 0 then "." else "") + UndotAll(runsOn[i]))
  {
    assert runsOn[..i + 1][..i] == runsOn[..i];
    JoinUndotSnoc(runsOn, i);
  }

  lemma RunsOnMapSorted(runsOn: seq<string>)
    ensures RunsOnMap(Sort(runsOn)) == RunsOnMap(runsOn)
  {
    assert forall l :: l in Sort(runsOn) <==> l in multiset(runsOn);
    SameRunsOnMap(Sort(runsOn), runsOn);
  }

  /** The labels do not depend on the order in which a workflow lists its runner labels. */
  lemma LabelsIgnoreRunsOnOrder(ctx: Context, ctx': Context, run: WorkflowRun)
    requires ctx.wf == ctx'.wf && ctx.sanitize == ctx'.sanitize && ctx.info.Keys == ctx'.info.Keys
    requires forall id :: id in ctx.info ==>
      && ctx.info[id].name == ctx'.info[id].name
      && multiset(ctx.info[id].runsOn) == multiset(ctx'.info[id].runsOn)
    ensures LabelsOf(ctx, run) == LabelsOf(ctx', run)
  {
    if run.workflowId in ctx.info {
      var a, b := ctx.info[run.workflowId].runsOn, ctx'.info[run.workflowId].runsOn;
      assert forall l :: l in a <==> l in multiset(a);
      assert forall l :: l in b <==> l in multiset(b);
      SameRunsOnMap(a, b);
      SortedUnique(Sort(a), Sort(b));
    }
  }

  // ---------------------------------------------------------------------------------------------
  // Selection

  function Filter(s: seq<WorkflowRun>, keep: WorkflowRun -> bool): (r: seq<WorkflowRun>)
    ensures |r| <= |s|
  {
    if s == [] then []
    else Filter(s[..|s| - 1], keep) + if keep(s[|s| - 1]) then [s[|s| - 1]] else []
  }

  function Matching(runs: seq<WorkflowRun>, ctx: Context, selector: Selector): (r: seq<WorkflowRun>)
    ensures |r| <= |runs|
  {
    Filter(runs, r => selector(LabelsOf(ctx, r)))
  }

  /** Some run that matches carries label l with value v. */
  ghost predicate Carried(runs: seq<WorkflowRun>, ctx: Context, selector: Selector, l: string, v: string) {
    exists r :: r in runs && Carries(r, ctx, selector, l, v)
  }

  ghost predicate Carries(r: WorkflowRun, ctx: Context, selector: Selector, l: string, v: string) {
    var lbls := LabelsOf(ctx, r);
    selector(lbls) && l in lbls && lbls[l] == v
  }

  /** The lists of values per label: no list is empty or repeats a value, and together they hold
      exactly what the matching runs carry. Nothing is said about their order. */
  ghost predicate Collected(matched: map<string, seq<string>>, runs: seq<WorkflowRun>, ctx: Context,
      selector: Selector) {
    && (forall l :: l in matched ==> matched[l] != [] && NoDuplicates(matched[l]))
    && forall l, v :: Carried(runs, ctx, selector, l, v) <==> l in matched && v in matched[l]
  }

  function Lookup(matched: map<string, seq<string>>, l: string): seq<string> {
    if l in matched then matched[l] else []
  }

  /** The inner loop ranges over a Go map: in any order. */
  method FilterBySelector(runs: seq<WorkflowRun>, ctx: Context, selector: Selector)
    returns (filtered: seq<WorkflowRun>, matched: map<string, seq<string>>)
    ensures filtered == Matching(runs, ctx, selector)
    ensures Collected(matched, runs, ctx, selector)
  {
    filtered, matched := [], map[];
    for i := 0 to |runs|
      invariant filtered == Matching(runs[..i], ctx, selector)
      invariant Collected(matched, runs[..i], ctx, selector)
    {
      var r := runs[i];
      assert runs[..i + 1][..i] == runs[..i];
      assert runs[..i + 1] == runs[..i] + [r];
      var lbls := GetLabels(ctx, r);
      ghost var before := matched;
      if selector(lbls) {
        matched := AddValues(matched, lbls);
        filtered := filtered + [r];
      }
      CollectedSnoc(before, matched, runs[..i], r, ctx, selector);
    }
    assert runs[..|runs|] == runs;
  }

  method AddValues(before: map<string, seq<string>>, lbls: Labels) returns (matched: map<string, seq<string>>)
    ensures AddedLabels(before, lbls, lbls.Keys, matched)
  {
    matched := before;
    var pending := lbls.Keys;
    while pending != {}
      invariant pending <= lbls.Keys
      invariant AddedLabels(before, lbls, lbls.Keys - pending, matched)
    {
      var l :| l in pending;
      pending := pending - {l};
      var v := lbls[l];
      if v !in Lookup(matched, l) {
        matched := matched[l := Lookup(matched, l) + [v]];
      }
    }
    assert lbls.Keys - pending == lbls.Keys;
  }

  /** `after` is `before` with the values of the labels in `done` added where missing. */
  ghost predicate AddedLabels(before: map<string, seq<string>>, lbls: Labels, done: set<string>,
      after: map<string, seq<string>>) {
    && (forall l :: l in after ==> l in before || (l in done && l in lbls))
    && (forall l :: l in before && l !in done ==> l in after && after[l] == before[l])
    && forall l :: l in done && l in lbls ==>
         l in after && after[l] == Lookup(before, l) + if lbls[l] in Lookup(before, l) then [] else [lbls[l]]
  }

  lemma CollectedSnoc(before: map<string, seq<string>>, after: map<string, seq<string>>,
                      runs: seq<WorkflowRun>, r: WorkflowRun, ctx: Context, selector: Selector)
    requires Collected(before, runs, ctx, selector)
    requires if selector(LabelsOf(ctx, r)) then AddedLabels(before, LabelsOf(ctx, r), LabelsOf(ctx, r).Keys, after)
        else after == before
    ensures Collected(after, runs + [r], ctx, selector)
  {
    forall l, v
      ensures Carried(runs + [r], ctx, selector, l, v) <==> l in after && v in after[l]
    {
      assert Carried(runs + [r], ctx, selector, l, v) <==>
          Carried(runs, ctx, selector, l, v) || Carries(r, ctx, selector, l, v) by {
        assert r in runs + [r];
      }
    }
  }

  lemma {:induction false} FilterCount(s: seq<WorkflowRun>, keep: WorkflowRun -> bool, x: WorkflowRun)
    ensures multiset(Filter(s, keep))[x] == if keep(x) then multiset(s)[x] else 0
  {
    if s != [] {
      var n := |s| - 1;
      FilterCount(s[..n], keep, x);
      assert s == s[..n] + [s[n]];
    }
  }

  lemma FilterIgnoresOrder(s: seq<WorkflowRun>, s': seq<WorkflowRun>, keep: WorkflowRun -> bool)
    requires multiset(s) == multiset(s')
    ensures multiset(Filter(s, keep)) == multiset(Filter(s', keep))
    ensures |Filter(s, keep)| == |Filter(s', keep)|
  {
    var m, m' := Filter(s, keep), Filter(s', keep);
    forall x ensures multiset(m)[x] == multiset(m')[x] {
      FilterCount(s, keep, x);
      FilterCount(s', keep, x);
    }
    assert multiset(m) == multiset(m');
    assert |m| == |multiset(m)| && |m'| == |multiset(m')|;
  }

  // ---------------------------------------------------------------------------------------------
  // Output

  function Joined(values: seq<string>): string {
    Join(Sort(values), ",")
  }

  function JoinedLabels(matched: map<string, seq<string>>): Labels {
    map l | l in matched :: Joined(matched[l])
  }

  function PrometheusLabels(all: Labels): seq<string> {
    Selected(all, JOB_LABELS_FOR_PROMETHEUS)
  }

  function Selected(all: Labels, names: seq<string>): seq<string> {
    seq(|names|, i requires 0 <= i < |names| => if names[i] in all then all[names[i]] else "")
  }

  method SelectLabels(all: Labels, names: seq<string>) returns (values: seq<string>)
    ensures values == Selected(all, names)
  {
    values := [];
    for i := 0 to |names|
      invariant values == Selected(all, names)[..i]
    {
      var value := "";
      if names[i] in all {
        value := all[names[i]];
      }
      values := values + [value];
    }
  }

  method JoinAll(lbls: map<string, seq<string>>) returns (all: Labels)
    ensures all == JoinedLabels(lbls)
  {
    all := map[];
    var pending := lbls.Keys;
    while pending != {}
      invariant pending <= lbls.Keys
      invariant all.Keys == lbls.Keys - pending
      invariant forall l :: l in all ==> all[l] == Joined(lbls[l])
    {
      var l :| l in pending;
      pending := pending - {l};
      all := all[l := Joined(lbls[l])];
    }
  }

  method GetLabelsForOutput(lbls: map<string, seq<string>>) returns (prometheus: seq<string>, all: Labels)
    ensures all == JoinedLabels(lbls)
    ensures prometheus == PrometheusLabels(all)
  {
    all := JoinAll(lbls);
    prometheus := SelectLabels(all, JOB_LABELS_FOR_PROMETHEUS);
  }

  lemma CarriedIgnoresOrder(runs: seq<WorkflowRun>, runs': seq<WorkflowRun>, ctx: Context, selector: Selector,
      l: string, v: string)
    requires multiset(runs) == multiset(runs')
    requires Carried(runs, ctx, selector, l, v)
    ensures Carried(runs', ctx, selector, l, v)
  {
    var r :| r in runs && Carries(r, ctx, selector, l, v);
    assert r in multiset(runs');
  }

  lemma SameValues(matched: map<string, seq<string>>, matched': map<string, seq<string>>,
                   runs: seq<WorkflowRun>, runs': seq<WorkflowRun>, ctx: Context, selector: Selector, l: string)
    requires multiset(runs) == multiset(runs')
    requires Collected(matched, runs, ctx, selector) && Collected(matched', runs', ctx, selector)
    requires l in matched
    ensures l in matched' && forall v :: v in matched[l] ==> v in matched'[l]
  {
    forall v | v in matched[l] ensures l in matched' && v in matched'[l] {
      CarriedIgnoresOrder(runs, runs', ctx, selector, l, v);
    }
    assert matched[l][0] in matched[l];
  }

  lemma SameSorted(matched: map<string, seq<string>>, matched': map<string, seq<string>>,
                   runs: seq<WorkflowRun>, runs': seq<WorkflowRun>, ctx: Context, selector: Selector, l: string)
    requires multiset(runs) == multiset(runs')
    requires Collected(matched, runs, ctx, selector) && Collected(matched', runs', ctx, selector)
    requires l in matched
    ensures l in matched' && Sort(matched[l]) == Sort(matched'[l])
  {
    SameValues(matched, matched', runs, runs', ctx, selector, l);
    SameValues(matched', matched, runs', runs, ctx, selector, l);
    SortCanonical(matched[l], matched'[l]);
  }

  lemma SameJoined(matched: map<string, seq<string>>, matched': map<string, seq<string>>)
    requires matched.Keys == matched'.Keys
    requires forall l :: l in matched ==> Sort(matched[l]) == Sort(matched'[l])
    ensures JoinedLabels(matched) == JoinedLabels(matched')
  {
  }

  /** Neither the order of the runs nor any map iteration order shows in the output: the match count,
      the full label map and the Prometheus list depend only on the bag of runs. */
  lemma OutputIsCanonical(runs: seq<WorkflowRun>, runs': seq<WorkflowRun>, ctx: Context, selector: Selector,
                          matched: map<string, seq<string>>, matched': map<string, seq<string>>)
    requires multiset(runs) == multiset(runs')
    requires Collected(matched, runs, ctx, selector) && Collected(matched', runs', ctx, selector)
    ensures |Matching(runs, ctx, selector)| == |Matching(runs', ctx, selector)|
    ensures JoinedLabels(matched) == JoinedLabels(matched')
    ensures PrometheusLabels(JoinedLabels(matched)) == PrometheusLabels(JoinedLabels(matched'))
  {
    FilterIgnoresOrder(runs, runs', r => selector(LabelsOf(ctx, r)));
    forall l | l in matched ensures l in matched' && Sort(matched[l]) == Sort(matched'[l]) {
      SameSorted(matched, matched', runs, runs', ctx, selector, l);
    }
    forall l | l in matched' ensures l in matched {
      SameValues(matched', matched, runs', runs, ctx, selector, l);
    }
    SameJoined(matched, matched');
  }

  // ---------------------------------------------------------------------------------------------
  // The labels, key by key

  lemma UndotIs(s: string, i: nat)
    requires i < |s|
    ensures |UndotAll(s)| == |s| && UndotAll(s)[i] != '.'
    ensures s[i] != '.' ==> UndotAll(s)[i] == s[i]
    ensures s[i] == '.' ==> UndotAll(s)[i] == '_'
  {
  }

  /** The labels that do not depend on the workflow's own data. */
  lemma RunLabels(ctx: Context, run: WorkflowRun)
    ensures
      var lbls := LabelsOf(ctx, run);
      && "wf_id" in lbls && lbls["wf_id"] == Decimal(run.workflowId)
      && "cr_name" in lbls && lbls["cr_name"] == ctx.sanitize(ctx.wf.name)
      && "cr_namespace" in lbls && lbls["cr_namespace"] == ctx.sanitize(ctx.wf.namespace)
      && "cr_repo" in lbls && lbls["cr_repo"] == ctx.sanitize(ctx.wf.repository)
      && "cr_owner" in lbls && lbls["cr_owner"] == ctx.sanitize(ctx.wf.owner)
  {
    if run.workflowId in ctx.info {
      NotRunsOn(ctx.info[run.workflowId].runsOn, "wf_id");
      NotRunsOn(ctx.info[run.workflowId].runsOn, "cr_name");
      NotRunsOn(ctx.info[run.workflowId].runsOn, "cr_namespace");
      NotRunsOn(ctx.info[run.workflowId].runsOn, "cr_repo");
      NotRunsOn(ctx.info[run.workflowId].runsOn, "cr_owner");
    }
  }

  lemma NotRunsOn(runsOn: seq<string>, key: string)
    requires |key| <= 10 || key[0] != 'w'
    ensures key !in RunsOnMap(runsOn)
  {
    RunsOnMapIs(runsOn, key);
    assert forall l :: |RunsOnKey(l)| > 10 && RunsOnKey(l)[0] == 'w';
  }

  /** The workflow's name, or "unknown"; and for each runner label a label of its own that carries it. */
  lemma InfoLabels(ctx: Context, run: WorkflowRun)
    ensures
      var lbls := LabelsOf(ctx, run);
      && "wf_name" in lbls
      && if run.workflowId !in ctx.info then lbls["wf_name"] == "unknown" && "wf_runs_on" !in lbls
         else
           var info := ctx.info[run.workflowId];
           && lbls["wf_name"] == ctx.sanitize(info.name)
           && "wf_runs_on" in lbls && lbls["wf_runs_on"] == Join(UndotEach(Sort(info.runsOn)), ".")
           && forall l :: l in info.runsOn ==> "wf_runs_on_" + l in lbls && lbls["wf_runs_on_" + l] == l
  {
    if run.workflowId in ctx.info {
      var runsOn := ctx.info[run.workflowId].runsOn;
      NotRunsOn(runsOn, "wf_name");
      forall l | l in runsOn
        ensures "wf_runs_on_" + l in LabelsOf(ctx, run) && LabelsOf(ctx, run)["wf_runs_on_" + l] == l
      {
        RunsOnLabel(ctx, run, l);
      }
    }
  }

  lemma RunsOnLabel(ctx: Context, run: WorkflowRun, l: string)
    requires run.workflowId in ctx.info && l in ctx.info[run.workflowId].runsOn
    ensures "wf_runs_on_" + l in LabelsOf(ctx, run) && LabelsOf(ctx, run)["wf_runs_on_" + l] == l
  {
    var runsOn := ctx.info[run.workflowId].runsOn;
    assert "wf_runs_on_" + l == RunsOnKey(l) && |RunsOnKey(l)| > |WF_RUNS_ON|;
    RunsOnMapIs(runsOn, RunsOnKey(l));
    RunsOnKeyInjective(RunsOnMap(runsOn)[RunsOnKey(l)], l);
  }

  /** The Prometheus list has the workflow's id, its name and its runner labels, in this order. */
  lemma PrometheusOrder(all: Labels)
    ensures
      PrometheusLabels(all) ==
      [if "wf_id" in all then all["wf_id"] else "", if "wf_name" in all then all["wf_name"] else "",
       if "wf_runs_on" in all then all["wf_runs_on"] else ""]
  {
  }

  /** Values are joined with commas, in order. */
  lemma JoinedWithCommas(a: string, b: string)
    requires Leq(a, b)
    ensures Joined([a, b]) == a + "," + b && Joined([a]) == a
  {
    assert Sort([a]) == [a] && multiset([a, b]) == multiset([a, b]);
    assert [a, b][1..] == [b] && Sort([b]) == [b];
    assert Join([a, b], ",") == a + "," + Join([b], ",");
    SortedUnique(Sort([a, b]), [a, b]);
  }

  /** Selection goes run by run, and keeps the order. */
  lemma {:induction false} MatchingByRun(runs: seq<WorkflowRun>, more: seq<WorkflowRun>, ctx: Context,
                                        selector: Selector)
    ensures Matching(runs + more, ctx, selector) == Matching(runs, ctx, selector) + Matching(more, ctx, selector)
    ensures |more| == 1 ==> Matching(more, ctx, selector) == if selector(LabelsOf(ctx, more[0])) then more else []
  {
    if more == [] {
      assert runs + more == runs;
    } else {
      var n := |more| - 1;
      assert (runs + more)[..|runs| + n] == runs + more[..n];
      MatchingByRun(runs, more[..n], ctx, selector);
    }
  }
}
