/** apiserver/pkg/k8sprovider/provider.go: the published metric. */
module Provider {
  import opened Wrappers
  import opened Labeling
  import opened State
  import opened Host
  import S = Scaling
  import W = Workflows

  const INT32_LIMIT: int := 0x8000_0000

  /** Go's int32(x): the low 32 bits, as a signed number. */
  function ToInt32(x: int): (r: int)
    ensures -INT32_LIMIT <= r < INT32_LIMIT
    ensures -INT32_LIMIT <= x < INT32_LIMIT ==> r == x
  {
    (x + INT32_LIMIT) % (2 * INT32_LIMIT) - INT32_LIMIT
  }

  /** How many jobs a query can select: no more than a page holds. */
  type Count = n: nat | n <= PER_PAGE

  /** The published number of runners for `total` selected jobs. */
  function Published(sc: S.Scaling, total: Count, forced: bool): int
    requires sc.Computable()
  {
    if forced then sc.maxWorkers else S.Output(sc, ToInt32(total))
  }

  datatype Metric =
    | NotFound
    | Failed
    | Panicked
    | Value(scaled: int, retrievalTime: int, prometheus: seq<string>, labels: Labels)

  /** A selector and how it prints. */
  datatype Selection = Selection(matches: Selector, text: string)

  ghost predicate Publishes(m: Metric, name: string, selection: Selection, wf: W.Workflow, ctx: Context,
      after: ClientState, forced: bool)
    requires wf.scaling.Computable()
  {
    && m.Value? && m.retrievalTime == after.lastRequest
    && m.scaled == Published(wf.scaling, |Matching(after.lastValue, ctx, selection.matches)|, forced)
    && (exists matched ::
          Collected(matched, after.lastValue, ctx, selection.matches) && m.labels == JoinedLabels(matched))
    && m.prometheus ==
         [if forced then "ForciblyScaledUp_" + name else name, selection.text] + PrometheusLabels(m.labels)
  }

  /** `given` is the selector of the request; without one the metric's name is parsed into `parsed`, None being
      a name that does not parse: that is only logged, and the nil selector is called on once the query succeeds. */
  method ValueFor(host: Host, key: string, name: string, given: Option<Selection>, parsed: Option<Selection>, q: Query)
    returns (m: Metric)
    requires key in host.config.store ==> host.config.store[key].scaling.Computable()
    modifies host.stateProvider
    ensures m == NotFound <==> key !in host.config.store
    ensures m == NotFound ==> unchanged(host.stateProvider)
    ensures key in host.config.store ==>
      var wf := host.config.store[key];
      var infoOk := host.GitOwnerRepo(wf) in old(host.stateProvider.workflowInfo) || q.info.Some?;
      var (after, outcome) := QueryStep(host.windows, wf.scaling, old(host.stateProvider.StateOf(wf.name)), q, infoOk);
      var selection := if given.Some? then given else parsed;
      && host.stateProvider.StateOf(wf.name) == after
      && (forall other :: other != wf.name ==>
            host.stateProvider.StateOf(other) == old(host.stateProvider.StateOf(other)))
      && match outcome
         case QueueFailed => m == Metric.Failed
         case InfoFailed => m == Metric.Failed
         case NilTimer => m == Metric.Panicked
         case Polled(forced) =>
           if selection.None? then m == Metric.Panicked
           else
             && host.GitOwnerRepo(wf) in host.stateProvider.workflowInfo
             && var ctx := Context(wf, host.stateProvider.workflowInfo[host.GitOwnerRepo(wf)], host.sanitize);
             && Publishes(m, name, selection.value, wf, ctx, after, forced)
  {
    var selection := if given.Some? then given else parsed;
    var answer := host.QueryMetric(key, if selection.Some? then selection.value.matches else _ => false, q);
    match answer
    case MetricNotFound => m := NotFound;
    case Failed => m := Metric.Failed;
    case Panicked => m := Metric.Panicked;
    case Answered(total, retrievalTime, matched, forced) =>
      if selection.None? {
        return Metric.Panicked;
      }
      var prometheus, labels := GetLabelsForOutput(matched);
      var scaling := host.config.store[key].scaling;
      var scaledTotal := S.GetOutput(scaling, ToInt32(total));
      var first := name;
      if forced {
        first := "ForciblyScaledUp_" + first;
        scaledTotal := scaling.maxWorkers;
      }
      m := Value(scaledTotal, retrievalTime, [first, selection.value.text] + prometheus, labels);
  }

  /** The shape of the published value: non-decreasing in the queue, inside [Min, Max], Min for an empty queue,
      at least 1 for any other, and exactly Max when forced. */
  lemma PublishedShape(sc: S.Scaling, total: Count, total': Count)
    requires sc.Valid() && sc.maxWorkers >= 1 && total <= total'
    ensures Published(sc, total, false) <= Published(sc, total', false)
    ensures sc.minWorkers <= Published(sc, total, false) <= sc.maxWorkers
    ensures Published(sc, 0, false) == sc.minWorkers
    ensures total > 0 ==> Published(sc, total, false) >= 1
    ensures Published(sc, total, true) == sc.maxWorkers >= Published(sc, total, false)
  {
    S.OutputMonotone(sc, total, total');
    S.OutputInRangeIff(sc, total);
    if total > 0 {
      S.OutputServesQueue(sc, total);
    }
  }
}
