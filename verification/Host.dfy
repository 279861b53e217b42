/** apiserver/pkg/host/host.go: QueryMetric joins the cached queue, the forced-scale timer and selection. */
module Host {
  import opened Wrappers
  import opened Labeling
  import opened State
  import opened GitClient
  import S = Scaling
  import W = Workflows

  /** What the outside world answers during one query: clock readings in order, GitHub's response if
      asked, the workflow data if asked, and the random draw. */
  datatype Query = Query(
    checkTime: int, response: Option<Page>, fetchTime: int,
    info: Option<InfoMap>, pollTime: int, rnd: int)
  {
    predicate Ordered() {
      checkTime <= fetchTime <= pollTime && 0 <= rnd < S.DAY_IN_SECONDS
    }
  }

  datatype Outcome = QueueFailed | InfoFailed | NilTimer | Polled(forced: bool)

  /** One query's effect on the workflow's record. */
  function QueryStep(w: Windows, sc: S.Scaling, s: ClientState, q: Query, infoOk: bool): (ClientState, Outcome) {
    var s' := AfterGetQueuedJobs(w, s, q.checkTime, q.response, q.fetchTime);
    if IsStale(w, s, q.checkTime) && q.response.None? then (s', QueueFailed)
    else if !infoOk then (s', InfoFailed)
    else TimerStep(sc, s', q)
  }

  function TimerStep(sc: S.Scaling, s: ClientState, q: Query): (ClientState, Outcome) {
    match S.CalculateForcedScale(sc, s.nextForcedScale, q.pollTime, q.rnd)
    case NilDereference => (s, NilTimer)
    case Answer(now, next) => (s.(nextForcedScale := Some(next)), Polled(now))
  }

  datatype Answer =
    | MetricNotFound
    | Failed
    | Panicked
    | Answered(total: nat, retrievalTime: int, matched: map<string, seq<string>>, forced: bool)

  class Host {
    const config: W.Config
    const windows: Windows
    const stateProvider: InMemoryStateProvider
    const sanitize: string -> string

    constructor (config: W.Config, windows: Windows, sanitize: string -> string)
      ensures this.config == config && this.windows == windows && this.sanitize == sanitize
      ensures fresh(stateProvider) && stateProvider.clientStateData == map[]
    {
      this.config, this.windows, this.sanitize := config, windows, sanitize;
      stateProvider := new InMemoryStateProvider();
    }

    function GitOwnerRepo(wf: W.Workflow): string {
      wf.owner + "/" + wf.repository
    }

    /** The second read-modify-write of the record: advance the persisted timer. */
    method AdvanceTimer(wf: W.Workflow, q: Query) returns (outcome: Outcome)
      modifies stateProvider`clientStateData
      ensures (stateProvider.StateOf(wf.name), outcome) == TimerStep(wf.scaling, old(stateProvider.StateOf(wf.name)), q)
      ensures forall other :: other != wf.name ==> stateProvider.StateOf(other) == old(stateProvider.StateOf(other))
    {
      var clientState := stateProvider.GetState(wf.name);
      var forceScale := S.CalculateForcedScale(wf.scaling, clientState.nextForcedScale, q.pollTime, q.rnd);
      if forceScale.NilDereference? {
        return NilTimer;
      }
      if clientState.nextForcedScale.None? || forceScale.next != clientState.nextForcedScale.value {
        clientState := clientState.(nextForcedScale := Some(forceScale.next));
        stateProvider.SetState(wf.name, clientState);
      }
      return Polled(forceScale.now);
    }

    /** The reply to a query that ended in `outcome` with the record `after`. */
    ghost predicate Reports(answer: Answer, outcome: Outcome, after: ClientState, wf: W.Workflow,
        info: map<string, InfoMap>, selector: Selector) {
      match outcome
      case QueueFailed => answer == Failed
      case InfoFailed => answer == Failed
      case NilTimer => answer == Panicked
      case Polled(forced) =>
        && answer.Answered? && answer.forced == forced && answer.retrievalTime == after.lastRequest
        && GitOwnerRepo(wf) in info
        && var ctx := Context(wf, info[GitOwnerRepo(wf)], sanitize);
        && answer.total == |Matching(after.lastValue, ctx, selector)|
        && Collected(answer.matched, after.lastValue, ctx, selector)
    }

    method QueryMetric(key: string, selector: Selector, q: Query) returns (answer: Answer)
      modifies stateProvider
      ensures key !in config.store ==> answer == MetricNotFound && unchanged(stateProvider)
      ensures key in config.store ==>
        var wf := config.store[key];
        var infoOk := GitOwnerRepo(wf) in old(stateProvider.workflowInfo) || q.info.Some?;
        var (after, outcome) := QueryStep(windows, wf.scaling, old(stateProvider.StateOf(wf.name)), q, infoOk);
        && stateProvider.StateOf(wf.name) == after
        && (forall other :: other != wf.name ==> stateProvider.StateOf(other) == old(stateProvider.StateOf(other)))
        && Reports(answer, outcome, after, wf, stateProvider.workflowInfo, selector)
    {
      var found := config.GetWorkflow(key);
      if found.None? {
        return MetricNotFound;
      }
      var wf := found.value;
      var client := new Client(windows, wf.name, GitOwnerRepo(wf), stateProvider);
      var jobs, retrievalTime, failed := client.GetQueuedJobs(q.checkTime, q.response, q.fetchTime);
      if failed {
        return Failed;
      }
      var info := client.GetWorkflowInfo(q.info);
      if info.None? {
        return Failed;
      }
      var outcome := AdvanceTimer(wf, q);
      if outcome.NilTimer? {
        return Panicked;
      }
      var filtered, matched := FilterBySelector(jobs, Context(wf, info.value, sanitize), selector);
      return Answered(|filtered|, retrievalTime, matched, outcome.forced);
    }
  }
}
