/** apiserver/pkg/gitclient/client.go: the time-windowed cache of a workflow's queue. */
module GitClient {
  import opened Wrappers
  import opened State

  datatype Windows = Windows(cacheWindow: int, cacheWindowWhenEmpty: int)
  {
    function Least(): (w: int)
      ensures w <= cacheWindow && w <= cacheWindowWhenEmpty
      ensures w == cacheWindow || w == cacheWindowWhenEmpty
    {
      if cacheWindow <= cacheWindowWhenEmpty then cacheWindow else cacheWindowWhenEmpty
    }

    function For(value: Page): (w: int)
      ensures w >= Least()
    {
      if value == [] then cacheWindowWhenEmpty else cacheWindow
    }
  }

  function CacheUntil(w: Windows, s: ClientState): int {
    s.lastRequest + w.For(s.lastValue)
  }

  predicate IsStale(w: Windows, s: ClientState, now: int) {
    s.status != Valid || now > CacheUntil(w, s)
  }

  /** A Valid record is served up to the end of its window, the one for empty queues if its value is empty; no
      other record is served at all. */
  lemma ServedIff(w: Windows, s: ClientState, now: int)
    ensures s.status == Valid && s.lastValue != [] ==> (!IsStale(w, s, now) <==> now <= s.lastRequest + w.cacheWindow)
    ensures s.status == Valid && s.lastValue == [] ==>
              (!IsStale(w, s, now) <==> now <= s.lastRequest + w.cacheWindowWhenEmpty)
    ensures s.status != Valid ==> IsStale(w, s, now)
  {
  }

  /** The record after asking GitHub; None is a failed request. */
  function Refreshed(s: ClientState, response: Option<Page>, fetchTime: int): ClientState {
    match response
    case None => s.(status := Errored)
    case Some(runs) => s.(lastRequest := fetchTime, lastValue := runs, status := Valid)
  }

  function AfterGetQueuedJobs(w: Windows, s: ClientState, checkTime: int,
                              response: Option<Page>, fetchTime: int): ClientState
  {
    if IsStale(w, s, checkTime) then Refreshed(s, response, fetchTime) else s
  }

  class Client {
    const windows: Windows
    const name: string
    const gitOwnerRepo: string
    const stateProvider: InMemoryStateProvider

    constructor (windows: Windows, name: string, gitOwnerRepo: string, stateProvider: InMemoryStateProvider)
      ensures this.windows == windows && this.name == name
      ensures this.gitOwnerRepo == gitOwnerRepo && this.stateProvider == stateProvider
    {
      this.windows, this.name := windows, name;
      this.gitOwnerRepo, this.stateProvider := gitOwnerRepo, stateProvider;
    }

    /** `response` is what GitHub would answer and `fetchTime` when; both are used only on a cache miss. */
    method GetQueuedJobs(checkTime: int, response: Option<Page>, fetchTime: int)
      returns (jobs: Page, lastRequest: int, failed: bool)
      modifies stateProvider`clientStateData
      ensures stateProvider.StateOf(name) ==
          AfterGetQueuedJobs(windows, old(stateProvider.StateOf(name)), checkTime, response, fetchTime)
      ensures forall key :: key != name ==> stateProvider.StateOf(key) == old(stateProvider.StateOf(key))
      ensures failed <==> IsStale(windows, old(stateProvider.StateOf(name)), checkTime) && response.None?
      ensures jobs == stateProvider.StateOf(name).lastValue && lastRequest == stateProvider.StateOf(name).lastRequest
    {
      var s := stateProvider.GetState(name);
      var cacheUntil := s.lastRequest + windows.cacheWindow;
      if s.lastValue == [] {
        cacheUntil := s.lastRequest + windows.cacheWindowWhenEmpty;
      }
      failed := false;
      if s.status != Valid || checkTime > cacheUntil {
        match response {
          case None =>
            failed := true;
            s := s.(status := Errored);
          case Some(runs) =>
            s := s.(lastRequest := fetchTime);
            s := s.(lastValue := runs);
            s := s.(status := Valid);
        }
        stateProvider.SetState(name, s);
      }
      jobs, lastRequest := s.lastValue, s.lastRequest;
    }

    /** Once fetched, the in-memory provider keeps a repository's workflow data for good. */
    method GetWorkflowInfo(fetched: Option<InfoMap>) returns (info: Option<InfoMap>)
      modifies stateProvider`workflowInfo
      ensures
        var was := old(stateProvider.workflowInfo);
        info == if gitOwnerRepo in was then Some(was[gitOwnerRepo]) else fetched
      ensures stateProvider.workflowInfo ==
              if info.Some? then old(stateProvider.workflowInfo)[gitOwnerRepo := info.value]
                  else old(stateProvider.workflowInfo)
    {
      info := stateProvider.GetWorkflowInfo(gitOwnerRepo);
      if info.None? {
        info := fetched;
        if info.None? {
          return;
        }
      }
      stateProvider.SetWorkflowInfo(gitOwnerRepo, info.value);
    }
  }

  /** A failed request keeps the last good value, its time and the forced-scale timer, and leaves a
      record that the next call will not serve from, however soon it comes. */
  lemma FailureIsNotCached(w: Windows, s: ClientState, checkTime: int, fetchTime: int, later: int)
    requires IsStale(w, s, checkTime)
    ensures
      var s' := AfterGetQueuedJobs(w, s, checkTime, None, fetchTime);
      && s'.lastValue == s.lastValue && s'.lastRequest == s.lastRequest && s'.nextForcedScale == s.nextForcedScale
      && IsStale(w, s', later)
  {
  }
}
