/** Many QueryMetric calls on one workflow, interleaved at every access to the shared record. Each call
    works on copies, so it may check a stale copy and may overwrite what another call has just saved. */
module CacheInterleaving {
  import opened Wrappers
  import opened State
  import opened GitClient
  import H = Host
  import S = Scaling

  /** A successful answer from GitHub, stamped when it was taken over into a copy of the record. */
  datatype Response = Response(time: int, value: Page)

  /** Where one call stands, with its own copy of the record. */
  datatype Call =
    | Idle
    | Loaded(start: int, copy: ClientState)
    | Missed(start: int, copy: ClientState)
    | Responded(start: int, copy: ClientState, ok: bool)
    | Served
    | Reloaded(copy: ClientState)

  /** An error-free answer of GetQueuedJobs: the value and its time, when the call began, when the copy was
      checked if it was served from the copy, and whether this call fetched it. */
  datatype Answer = Answer(value: Page, time: int, start: int, checkedAt: int, fetched: bool)

  datatype World = World(
    clock: int,
    store: ClientState,
    calls: map<nat, Call>,
    history: seq<Response>,
    answers: seq<Answer>)

  /** One atomic step; a step of a call that is not at that point does nothing. */
  datatype Label =
    | Tick(elapsed: nat)
    | GetState(call: nat)
    | Check(call: nat)
    | Fetch(call: nat, response: Option<Page>)
    | SaveState(call: nat)
    | InfoFails(call: nat)
    | GetStateAgain(call: nat)
    | SaveTimer(call: nat, rnd: int)

  datatype Fixed = Fixed(windows: Windows, scaling: S.Scaling)

  function CallOf(w: World, t: nat): Call {
    if t in w.calls then w.calls[t] else Idle
  }

  function Move(w: World, t: nat, c: Call): World {
    w.(calls := w.calls[t := c])
  }

  function Step(f: Fixed, w: World, l: Label): World {
    match l
    case Tick(elapsed) => w.(clock := w.clock + elapsed)
    case GetState(t) =>
      if CallOf(w, t).Idle? then Move(w, t, Loaded(w.clock, w.store)) else w
    case Check(t) =>
      (match CallOf(w, t)
       case Loaded(start, copy) =>
         if IsStale(f.windows, copy, w.clock) then Move(w, t, Missed(start, copy))
         else
           Move(w, t, Served)
             .(answers := w.answers + [Answer(copy.lastValue, copy.lastRequest, start, w.clock, false)])
       case _ => w)
    case Fetch(t, response) =>
      (match CallOf(w, t)
       case Missed(start, copy) =>
         Move(w, t, Responded(start, Refreshed(copy, response, w.clock), response.Some?))
           .(history := w.history + if response.Some? then [Response(w.clock, response.value)] else [])
       case _ => w)
    case SaveState(t) =>
      (match CallOf(w, t)
       case Responded(start, copy, ok) =>
         if ok then
           Move(w, t, Served).(store := copy,
               answers := w.answers + [Answer(copy.lastValue, copy.lastRequest, start, w.clock, true)])
         else Move(w, t, Idle).(store := copy)
       case _ => w)
    case InfoFails(t) =>
      if CallOf(w, t).Served? then Move(w, t, Idle) else w
    case GetStateAgain(t) =>
      if CallOf(w, t).Served? then Move(w, t, Reloaded(w.store)) else w
    case SaveTimer(t, rnd) =>
      (match CallOf(w, t)
       case Reloaded(copy) =>
         (match S.CalculateForcedScale(f.scaling, copy.nextForcedScale, w.clock, rnd)
          case NilDereference => Move(w, t, Idle)
          case Answer(_, next) =>
            if copy.nextForcedScale == Some(next) then Move(w, t, Idle)
            else Move(w, t, Idle).(store := copy.(nextForcedScale := Some(next))))
       case _ => w)
  }

  function After(f: Fixed, w: World, labels: seq<Label>): World {
    if labels == [] then w else Step(f, After(f, w, labels[..|labels| - 1]), labels[|labels| - 1])
  }

  function Start(name: string, clock: int): World {
    World(clock, NewClientState(name), map[], [], [])
  }

  /** A Valid record holds something GitHub really answered, with that answer's own time. */
  ghost predicate Genuine(w: World, s: ClientState) {
    s.status == Valid ==> Response(s.lastRequest, s.lastValue) in w.history
  }

  ghost predicate GenuineCall(w: World, c: Call) {
    match c
    case Idle => true
    case Served => true
    case Loaded(start, copy) => start <= w.clock && Genuine(w, copy)
    case Missed(start, copy) => start <= w.clock && Genuine(w, copy)
    case Responded(start, copy, ok) =>
      start <= w.clock && Genuine(w, copy) && (ok ==> copy.status == Valid && start <= copy.lastRequest)
    case Reloaded(copy) => Genuine(w, copy)
  }

  /** Fetched during its own call, or no older at the check than the window for that value. */
  ghost predicate Fresh(f: Fixed, a: Answer) {
    if a.fetched then a.start <= a.time
    else if a.value == [] then a.checkedAt <= a.time + f.windows.cacheWindowWhenEmpty
    else a.checkedAt <= a.time + f.windows.cacheWindow
  }

  ghost predicate Correct(f: Fixed, w: World) {
    && Genuine(w, w.store)
    && (forall t :: t in w.calls ==> GenuineCall(w, w.calls[t]))
    && (forall a :: a in w.answers ==> Response(a.time, a.value) in w.history && Fresh(f, a))
  }

  lemma StepCorrect(f: Fixed, w: World, l: Label)
    requires Correct(f, w)
    ensures Correct(f, Step(f, w, l))
  {
  }

  /** Whatever the interleaving: a stored Valid record is a genuine past answer of GitHub with its own time,
      and every error-free answer is genuine and either fetched during its call or within its window when checked. */
  lemma {:induction false} CacheIsCorrect(f: Fixed, name: string, clock: int, labels: seq<Label>)
    ensures
      var w := After(f, Start(name, clock), labels);
      && Genuine(w, w.store)
      && (forall a :: a in w.answers ==> Response(a.time, a.value) in w.history && Fresh(f, a))
      && Correct(f, w)
  {
    if labels != [] {
      CacheIsCorrect(f, name, clock, labels[..|labels| - 1]);
      StepCorrect(f, After(f, Start(name, clock), labels[..|labels| - 1]), labels[|labels| - 1]);
    }
  }

  /** The first half of a call in a row: load, check, fetch and save. */
  function Queued(f: Fixed, w: World, t: nat, response: Option<Page>, d: nat): World {
    var checked := Step(f, Step(f, w, GetState(t)), Check(t));
    Step(f, Step(f, Step(f, checked, Tick(d)), Fetch(t, response)), SaveState(t))
  }

  /** The second half: the workflow data, then load and save for the timer. */
  function Timed(f: Fixed, w: World, t: nat, infoOk: bool, d: nat, rnd: int): World {
    if infoOk then Step(f, Step(f, Step(f, w, Tick(d)), GetStateAgain(t)), SaveTimer(t, rnd))
    else Step(f, w, InfoFails(t))
  }

  lemma QueuedIsGetQueuedJobs(f: Fixed, w: World, t: nat, response: Option<Page>, d: nat)
    requires CallOf(w, t).Idle?
    ensures
      var w' := Queued(f, w, t, response, d);
      && w'.store == AfterGetQueuedJobs(f.windows, w.store, w.clock, response, w.clock + d)
      && w'.clock == w.clock + d
      && CallOf(w', t) == if IsStale(f.windows, w.store, w.clock) && response.None? then Idle else Served
  {
    var checked := Step(f, Step(f, w, GetState(t)), Check(t));
    if IsStale(f.windows, w.store, w.clock) {
      assert CallOf(checked, t) == Missed(w.clock, w.store);
    } else {
      assert CallOf(checked, t) == Served;
    }
  }

  lemma TimedIsTimerStep(f: Fixed, w: World, t: nat, q: H.Query, infoOk: bool, d: nat)
    requires CallOf(w, t).Served? && q.pollTime == w.clock + d
    ensures
      var w' := Timed(f, w, t, infoOk, d, q.rnd);
      CallOf(w', t).Idle? && w'.store == if infoOk then H.TimerStep(f.scaling, w.store, q).0 else w.store
  {
  }

  lemma TimedIdles(f: Fixed, w: World, t: nat, infoOk: bool, d: nat, rnd: int)
    requires CallOf(w, t).Idle?
    ensures CallOf(Timed(f, w, t, infoOk, d, rnd), t).Idle? && Timed(f, w, t, infoOk, d, rnd).store == w.store
  {
  }

  /** A call that runs without interruption, whatever fails, does to the record exactly what QueryStep says. */
  lemma UninterruptedCall(f: Fixed, w: World, t: nat, response: Option<Page>, infoOk: bool, d1: nat, d2: nat, rnd: int)
    requires CallOf(w, t).Idle?
    ensures
      var q := H.Query(w.clock, response, w.clock + d1, None, w.clock + d1 + d2, rnd);
      var w' := Timed(f, Queued(f, w, t, response, d1), t, infoOk, d2, rnd);
      CallOf(w', t).Idle? && w'.store == H.QueryStep(f.windows, f.scaling, w.store, q, infoOk).0
  {
    QueuedIsGetQueuedJobs(f, w, t, response, d1);
    var queued := Queued(f, w, t, response, d1);
    if CallOf(queued, t).Served? {
      TimedIsTimerStep(f, queued, t, H.Query(w.clock, response, w.clock + d1, None, w.clock + d1 + d2, rnd), infoOk,
          d2);
    } else {
      TimedIdles(f, queued, t, infoOk, d2, rnd);
    }
  }
}
