/** When the request budget survives interleaving: calls whose stretches from a load of the record to the
    save that ends it do not overlap keep it; of two calls on a stale record both ask GitHub exactly when
    each loads the record before the other has saved. */
module CacheBudget {
  import opened Wrappers
  import opened State
  import opened GitClient
  import opened CacheInterleaving
  import HR = HostRuns

  /** The call has a copy of the record in hand. */
  predicate Holds(c: Call) {
    c.Loaded? || c.Missed? || c.Responded? || c.Reloaded?
  }

  /** A load of the record while no other call has a copy in hand; other steps are free. */
  ghost predicate Alone(w: World, l: Label) {
    l.GetState? || l.GetStateAgain? ==> forall t :: t in w.calls && t != l.call ==> !Holds(w.calls[t])
  }

  ghost predicate Exclusive(f: Fixed, w: World, labels: seq<Label>) {
    forall i :: 0 <= i < |labels| ==> Alone(After(f, w, labels[..i]), labels[i])
  }

  function Times(history: seq<Response>): seq<int> {
    seq(|history|, i requires 0 <= i < |history| => history[i].time)
  }

  /** The record knows the last response; if it is not Valid, that response's window is over. */
  ghost predicate Remembers(f: Fixed, w: World, s: ClientState) {
    if w.history == [] then s.status != Valid
    else
      && s.lastRequest == w.history[|w.history| - 1].time
      && (s.status == Valid || w.clock > CacheUntil(f.windows, s))
  }

  ghost predicate CopyInHand(f: Fixed, w: World, c: Call) {
    match c
    case Loaded(_, copy) => copy == w.store
    case Missed(_, copy) => copy == w.store && IsStale(f.windows, copy, w.clock)
    case Responded(_, copy, _) => Remembers(f, w, copy)
    case Reloaded(copy) => copy == w.store
    case _ => true
  }

  ghost predicate NobodyResponded(w: World) {
    forall t :: t in w.calls ==> !w.calls[t].Responded?
  }

  ghost predicate Budgeted(f: Fixed, w: World) {
    && (forall t, t' :: t in w.calls && t' in w.calls && t != t' ==> !(Holds(w.calls[t]) && Holds(w.calls[t'])))
    && (forall t :: t in w.calls ==> CopyInHand(f, w, w.calls[t]))
    && (NobodyResponded(w) ==> Remembers(f, w, w.store))
    && HR.Apart(Times(w.history), f.windows.Least())
  }

  /** While a call has a copy in hand that is no response, nobody has one. */
  lemma CopyMeansNoResponse(f: Fixed, w: World, t: nat)
    requires Budgeted(f, w) && Holds(CallOf(w, t)) && !CallOf(w, t).Responded?
    ensures NobodyResponded(w) && Remembers(f, w, w.store)
  {
  }

  lemma TimesSnoc(history: seq<Response>, r: Response, gap: int)
    requires HR.Apart(Times(history), gap)
    requires history != [] ==> r.time - history[|history| - 1].time > gap
    ensures HR.Apart(Times(history + [r]), gap)
  {
    var before, after := Times(history), Times(history + [r]);
    forall i | 0 <= i < |after| - 1 ensures after[i + 1] - after[i] > gap {
      if i < |before| - 1 {
        assert before[i + 1] - before[i] > gap;
      }
    }
  }

  lemma FetchKeepsBudget(f: Fixed, w: World, t: nat, response: Option<Page>)
    requires Budgeted(f, w) && CallOf(w, t).Missed?
    ensures Budgeted(f, Step(f, w, Fetch(t, response)))
  {
    var w' := Step(f, w, Fetch(t, response));
    CopyMeansNoResponse(f, w, t);
    if response.Some? {
      TimesSnoc(w.history, Response(w.clock, response.value), f.windows.Least());
    } else {
      assert w'.history == w.history;
    }
    assert w'.calls[t].Responded?;
    assert forall t' :: t' in w.calls && t' != t ==> !Holds(w.calls[t']);
  }

  lemma SaveKeepsBudget(f: Fixed, w: World, t: nat)
    requires Budgeted(f, w) && CallOf(w, t).Responded?
    ensures Budgeted(f, Step(f, w, SaveState(t)))
  {
    assert forall t' :: t' in w.calls && t' != t ==> !Holds(w.calls[t']);
  }

  lemma CheckKeepsBudget(f: Fixed, w: World, t: nat)
    requires Budgeted(f, w) && CallOf(w, t).Loaded?
    ensures Budgeted(f, Step(f, w, Check(t)))
  {
    CopyMeansNoResponse(f, w, t);
    assert forall t' :: t' in w.calls && t' != t ==> !Holds(w.calls[t']);
  }

  lemma TimerKeepsBudget(f: Fixed, w: World, t: nat, rnd: int)
    requires Budgeted(f, w) && CallOf(w, t).Reloaded?
    ensures Budgeted(f, Step(f, w, SaveTimer(t, rnd)))
  {
    CopyMeansNoResponse(f, w, t);
    assert forall t' :: t' in w.calls && t' != t ==> !Holds(w.calls[t']);
  }

  lemma FailureKeepsBudget(f: Fixed, w: World, t: nat)
    requires Budgeted(f, w) && CallOf(w, t).Served?
    ensures Budgeted(f, Step(f, w, InfoFails(t)))
  {
    var w' := Step(f, w, InfoFails(t));
    if NobodyResponded(w') {
      forall t' | t' in w.calls ensures !w.calls[t'].Responded? {
        assert t' != t ==> w'.calls[t'] == w.calls[t'];
      }
      assert NobodyResponded(w);
    }
  }

  lemma LoadKeepsBudget(f: Fixed, w: World, l: Label)
    requires Budgeted(f, w) && Alone(w, l) && (l.GetState? || l.GetStateAgain?)
    ensures Budgeted(f, Step(f, w, l))
  {
  }

  lemma StepKeepsBudget(f: Fixed, w: World, l: Label)
    requires Budgeted(f, w) && Alone(w, l)
    ensures Budgeted(f, Step(f, w, l))
  {
    match l
    case Tick(_) =>
    case GetState(_) => LoadKeepsBudget(f, w, l);
    case Check(t) => if CallOf(w, t).Loaded? { CheckKeepsBudget(f, w, t); }
    case Fetch(t, response) => if CallOf(w, t).Missed? { FetchKeepsBudget(f, w, t, response); }
    case SaveState(t) => if CallOf(w, t).Responded? { SaveKeepsBudget(f, w, t); }
    case InfoFails(t) => if CallOf(w, t).Served? { FailureKeepsBudget(f, w, t); }
    case GetStateAgain(_) => LoadKeepsBudget(f, w, l);
    case SaveTimer(t, rnd) => if CallOf(w, t).Reloaded? { TimerKeepsBudget(f, w, t, rnd); }
  }

  lemma {:induction false} ExclusiveIsBudgeted(f: Fixed, name: string, clock: int, labels: seq<Label>)
    requires Exclusive(f, Start(name, clock), labels)
    ensures Budgeted(f, After(f, Start(name, clock), labels))
  {
    if labels != [] {
      var n := |labels| - 1;
      assert forall i :: 0 <= i < n ==> labels[..n][..i] == labels[..i];
      ExclusiveIsBudgeted(f, name, clock, labels[..n]);
      StepKeepsBudget(f, After(f, Start(name, clock), labels[..n]), labels[n]);
    }
  }

  /** The budget of any number of calls, interleaved anywhere but between a load and the save that ends it. */
  lemma ExclusiveBudget(f: Fixed, name: string, clock: int, labels: seq<Label>)
    requires Exclusive(f, Start(name, clock), labels)
    ensures
      var times := Times(After(f, Start(name, clock), labels).history);
      && HR.Apart(times, f.windows.Least())
      && (|times| >= 2 ==> times[|times| - 1] - times[0] > (|times| - 1) * f.windows.Least())
  {
    ExclusiveIsBudgeted(f, name, clock, labels);
    var times := Times(After(f, Start(name, clock), labels).history);
    if |times| >= 2 {
      HR.ApartSpan(times, f.windows.Least());
    }
  }

  // ---------------------------------------------------------------------------------------------
  // Two calls

  /** Two calls and GitHub's answers to them; the second one is `true`. */
  datatype Pair = Pair(first: nat, second: nat, firstResponse: Page, secondResponse: Page)
  {
    function Id(who: bool): nat {
      if who then second else first
    }

    function Response(who: bool): Page {
      if who then secondResponse else firstResponse
    }

    /** The next step of a call after `done` of them; there are four. */
    function Next(who: bool, done: nat): Label {
      if done == 0 then GetState(Id(who))
      else if done == 1 then Check(Id(who))
      else if done == 2 then Fetch(Id(who), Some(Response(who)))
      else if done == 3 then SaveState(Id(who))
      else Tick(0)
    }

    function Swapped(): Pair {
      Pair(second, first, secondResponse, firstResponse)
    }
  }

  /** A step of one of the calls, or time that passes. */
  datatype Turn = Act(who: bool) | Wait(elapsed: nat)

  /** What a schedule says of one call: its steps, whether it loaded the record before the other call had saved,
      and when it checked its copy and asked GitHub, if it did. */
  datatype Log = Log(done: nat, early: bool, checkedAt: int, fetchedAt: int)

  datatype Logs = Logs(clock: int, first: Log, second: Log)

  function Advanced(own: Log, other: Log, clock: int): Log {
    Log(own.done + 1, if own.done == 0 then other.done < 4 else own.early,
        if own.done == 1 then clock else own.checkedAt, if own.done == 2 then clock else own.fetchedAt)
  }

  function LogsOf(schedule: seq<Turn>, clock: int): Logs {
    if schedule == [] then Logs(clock, Log(0, false, clock, clock), Log(0, false, clock, clock))
    else
      var l := LogsOf(schedule[..|schedule| - 1], clock);
      match schedule[|schedule| - 1]
      case Wait(elapsed) => l.(clock := l.clock + elapsed)
      case Act(who) =>
        if who then l.(second := Advanced(l.second, l.first, l.clock))
        else l.(first := Advanced(l.first, l.second, l.clock))
  }

  function RunBoth(f: Fixed, w: World, p: Pair, schedule: seq<Turn>): World {
    if schedule == [] then w
    else
      var init := schedule[..|schedule| - 1];
      var l, w' := LogsOf(init, w.clock), RunBoth(f, w, p, init);
      match schedule[|schedule| - 1]
      case Wait(elapsed) => Step(f, w', Tick(elapsed))
      case Act(who) => Step(f, w', p.Next(who, if who then l.second.done else l.first.done))
  }

  /** The call asks GitHub: it loaded the record before the other one had saved, or checks the other one's response
      after its window. */
  predicate Asks(f: Fixed, own: Log, other: Log, otherResponse: Page) {
    own.early
    || own.checkedAt >
       other.fetchedAt + if otherResponse == [] then f.windows.cacheWindowWhenEmpty else f.windows.cacheWindow
  }

  predicate Holding(s: ClientState, time: int, value: Page) {
    s.status == Valid && s.lastRequest == time && s.lastValue == value
  }

  /** Where a call is, by its log. */
  ghost predicate Progress(f: Fixed, clock: int, c: Call, own: Log, other: Log, response: Page, otherResponse: Page) {
    if own.done == 0 then c.Idle?
    else if own.done == 1 then
      c.Loaded? && if own.early then IsStale(f.windows, c.copy, clock)
          else Holding(c.copy, other.fetchedAt, otherResponse)
    else if own.done >= 4 || !Asks(f, own, other, otherResponse) then c.Served?
    else if own.done == 2 then c.Missed?
    else c.Responded? && c.ok && Holding(c.copy, own.fetchedAt, response)
  }

  /** The record, as a call finds it that has not loaded it yet. */
  ghost predicate Awaiting(f: Fixed, w: World, own: Log, other: Log, otherResponse: Page) {
    own.done == 0 ==>
      if other.done >= 4 then Holding(w.store, other.fetchedAt, otherResponse) else IsStale(f.windows, w.store, w.clock)
  }

  predicate Plausible(own: Log, other: Log, clock: int) {
    && (own.done >= 1 && !own.early ==> other.done >= 4 && other.early)
    && (own.done >= 2 ==> own.checkedAt <= clock)
    && (own.done >= 3 ==> own.checkedAt <= own.fetchedAt <= clock)
  }

  predicate HasFetched(f: Fixed, own: Log, other: Log, otherResponse: Page) {
    own.done >= 3 && Asks(f, own, other, otherResponse)
  }

  /** The responses that the two calls have added to the history, in order. */
  ghost predicate Added(h: seq<Response>, h': seq<Response>, f1: bool, t1: int, f2: bool, t2: int) {
    && h <= h' && |h'| == |h| + (if f1 then 1 else 0) + (if f2 then 1 else 0)
    && (f1 && !f2 ==> h'[|h|].time == t1) && (f2 && !f1 ==> h'[|h|].time == t2)
    && (f1 && f2 ==>
         && h'[|h|].time <= h'[|h| + 1].time
         && ((h'[|h|].time == t1 && h'[|h| + 1].time == t2) || (h'[|h|].time == t2 && h'[|h| + 1].time == t1)))
  }

  ghost predicate Tracks(f: Fixed, w0: World, w: World, p: Pair, l1: Log, l2: Log) {
    && Progress(f, w.clock, CallOf(w, p.first), l1, l2, p.firstResponse, p.secondResponse)
    && Progress(f, w.clock, CallOf(w, p.second), l2, l1, p.secondResponse, p.firstResponse)
    && Awaiting(f, w, l1, l2, p.secondResponse) && Awaiting(f, w, l2, l1, p.firstResponse)
    && Plausible(l1, l2, w.clock) && Plausible(l2, l1, w.clock)
    && Added(w0.history, w.history, HasFetched(f, l1, l2, p.secondResponse), l1.fetchedAt,
             HasFetched(f, l2, l1, p.firstResponse), l2.fetchedAt)
  }

  lemma FirstActs(f: Fixed, w0: World, w: World, p: Pair, l1: Log, l2: Log)
    requires p.first != p.second && Tracks(f, w0, w, p, l1, l2)
    ensures Tracks(f, w0, Step(f, w, p.Next(false, l1.done)), p, Advanced(l1, l2, w.clock), l2)
    ensures Step(f, w, p.Next(false, l1.done)).clock == w.clock
  {
  }

  lemma SecondActs(f: Fixed, w0: World, w: World, p: Pair, l1: Log, l2: Log)
    requires p.first != p.second && Tracks(f, w0, w, p, l1, l2)
    ensures Tracks(f, w0, Step(f, w, p.Next(true, l2.done)), p, l1, Advanced(l2, l1, w.clock))
    ensures Step(f, w, p.Next(true, l2.done)).clock == w.clock
  {
    FirstActs(f, w0, w, p.Swapped(), l2, l1);
  }

  lemma BothWait(f: Fixed, w0: World, w: World, p: Pair, l1: Log, l2: Log, elapsed: nat)
    requires Tracks(f, w0, w, p, l1, l2)
    ensures Tracks(f, w0, Step(f, w, Tick(elapsed)), p, l1, l2)
  {
  }

  lemma {:induction false} BothTrack(f: Fixed, w: World, p: Pair, schedule: seq<Turn>)
    requires p.first != p.second && CallOf(w, p.first).Idle? && CallOf(w, p.second).Idle?
    requires IsStale(f.windows, w.store, w.clock)
    ensures
      var l, w' := LogsOf(schedule, w.clock), RunBoth(f, w, p, schedule);
      w'.clock == l.clock && Tracks(f, w, w', p, l.first, l.second)
  {
    if schedule != [] {
      var init := schedule[..|schedule| - 1];
      BothTrack(f, w, p, init);
      var l, w' := LogsOf(init, w.clock), RunBoth(f, w, p, init);
      match schedule[|schedule| - 1]
      case Wait(elapsed) => BothWait(f, w, w', p, l.first, l.second, elapsed);
      case Act(who) =>
        if who {
          SecondActs(f, w, w', p, l.first, l.second);
        } else {
          FirstActs(f, w, w', p, l.first, l.second);
        }
    }
  }

  /** However two whole calls on a stale record are interleaved, and whatever time passes between their steps: each asks
      GitHub exactly when it loads the record before the other has saved, or checks the other's response after its
      window. One of them always does. */
  lemma TwoCallsFetchIff(f: Fixed, w: World, p: Pair, schedule: seq<Turn>)
    requires p.first != p.second && CallOf(w, p.first).Idle? && CallOf(w, p.second).Idle?
    requires IsStale(f.windows, w.store, w.clock)
    requires LogsOf(schedule, w.clock).first.done >= 4 && LogsOf(schedule, w.clock).second.done >= 4
    ensures
      var l, h' := LogsOf(schedule, w.clock), RunBoth(f, w, p, schedule).history;
      var f1, f2 := Asks(f, l.first, l.second, p.secondResponse), Asks(f, l.second, l.first, p.firstResponse);
      && Added(w.history, h', f1, l.first.fetchedAt, f2, l.second.fetchedAt)
      && (l.first.early || l.second.early) && (f1 || f2)
  {
    BothTrack(f, w, p, schedule);
  }

  /** The two break the budget exactly when each loads before the other has saved and they ask GitHub within the
      shorter window of each other. */
  lemma TwoCallsBreakBudgetIff(f: Fixed, w: World, p: Pair, schedule: seq<Turn>)
    requires p.first != p.second && CallOf(w, p.first).Idle? && CallOf(w, p.second).Idle?
    requires IsStale(f.windows, w.store, w.clock)
    requires LogsOf(schedule, w.clock).first.done >= 4 && LogsOf(schedule, w.clock).second.done >= 4
    ensures
      var l, k, h' := LogsOf(schedule, w.clock), |w.history|, RunBoth(f, w, p, schedule).history;
      var apart := if l.first.fetchedAt <= l.second.fetchedAt then l.second.fetchedAt - l.first.fetchedAt
                   else l.first.fetchedAt - l.second.fetchedAt;
      && |h'| <= k + 2
      && ((|h'| == k + 2 && h'[k + 1].time - h'[k].time <= f.windows.Least()) <==>
          l.first.early && l.second.early && apart <= f.windows.Least())
  {
    BothTrack(f, w, p, schedule);
  }
}
