/** Sequential runs of QueryMetric on one workflow: how the persisted timer and the cache behave over
    whole runs, with failed queries anywhere in between. */
module HostRuns {
  import opened Wrappers
  import opened State
  import opened GitClient
  import opened Host
  import S = Scaling

  datatype Event = Event(query: Query, infoOk: bool)

  type Run = seq<Event>

  /** Each query's clock readings are in order, and queries follow one another. */
  ghost predicate Sequential(run: Run) {
    && (forall i :: 0 <= i < |run| ==> run[i].query.Ordered())
    && (forall i :: 0 <= i < |run| - 1 ==> run[i].query.pollTime <= run[i + 1].query.checkTime)
  }

  datatype Fixed = Fixed(windows: Windows, scaling: S.Scaling)

  function After(f: Fixed, start: ClientState, run: Run): ClientState {
    if run == [] then start
    else
      var last := run[|run| - 1];
      QueryStep(f.windows, f.scaling, After(f, start, run[..|run| - 1]), last.query, last.infoOk).0
  }

  lemma SequentialPrefix(run: Run)
    requires Sequential(run) && run != []
    ensures Sequential(run[..|run| - 1])
  {
  }

  // ---------------------------------------------------------------------------------------------
  // The forced scale-up timer

  /** A successful query: when it read the clock, the random draw, the timer it found, its verdict. */
  datatype Poll = Poll(now: int, rnd: int, armed: Option<int>, forced: bool)

  /** The successful queries of a run, in order. */
  function Polls(f: Fixed, start: ClientState, run: Run): seq<Poll> {
    if run == [] then []
    else
      var n := |run| - 1;
      var s := After(f, start, run[..n]);
      Polls(f, start, run[..n]) +
      NewPoll(s, run[n], QueryStep(f.windows, f.scaling, s, run[n].query, run[n].infoOk).1)
  }

  function NewPoll(s: ClientState, e: Event, outcome: Outcome): seq<Poll> {
    if outcome.Polled? then [Poll(e.query.pollTime, e.query.rnd, s.nextForcedScale, outcome.forced)] else []
  }

  /** The timer a poll leaves behind. */
  function Rearmed(sc: S.Scaling, p: Poll): Option<int> {
    match S.CalculateForcedScale(sc, p.armed, p.now, p.rnd)
    case NilDereference => None
    case Answer(_, next) => Some(next)
  }

  function TimerAfter(sc: S.Scaling, start: Option<int>, polls: seq<Poll>): Option<int> {
    if polls == [] then start else Rearmed(sc, polls[|polls| - 1])
  }

  /** The poll finds `timer` and answers by it. */
  ghost predicate Continues(sc: S.Scaling, timer: Option<int>, p: Poll) {
    && 0 <= p.rnd < S.DAY_IN_SECONDS && p.armed == timer
    && S.CalculateForcedScale(sc, timer, p.now, p.rnd).Answer?
    && p.forced == S.CalculateForcedScale(sc, timer, p.now, p.rnd).now
  }

  /** The polls read and write one timer, one after the other. */
  ghost predicate TimerRun(sc: S.Scaling, start: Option<int>, polls: seq<Poll>) {
    && (forall i :: 0 <= i < |polls| ==> Continues(sc, TimerAfter(sc, start, polls[..i]), polls[i]))
    && (forall i, j :: 0 <= i <= j < |polls| ==> polls[i].now <= polls[j].now)
  }

  lemma TimerRunSnoc(sc: S.Scaling, start: Option<int>, polls: seq<Poll>, p: Poll)
    requires TimerRun(sc, start, polls) && Continues(sc, TimerAfter(sc, start, polls), p)
    requires polls != [] ==> polls[|polls| - 1].now <= p.now
    ensures TimerRun(sc, start, polls + [p])
    ensures TimerAfter(sc, start, polls + [p]) == Rearmed(sc, p)
  {
    var all := polls + [p];
    assert all[..|polls|] == polls;
    assert forall i :: 0 <= i < |polls| ==> all[i] == polls[i] && all[..i] == polls[..i];
  }

  /** One query, seen from the timer: a poll if it succeeds, nothing if it fails. */
  lemma QueryAdvancesTimer(f: Fixed, s: ClientState, e: Event)
    requires e.query.Ordered()
    ensures
      var (after, outcome) := QueryStep(f.windows, f.scaling, s, e.query, e.infoOk);
      if outcome.Polled? then
        var p := Poll(e.query.pollTime, e.query.rnd, s.nextForcedScale, outcome.forced);
        Continues(f.scaling, s.nextForcedScale, p) && after.nextForcedScale == Rearmed(f.scaling, p)
      else after.nextForcedScale == s.nextForcedScale
  {
  }

  lemma PollTimesRise(run: Run)
    requires Sequential(run) && |run| > 1
    ensures run[|run| - 2].query.pollTime <= run[|run| - 1].query.pollTime
  {
  }

  /** The successful queries of the run are one timer's polls, and the record holds that timer. */
  ghost predicate Tracks(f: Fixed, timer: Option<int>, polls: seq<Poll>, s: ClientState, now: int) {
    && TimerRun(f.scaling, timer, polls)
    && s.nextForcedScale == TimerAfter(f.scaling, timer, polls)
    && (polls != [] ==> polls[|polls| - 1].now <= now)
  }

  function LastTime(run: Run): int
    requires run != []
  {
    run[|run| - 1].query.pollTime
  }

  /** Failed queries leave the timer alone, and fetches share its record without touching it. */
  lemma {:induction false} PollsAreTimerRun(f: Fixed, start: ClientState, run: Run)
    requires Sequential(run)
    ensures TimerRun(f.scaling, start.nextForcedScale, Polls(f, start, run))
    ensures
      if run == [] then Polls(f, start, run) == [] && After(f, start, run) == start
      else Tracks(f, start.nextForcedScale, Polls(f, start, run), After(f, start, run), LastTime(run))
  {
    if run != [] {
      var init, e := run[..|run| - 1], run[|run| - 1];
      SequentialPrefix(run);
      PollsAreTimerRun(f, start, init);
      if init != [] {
        PollTimesRise(run);
      }
      ExtendTimerRun(f, start.nextForcedScale, Polls(f, start, init), After(f, start, init), e);
    }
  }

  lemma ExtendTimerRun(f: Fixed, timer: Option<int>, polls: seq<Poll>, s: ClientState, e: Event)
    requires Tracks(f, timer, polls, s, e.query.pollTime) && e.query.Ordered()
    ensures
      var (after, outcome) := QueryStep(f.windows, f.scaling, s, e.query, e.infoOk);
      Tracks(f, timer, polls + NewPoll(s, e, outcome), after, e.query.pollTime)
  {
    QueryAdvancesTimer(f, s, e);
    var outcome := QueryStep(f.windows, f.scaling, s, e.query, e.infoOk).1;
    if outcome.Polled? {
      TimerRunSnoc(f.scaling, timer, polls, Poll(e.query.pollTime, e.query.rnd, s.nextForcedScale, outcome.forced));
    } else {
      assert polls + [] == polls;
    }
  }

  lemma TimerRunStep(sc: S.Scaling, start: Option<int>, polls: seq<Poll>, i: nat)
    requires TimerRun(sc, start, polls) && i + 1 < |polls|
    ensures Continues(sc, polls[i].armed, polls[i])
    ensures Continues(sc, Rearmed(sc, polls[i]), polls[i + 1])
  {
  }

  /** Consecutive polls are at most `gap` apart. */
  ghost predicate Frequent(polls: seq<Poll>, gap: int) {
    forall i :: 0 <= i < |polls| - 1 ==> polls[i + 1].now - polls[i].now <= gap
  }

  /** Once armed for a time still ahead, a run that gets past it answers "force now" at the first poll after it. */
  lemma {:induction false} ArmedTimerFires(sc: S.Scaling, start: Option<int>, polls: seq<Poll>, k: nat, armed: int,
      gap: int) returns (j: nat)
    requires TimerRun(sc, start, polls) && Frequent(polls, gap) && gap <= sc.window && sc.window > 0
    requires 0 < k < |polls| && polls[k].armed == Some(armed) && polls[k - 1].now <= armed
    requires polls[|polls| - 1].now > armed
    ensures k <= j < |polls| && polls[j].forced && polls[j].now <= armed + gap
    decreases |polls| - k
  {
    assert Continues(sc, TimerAfter(sc, start, polls[..k]), polls[k]);
    if polls[k].now > armed {
      j := k;
    } else {
      TimerRunStep(sc, start, polls, k);
      j := ArmedTimerFires(sc, start, polls, k + 1, armed, gap);
    }
  }

  lemma MissedWindowRearms(sc: S.Scaling, p: Poll, p': Poll)
    requires Continues(sc, p.armed, p) && Continues(sc, Rearmed(sc, p), p')
    requires sc.window > 0 && p.now <= p'.now && p.forced && !p'.forced
    ensures Rearmed(sc, p') == Some(p'.now + sc.frequency + p'.rnd)
  {
  }

  lemma RearmedTimerFires(sc: S.Scaling, start: Option<int>, polls: seq<Poll>, i: nat, gap: int) returns (j: nat)
    requires TimerRun(sc, start, polls) && Frequent(polls, gap)
    requires sc.frequency >= 0 && 0 < gap <= sc.window
    requires i + 1 < |polls| && polls[i].forced && !polls[i + 1].forced
    requires polls[|polls| - 1].now >= polls[i].now + sc.frequency + 2 * gap + (S.DAY_IN_SECONDS - 1)
    ensures i < j < |polls| && polls[j].forced
    ensures polls[j].now <= polls[i].now + sc.frequency + 2 * gap + (S.DAY_IN_SECONDS - 1)
  {
    TimerRunStep(sc, start, polls, i);
    MissedWindowRearms(sc, polls[i], polls[i + 1]);
    var armed := polls[i + 1].now + sc.frequency + polls[i + 1].rnd;
    assert polls[i + 1].now <= polls[i].now + gap && 0 <= polls[i + 1].rnd < S.DAY_IN_SECONDS;
    assert polls[i + 1].now <= armed < polls[|polls| - 1].now;
    TimerRunStep(sc, start, polls, i + 1);
    j := ArmedTimerFires(sc, start, polls, i + 2, armed, gap);
  }

  lemma TimerNeverStarves(sc: S.Scaling, start: Option<int>, polls: seq<Poll>, i: nat, gap: int) returns (j: nat)
    requires TimerRun(sc, start, polls) && Frequent(polls, gap)
    requires sc.frequency >= 0 && 0 < gap <= sc.window
    requires i < |polls| && polls[i].forced
    requires polls[|polls| - 1].now >= polls[i].now + sc.frequency + 2 * gap + (S.DAY_IN_SECONDS - 1)
    ensures i < j < |polls| && polls[j].forced
    ensures polls[j].now <= polls[i].now + sc.frequency + 2 * gap + (S.DAY_IN_SECONDS - 1)
  {
    if polls[i + 1].forced {
      j := i + 1;
    } else {
      j := RearmedTimerFires(sc, start, polls, i, gap);
    }
  }

  /** The timer only ever moves forward. */
  lemma {:induction false} TimerMovesForward(sc: S.Scaling, start: Option<int>, polls: seq<Poll>, i: nat, j: nat)
    requires TimerRun(sc, start, polls) && sc.window > 0 && sc.frequency >= 0
    requires i <= j < |polls| && polls[i].armed.Some?
    ensures polls[j].armed.Some? && polls[j].armed.value >= polls[i].armed.value
    decreases j - i
  {
    if i < j {
      TimerRunStep(sc, start, polls, i);
      PollMovesTimer(sc, polls[i]);
      assert polls[i + 1].armed == Rearmed(sc, polls[i]);
      TimerMovesForward(sc, start, polls, i + 1, j);
    }
  }

  lemma FirstPollIsUnforced(sc: S.Scaling, polls: seq<Poll>)
    requires TimerRun(sc, None, polls) && polls != [] && sc.window > 0
    ensures !polls[0].forced && 0 <= polls[0].rnd && Continues(sc, None, polls[0])
  {
    assert polls[..0] == [];
  }

  lemma FirstPollArms(sc: S.Scaling, polls: seq<Poll>)
    requires TimerRun(sc, None, polls) && |polls| > 1 && sc.window > 0
    ensures polls[1].armed == Some(polls[0].now + polls[0].rnd * 1_000_000_000) && !polls[0].forced
  {
    FirstPollIsUnforced(sc, polls);
    TimerRunStep(sc, None, polls, 0);
  }

  /** The first arming waits for the drawn number of seconds: from an unarmed timer nothing is forced up to that
      time. */
  lemma FirstForcedNotBefore(f: Fixed, start: ClientState, run: Run, i: nat)
    requires Sequential(run) && f.scaling.window > 0 && f.scaling.frequency >= 0 && start.nextForcedScale.None?
    requires i < |Polls(f, start, run)| && Polls(f, start, run)[i].forced
    ensures
      var first := Polls(f, start, run)[0];
      Polls(f, start, run)[i].now > first.now + first.rnd * 1_000_000_000
  {
    var polls := Polls(f, start, run);
    PollsAreTimerRun(f, start, run);
    FirstPollIsUnforced(f.scaling, polls);
    if i > 0 {
      FirstPollArms(f.scaling, polls);
      TimerMovesForward(f.scaling, None, polls, 1, i);
      ForcedOnlyInWindow(f.scaling, None, polls);
      assert InWindow(f.scaling, polls[i]);
    }
  }

  /** And with queries at most `gap` apart, within the window, something is forced at most `gap` after it. */
  lemma FirstForcedBy(f: Fixed, start: ClientState, run: Run, gap: int) returns (j: nat)
    requires Sequential(run) && 0 < gap <= f.scaling.window && start.nextForcedScale.None?
    requires Frequent(Polls(f, start, run), gap)
    requires
      var polls := Polls(f, start, run);
      polls != [] && polls[|polls| - 1].now > polls[0].now + polls[0].rnd * 1_000_000_000
    ensures
      var polls := Polls(f, start, run);
      j < |polls| && polls[j].forced && polls[j].now <= polls[0].now + polls[0].rnd * 1_000_000_000 + gap
  {
    var polls := Polls(f, start, run);
    PollsAreTimerRun(f, start, run);
    FirstPollIsUnforced(f.scaling, polls);
    FirstPollArms(f.scaling, polls);
    j := ArmedTimerFires(f.scaling, None, polls, 1, polls[0].now + polls[0].rnd * 1_000_000_000, gap);
  }

  /** Later armings wait for the frequency and the drawn number of nanoseconds after the poll that finds the window
      over. */
  lemma LaterArming(f: Fixed, start: ClientState, run: Run, i: nat)
    requires Sequential(run) && f.scaling.window > 0 && i + 1 < |Polls(f, start, run)|
    requires Polls(f, start, run)[i].armed.Some?
    ensures
      var p, p' := Polls(f, start, run)[i], Polls(f, start, run)[i + 1];
      p'.armed ==
      if p.armed.value + f.scaling.window < p.now then Some(p.now + f.scaling.frequency + p.rnd) else p.armed
  {
    PollsAreTimerRun(f, start, run);
    TimerRunStep(f.scaling, start.nextForcedScale, Polls(f, start, run), i);
  }

  /** Forced scale-up is never starved: with successful queries at most `gap` apart, and `gap` within the
      window, every "force now" is followed by another within frequency + 2 gap + 86399 nanoseconds. */
  lemma NeverStarved(f: Fixed, start: ClientState, run: Run, i: nat, gap: int) returns (j: nat)
    requires Sequential(run) && f.scaling.frequency >= 0 && 0 < gap <= f.scaling.window
    requires Frequent(Polls(f, start, run), gap)
    requires i < |Polls(f, start, run)| && Polls(f, start, run)[i].forced
    requires
      var polls := Polls(f, start, run);
      polls[|polls| - 1].now >= polls[i].now + f.scaling.frequency + 2 * gap + 86_399
    ensures
      var polls := Polls(f, start, run);
      && i < j < |polls| && polls[j].forced
      && polls[j].now <= polls[i].now + f.scaling.frequency + 2 * gap + 86_399
  {
    PollsAreTimerRun(f, start, run);
    j := TimerNeverStarves(f.scaling, start.nextForcedScale, Polls(f, start, run), i, gap);
  }

  /** The armed times at which "force now" was answered: the windows hit. */
  ghost function WindowsHit(polls: seq<Poll>): set<Option<int>> {
    set i | 0 <= i < |polls| && polls[i].forced :: polls[i].armed
  }

  lemma WindowsHitSnoc(polls: seq<Poll>)
    requires polls != []
    ensures
      var n := |polls| - 1;
      WindowsHit(polls) == WindowsHit(polls[..n]) + if polls[n].forced then {polls[n].armed} else {}
  {
  }

  lemma TimerRunPrefix(sc: S.Scaling, start: Option<int>, polls: seq<Poll>)
    requires TimerRun(sc, start, polls) && polls != []
    ensures TimerRun(sc, start, polls[..|polls| - 1])
  {
  }

  /** Hit windows other than the current one lie more than window + frequency before it and each other. */
  ghost predicate Spaced(sc: S.Scaling, hit: set<Option<int>>, current: int) {
    && (forall h :: h in hit ==> h.Some? && (h.value == current || h.value + Span(sc) < current))
    && FarApart(hit, Span(sc))
  }

  ghost predicate FarApart(times: set<Option<int>>, span: int) {
    forall h, h' :: h in times && h' in times && h.Some? && h'.Some? && h.value < h'.value ==> h.value + span < h'.value
  }

  function Span(sc: S.Scaling): int {
    sc.window + sc.frequency
  }

  /** What holds of the hit windows once the timer is armed for `current`, `now` being the last poll. */
  ghost predicate Paced(sc: S.Scaling, hit: set<Option<int>>, current: int, first: int, now: int) {
    && Spaced(sc, hit, current)
    && |hit - {Some(current)}| * Span(sc) <= current - first
    && (hit != {} ==> (|hit| - 1) * Span(sc) < now - first)
  }

  /** The same from any start. The window that was armed before the run is counted apart: it may have begun
      long before the first poll. While the timer still is the one the run started with, no other window was hit. */
  ghost predicate PacedFrom(sc: S.Scaling, hit: set<Option<int>>, start: Option<int>, current: int, first: int,
      now: int) {
    && Spaced(sc, hit, current)
    && (start.Some? ==> start.value == current || start.value + Span(sc) < current)
    && if start == Some(current) then hit - {start} == {} else Paced(sc, hit - {start}, current, first, now)
  }

  lemma {:induction false} WindowsArePaced(sc: S.Scaling, start: Option<int>, polls: seq<Poll>)
    requires TimerRun(sc, start, polls) && polls != []
    requires sc.window > 0 && sc.frequency >= 0
    ensures TimerAfter(sc, start, polls).Some?
    ensures PacedFrom(sc, WindowsHit(polls), start, TimerAfter(sc, start, polls).value, polls[0].now,
        polls[|polls| - 1].now)
  {
    var n := |polls| - 1;
    var p, init := polls[n], polls[..n];
    WindowsHitSnoc(polls);
    if n == 0 {
      assert WindowsHit(init) == {};
      if start.Some? {
        PollIsPacedFrom(sc, {}, start, polls[0].now, p.now, p);
      }
    } else {
      TimerRunPrefix(sc, start, polls);
      WindowsArePaced(sc, start, init);
      assert init[0] == polls[0] && init[n - 1].now <= p.now;
      PollIsPacedFrom(sc, WindowsHit(init), start, polls[0].now, init[n - 1].now, p);
    }
  }

  /** Windows stay spaced whatever the poll does. */
  lemma PollIsSpaced(sc: S.Scaling, hit: set<Option<int>>, p: Poll)
    requires p.armed.Some? && Continues(sc, p.armed, p) && Spaced(sc, hit, p.armed.value)
    requires sc.window > 0 && sc.frequency >= 0
    ensures Rearmed(sc, p).Some?
    ensures Spaced(sc, hit + if p.forced then {p.armed} else {}, Rearmed(sc, p).value)
  {
    PollMovesTimer(sc, p);
  }

  /** A poll that finds the timer armed before the run. */
  lemma StartWindowPoll(sc: S.Scaling, hit: set<Option<int>>, first: int, p: Poll)
    requires p.armed.Some? && Continues(sc, p.armed, p) && first <= p.now
    requires hit - {p.armed} == {}
    requires sc.window > 0 && sc.frequency >= 0
    ensures Rearmed(sc, p).Some?
    ensures
      var rest := (hit + if p.forced then {p.armed} else {}) - {p.armed};
      && rest == {}
      && (Rearmed(sc, p) == p.armed || (p.armed.value + Span(sc) < Rearmed(sc, p).value
                                        && Paced(sc, rest, Rearmed(sc, p).value, first, p.now)))
  {
    PollMovesTimer(sc, p);
  }

  /** A poll that finds a timer armed by the run. */
  lemma LaterPoll(sc: S.Scaling, hit: set<Option<int>>, start: Option<int>, first: int, before: int, p: Poll)
    requires p.armed.Some? && Continues(sc, p.armed, p) && before <= p.now && start != p.armed
    requires Paced(sc, hit - {start}, p.armed.value, first, before)
    requires sc.window > 0 && sc.frequency >= 0
    ensures Rearmed(sc, p).Some?
    ensures Paced(sc, (hit + if p.forced then {p.armed} else {}) - {start}, Rearmed(sc, p).value, first, p.now)
  {
    assert (hit + if p.forced then {p.armed} else {}) - {start} == (hit - {start}) + if p.forced then {p.armed} else {};
    PollIsPaced(sc, hit - {start}, first, before, p);
  }

  lemma PollIsPacedFrom(sc: S.Scaling, hit: set<Option<int>>, start: Option<int>, first: int, before: int, p: Poll)
    requires p.armed.Some? && Continues(sc, p.armed, p) && first <= before <= p.now
    requires PacedFrom(sc, hit, start, p.armed.value, first, before)
    requires sc.window > 0 && sc.frequency >= 0
    ensures Rearmed(sc, p).Some?
    ensures PacedFrom(sc, hit + if p.forced then {p.armed} else {}, start, Rearmed(sc, p).value, first, p.now)
  {
    PollIsSpaced(sc, hit, p);
    if start == p.armed {
      StartWindowPoll(sc, hit, first, p);
    } else {
      LaterPoll(sc, hit, start, first, before, p);
      PollMovesTimer(sc, p);
    }
  }

  lemma PollMovesTimer(sc: S.Scaling, p: Poll)
    requires p.armed.Some? && Continues(sc, p.armed, p) && sc.window > 0
    ensures Rearmed(sc, p).Some?
    ensures p.forced ==> Rearmed(sc, p) == p.armed && p.armed.value < p.now
    ensures Rearmed(sc, p) == p.armed || p.armed.value + Span(sc) < Rearmed(sc, p).value
  {
  }

  lemma PollIsPaced(sc: S.Scaling, hit: set<Option<int>>, first: int, before: int, p: Poll)
    requires p.armed.Some? && Continues(sc, p.armed, p) && before <= p.now
    requires Paced(sc, hit, p.armed.value, first, before)
    requires sc.window > 0 && sc.frequency >= 0
    ensures Rearmed(sc, p).Some?
    ensures Paced(sc, hit + if p.forced then {p.armed} else {}, Rearmed(sc, p).value, first, p.now)
  {
    PollMovesTimer(sc, p);
    var current, next := p.armed.value, Rearmed(sc, p).value;
    if p.forced {
      HitIsPaced(sc, hit, current, first, before, p.now);
    } else {
      assert hit + {} == hit;
      LaterIsPaced(sc, hit, current, first, before, p.now);
      if next != current {
        RearmIsPaced(sc, hit, current, next, first, p.now);
      }
    }
  }

  lemma LaterIsPaced(sc: S.Scaling, hit: set<Option<int>>, current: int, first: int, before: int, now: int)
    requires Paced(sc, hit, current, first, before) && before <= now
    ensures Paced(sc, hit, current, first, now)
  {
  }

  lemma HitIsPaced(sc: S.Scaling, hit: set<Option<int>>, current: int, first: int, before: int, now: int)
    requires Paced(sc, hit, current, first, before) && current < now
    ensures Paced(sc, hit + {Some(current)}, current, first, now)
  {
  }

  lemma RearmIsPaced(sc: S.Scaling, hit: set<Option<int>>, current: int, next: int, first: int, now: int)
    requires Paced(sc, hit, current, first, now) && current + Span(sc) < next
    requires sc.window > 0 && sc.frequency >= 0
    ensures Paced(sc, hit, next, first, now)
  {
    var rest := hit - {Some(current)};
    assert hit - {Some(next)} == hit;
    assert hit <= rest + {Some(current)};
    assert |hit| <= |rest| + 1;
    OneMoreSpan(|rest|, |hit|, Span(sc), current - first);
  }

  lemma OneMoreSpan(k: nat, m: nat, span: int, room: int)
    requires m <= k + 1 && k * span <= room && span > 0
    ensures m * span <= room + span
  {
    assert (k + 1) * span == k * span + span;
    assert m * span <= (k + 1) * span;
  }

  /** Forced windows never overlap, from any start: "force now" is answered only inside (n, n + window] for an
      armed time n; distinct armed times that were hit are more than window + frequency apart; and so, not
      counting the window armed before the run, a run that lasts T hits at most 1 + T / (window + frequency). */
  lemma WindowsNeverOverlap(f: Fixed, start: ClientState, run: Run)
    requires Sequential(run) && f.scaling.window > 0 && f.scaling.frequency >= 0
    ensures
      var polls := Polls(f, start, run);
      var hit := WindowsHit(polls);
      && ForcedInWindow(f.scaling, polls) && FarApart(hit, Span(f.scaling))
      && var fromRun := hit - {start.nextForcedScale};
      (fromRun != {} ==> (|fromRun| - 1) * Span(f.scaling) < polls[|polls| - 1].now - polls[0].now)
  {
    PollsAreTimerRun(f, start, run);
    TimerWindowsNeverOverlap(f.scaling, start.nextForcedScale, Polls(f, start, run));
  }

  /** From an unarmed timer every window hit was armed by the run. */
  lemma UnarmedWindowCount(f: Fixed, start: ClientState, run: Run)
    requires Sequential(run) && f.scaling.window > 0 && f.scaling.frequency >= 0 && start.nextForcedScale.None?
    ensures
      var polls := Polls(f, start, run);
      WindowsHit(polls) != {} ==> (|WindowsHit(polls)| - 1) * Span(f.scaling) < polls[|polls| - 1].now - polls[0].now
  {
    var hit := WindowsHit(Polls(f, start, run));
    WindowsNeverOverlap(f, start, run);
    assert hit - {None} == hit;
  }

  lemma TimerWindowsNeverOverlap(sc: S.Scaling, start: Option<int>, polls: seq<Poll>)
    requires TimerRun(sc, start, polls) && sc.window > 0 && sc.frequency >= 0
    ensures ForcedInWindow(sc, polls) && FarApart(WindowsHit(polls), Span(sc))
    ensures
      var fromRun := WindowsHit(polls) - {start};
      fromRun != {} ==> (|fromRun| - 1) * Span(sc) < polls[|polls| - 1].now - polls[0].now
  {
    ForcedOnlyInWindow(sc, start, polls);
    if polls != [] {
      WindowsArePaced(sc, start, polls);
    }
  }

  lemma ForcedOnlyInWindow(sc: S.Scaling, start: Option<int>, polls: seq<Poll>)
    requires TimerRun(sc, start, polls) && sc.window > 0
    ensures ForcedInWindow(sc, polls)
  {
  }

  ghost predicate ForcedInWindow(sc: S.Scaling, polls: seq<Poll>) {
    forall i :: 0 <= i < |polls| && polls[i].forced ==> InWindow(sc, polls[i])
  }

  predicate InWindow(sc: S.Scaling, p: Poll) {
    p.armed.Some? && p.armed.value < p.now <= p.armed.value + sc.window
  }

  // ---------------------------------------------------------------------------------------------
  // A zero window

  /** With the window set to zero, which is documented to disable forced scale-up, no query of a run that starts
      unarmed is ever answered: each fails, or dereferences the nil timer, and leaves it nil for the next. */
  lemma {:induction false} ZeroWindowNeverAnswers(f: Fixed, start: ClientState, run: Run)
    requires f.scaling.window == 0 && start.nextForcedScale.None?
    ensures Polls(f, start, run) == [] && After(f, start, run).nextForcedScale.None?
  {
    if run != [] {
      ZeroWindowNeverAnswers(f, start, run[..|run| - 1]);
    }
  }

  /** An armed timer, by contrast, disables it as documented: every query that gets that far is answered, unforced. */
  lemma {:induction false} ZeroWindowKeepsArmedTimer(f: Fixed, start: ClientState, run: Run)
    requires f.scaling.window == 0 && start.nextForcedScale.Some?
    ensures After(f, start, run).nextForcedScale == start.nextForcedScale
    ensures forall p :: p in Polls(f, start, run) ==> !p.forced
    ensures run != [] ==> !QueryStep(f.windows, f.scaling, After(f, start, run[..|run| - 1]), run[|run| - 1].query,
        run[|run| - 1].infoOk).1.NilTimer?
  {
    if run != [] {
      ZeroWindowKeepsArmedTimer(f, start, run[..|run| - 1]);
    }
  }

  // ---------------------------------------------------------------------------------------------
  // The request budget

  /** A successful GitHub request: when its response was stored, and the response. */
  datatype Fetch = Fetch(time: int, value: Page)

  /** The successful GitHub requests of a run. */
  function Fetches(f: Fixed, start: ClientState, run: Run): seq<Fetch> {
    if run == [] then []
    else
      var n := |run| - 1;
      Fetches(f, start, run[..n]) + NewFetch(f, After(f, start, run[..n]), run[n].query)
  }

  function NewFetch(f: Fixed, s: ClientState, q: Query): seq<Fetch> {
    if IsStale(f.windows, s, q.checkTime) && q.response.Some? then [Fetch(q.fetchTime, q.response.value)] else []
  }

  function FetchTimes(fetches: seq<Fetch>): seq<int> {
    seq(|fetches|, i requires 0 <= i < |fetches| => fetches[i].time)
  }

  /** A response is followed by the next one only after its own window: the one for empty queues if it was empty. */
  ghost predicate OutOfWindow(w: Windows, fetches: seq<Fetch>) {
    forall i :: 0 <= i < |fetches| - 1 ==>
      fetches[i + 1].time > fetches[i].time + if fetches[i].value == [] then w.cacheWindowWhenEmpty else w.cacheWindow
  }

  ghost predicate Apart(times: seq<int>, gap: int) {
    forall i :: 0 <= i < |times| - 1 ==> times[i + 1] - times[i] > gap
  }

  /** The record remembers the last success; if it is not Valid, that one's window has already passed. */
  ghost predicate Remembered(f: Fixed, fetches: seq<Fetch>, s: ClientState, run: Run) {
    if fetches == [] then s.status != Valid
    else
      var last := fetches[|fetches| - 1];
      && run != [] && s.lastRequest == last.time && s.lastValue == last.value && last.time <= LastTime(run)
      && (s.status == Valid
          || LastTime(run) >
             last.time + if last.value == [] then f.windows.cacheWindowWhenEmpty else f.windows.cacheWindow)
  }

  lemma {:induction false} RecordRemembersLastFetch(f: Fixed, name: string, run: Run)
    requires Sequential(run)
    ensures
      var s, fetches := After(f, NewClientState(name), run), Fetches(f, NewClientState(name), run);
      OutOfWindow(f.windows, fetches) && Remembered(f, fetches, s, run)
  {
    if run != [] {
      var init := run[..|run| - 1];
      SequentialPrefix(run);
      RecordRemembersLastFetch(f, name, init);
      if init != [] {
        PollTimesRise(run);
        assert LastTime(init) <= run[|run| - 1].query.checkTime;
      }
      var fetches, s := Fetches(f, NewClientState(name), init), After(f, NewClientState(name), init);
      ExtendFetches(f, fetches, s, init, run[|run| - 1]);
      assert run == init + [run[|run| - 1]];
    }
  }

  lemma ExtendFetches(f: Fixed, fetches: seq<Fetch>, s: ClientState, run: Run, e: Event)
    requires OutOfWindow(f.windows, fetches) && Remembered(f, fetches, s, run) && e.query.Ordered()
    requires run != [] ==> LastTime(run) <= e.query.checkTime
    ensures
      var fetches' := fetches + NewFetch(f, s, e.query);
      var s' := QueryStep(f.windows, f.scaling, s, e.query, e.infoOk).0;
      OutOfWindow(f.windows, fetches') && Remembered(f, fetches', s', run + [e])
  {
    ServedIff(f.windows, s, e.query.checkTime);
    assert LastTime(run + [e]) == e.query.pollTime;
  }

  /** After a run with a success, the next query asks GitHub exactly when the last response is out of its own window. */
  lemma AsksAgainIff(f: Fixed, name: string, run: Run, e: Event)
    requires Sequential(run + [e]) && Fetches(f, NewClientState(name), run) != []
    ensures
      var fetches := Fetches(f, NewClientState(name), run);
      var last := fetches[|fetches| - 1];
      IsStale(f.windows, After(f, NewClientState(name), run), e.query.checkTime) <==>
      (last.value != [] && e.query.checkTime > last.time + f.windows.cacheWindow)
      || (last.value == [] && e.query.checkTime > last.time + f.windows.cacheWindowWhenEmpty)
  {
    var all := run + [e];
    assert all[..|run|] == run && all[|run|] == e;
    SequentialPrefix(all);
    RecordRemembersLastFetch(f, name, run);
    assert LastTime(run) <= e.query.checkTime by {
      assert all[|run| - 1].query.pollTime <= all[|run|].query.checkTime;
    }
    ServedIff(f.windows, After(f, NewClientState(name), run), e.query.checkTime);
  }

  lemma {:induction false} ApartSpan(times: seq<int>, gap: int)
    requires Apart(times, gap) && times != []
    ensures times[|times| - 1] - times[0] >= (|times| - 1) * gap + (|times| - 1)
  {
    var n := |times| - 1;
    if n == 0 {
    } else {
      var init := times[..n];
      forall i | 0 <= i < |init| - 1 ensures init[i + 1] - init[i] > gap {
        assert times[i + 1] - times[i] > gap;
      }
      ApartSpan(init, gap);
      var i := n - 1;
      assert times[i + 1] - times[i] > gap;
      assert n * gap == (n - 1) * gap + gap;
    }
  }

  lemma OutOfWindowIsApart(w: Windows, fetches: seq<Fetch>)
    requires OutOfWindow(w, fetches)
    ensures Apart(FetchTimes(fetches), w.Least())
  {
  }

  /** The budget: the request after a non-empty response comes more than the cache window later, the one after an
      empty response more than the window for empty queues later, whatever fails in between; so n of them span
      more than n - 1 of the shorter windows. */
  lemma RequestBudget(f: Fixed, name: string, run: Run)
    requires Sequential(run)
    ensures
      var fetches := Fetches(f, NewClientState(name), run);
      && OutOfWindow(f.windows, fetches) && Apart(FetchTimes(fetches), f.windows.Least())
      && (|fetches| >= 2 ==>
            fetches[|fetches| - 1].time - fetches[0].time > (|fetches| - 1) * f.windows.Least())
  {
    RecordRemembersLastFetch(f, name, run);
    var fetches, least := Fetches(f, NewClientState(name), run), f.windows.Least();
    OutOfWindowIsApart(f.windows, fetches);
    if |fetches| >= 2 {
      ApartSpan(FetchTimes(fetches), least);
    }
  }
}
