/** The forced scale-up timer under interleaved calls: it is kept in the record that the cache writes back. */
module TimerInterleaving {
  import opened Wrappers
  import opened CacheInterleaving
  import opened CacheBudget
  import HR = HostRuns
  import S = Scaling

  /** The poll that a step makes, if it is a successful timer step. */
  function PollOf(f: Fixed, w: World, l: Label): seq<HR.Poll> {
    match l
    case SaveTimer(t, rnd) =>
      (match CallOf(w, t)
       case Reloaded(copy) =>
         (match S.CalculateForcedScale(f.scaling, copy.nextForcedScale, w.clock, rnd)
          case NilDereference => []
          case Answer(now, _) => [HR.Poll(w.clock, rnd, copy.nextForcedScale, now)])
       case _ => [])
    case _ => []
  }

  function TimerPolls(f: Fixed, w: World, labels: seq<Label>): seq<HR.Poll> {
    if labels == [] then []
    else
      var init := labels[..|labels| - 1];
      TimerPolls(f, w, init) + PollOf(f, After(f, w, init), labels[|labels| - 1])
  }

  /** The random numbers are drawn from their range. */
  ghost predicate Drawn(labels: seq<Label>) {
    forall i :: 0 <= i < |labels| && labels[i].SaveTimer? ==> 0 <= labels[i].rnd < S.DAY_IN_SECONDS
  }

  ghost predicate CopiesTimer(w: World, c: Call) {
    Holds(c) ==> c.copy.nextForcedScale == w.store.nextForcedScale
  }

  /** The polls so far are one timer's, and the record and every copy of it in hand hold that timer. */
  ghost predicate OneTimer(f: Fixed, polls: seq<HR.Poll>, w: World) {
    && HR.TimerRun(f.scaling, None, polls)
    && w.store.nextForcedScale == HR.TimerAfter(f.scaling, None, polls)
    && (polls != [] ==> polls[|polls| - 1].now <= w.clock)
    && forall t :: t in w.calls ==> CopiesTimer(w, w.calls[t])
  }

  /** The call that steps the timer is the only one with a copy in hand, and then nobody has one. */
  lemma TimerStepFreesCopies(f: Fixed, w: World, t: nat, rnd: int)
    requires Budgeted(f, w) && CallOf(w, t).Reloaded?
    ensures
      var w' := Step(f, w, SaveTimer(t, rnd));
      w'.clock == w.clock && forall t' :: t' in w'.calls ==> !Holds(w'.calls[t'])
  {
    assert forall t' :: t' in w.calls && t' != t ==> !Holds(w.calls[t']);
  }

  lemma TimerStepPolls(f: Fixed, polls: seq<HR.Poll>, w: World, t: nat, rnd: int)
    requires OneTimer(f, polls, w) && 0 <= rnd < S.DAY_IN_SECONDS && CallOf(w, t).Reloaded?
    ensures
      var l := SaveTimer(t, rnd);
      var polls' := polls + PollOf(f, w, l);
      && HR.TimerRun(f.scaling, None, polls')
      && Step(f, w, l).store.nextForcedScale == HR.TimerAfter(f.scaling, None, polls')
      && (polls' != [] ==> polls'[|polls'| - 1].now <= w.clock)
  {
    var l := SaveTimer(t, rnd);
    assert CopiesTimer(w, w.calls[t]);
    if PollOf(f, w, l) == [] {
      assert polls + [] == polls;
    } else {
      HR.TimerRunSnoc(f.scaling, None, polls, PollOf(f, w, l)[0]);
    }
  }

  lemma TimerStepKeeps(f: Fixed, polls: seq<HR.Poll>, w: World, t: nat, rnd: int)
    requires OneTimer(f, polls, w) && Budgeted(f, w) && 0 <= rnd < S.DAY_IN_SECONDS && CallOf(w, t).Reloaded?
    ensures OneTimer(f, polls + PollOf(f, w, SaveTimer(t, rnd)), Step(f, w, SaveTimer(t, rnd)))
  {
    TimerStepFreesCopies(f, w, t, rnd);
    TimerStepPolls(f, polls, w, t, rnd);
  }

  lemma OtherStepKeeps(f: Fixed, polls: seq<HR.Poll>, w: World, l: Label)
    requires OneTimer(f, polls, w) && !(l.SaveTimer? && CallOf(w, l.call).Reloaded?)
    ensures PollOf(f, w, l) == [] && OneTimer(f, polls, Step(f, w, l))
  {
  }

  lemma StepKeepsOneTimer(f: Fixed, polls: seq<HR.Poll>, w: World, l: Label)
    requires OneTimer(f, polls, w) && Budgeted(f, w) && Drawn([l])
    ensures OneTimer(f, polls + PollOf(f, w, l), Step(f, w, l))
  {
    assert [l][0] == l;
    if l.SaveTimer? && CallOf(w, l.call).Reloaded? {
      TimerStepKeeps(f, polls, w, l.call, l.rnd);
    } else {
      OtherStepKeeps(f, polls, w, l);
      assert polls + [] == polls;
    }
  }

  lemma Prefixes(f: Fixed, w: World, labels: seq<Label>)
    requires labels != [] && Exclusive(f, w, labels) && Drawn(labels)
    ensures
      var n := |labels| - 1;
      Exclusive(f, w, labels[..n]) && Drawn(labels[..n]) && Drawn([labels[n]])
  {
    var n := |labels| - 1;
    assert forall i :: 0 <= i < n ==> labels[..n][i] == labels[i] && labels[..n][..i] == labels[..i];
  }

  lemma {:induction false} ExclusiveKeepsOneTimer(f: Fixed, name: string, clock: int, labels: seq<Label>)
    requires Exclusive(f, Start(name, clock), labels) && Drawn(labels)
    ensures OneTimer(f, TimerPolls(f, Start(name, clock), labels), After(f, Start(name, clock), labels))
  {
    if labels != [] {
      var n, w0 := |labels| - 1, Start(name, clock);
      Prefixes(f, w0, labels);
      ExclusiveKeepsOneTimer(f, name, clock, labels[..n]);
      ExclusiveIsBudgeted(f, name, clock, labels[..n]);
      StepKeepsOneTimer(f, TimerPolls(f, w0, labels[..n]), After(f, w0, labels[..n]), labels[n]);
    }
  }

  /** If no call loads the record while another one has a copy in hand, the timer steps of any number of calls read
      and write one timer, one after the other, as in a sequential run. */
  lemma ExclusiveIsTimerRun(f: Fixed, name: string, clock: int, labels: seq<Label>)
    requires Exclusive(f, Start(name, clock), labels) && Drawn(labels)
    ensures
      var polls := TimerPolls(f, Start(name, clock), labels);
      && HR.TimerRun(f.scaling, None, polls)
      && After(f, Start(name, clock), labels).store.nextForcedScale == HR.TimerAfter(f.scaling, None, polls)
  {
    ExclusiveKeepsOneTimer(f, name, clock, labels);
  }

  /** So forced scale-up is not starved by such calls either. */
  lemma ExclusiveNeverStarved(f: Fixed, name: string, clock: int, labels: seq<Label>, i: nat, gap: int) returns (j: nat)
    requires Exclusive(f, Start(name, clock), labels) && Drawn(labels)
    requires f.scaling.frequency >= 0 && 0 < gap <= f.scaling.window
    requires HR.Frequent(TimerPolls(f, Start(name, clock), labels), gap)
    requires
      var polls := TimerPolls(f, Start(name, clock), labels);
      && i < |polls| && polls[i].forced
      && polls[|polls| - 1].now >= polls[i].now + f.scaling.frequency + 2 * gap + 86_399
    ensures
      var polls := TimerPolls(f, Start(name, clock), labels);
      && i < j < |polls| && polls[j].forced
      && polls[j].now <= polls[i].now + f.scaling.frequency + 2 * gap + 86_399
  {
    ExclusiveIsTimerRun(f, name, clock, labels);
    j := HR.TimerNeverStarves(f.scaling, None, TimerPolls(f, Start(name, clock), labels), i, gap);
  }

  /** Nor do their windows overlap. */
  lemma ExclusiveWindows(f: Fixed, name: string, clock: int, labels: seq<Label>)
    requires Exclusive(f, Start(name, clock), labels) && Drawn(labels)
    requires f.scaling.window > 0 && f.scaling.frequency >= 0
    ensures
      var polls := TimerPolls(f, Start(name, clock), labels);
      HR.ForcedInWindow(f.scaling, polls) && HR.FarApart(HR.WindowsHit(polls), HR.Span(f.scaling))
  {
    ExclusiveIsTimerRun(f, name, clock, labels);
    HR.TimerWindowsNeverOverlap(f.scaling, None, TimerPolls(f, Start(name, clock), labels));
  }

  // ---------------------------------------------------------------------------------------------
  // Overlapping calls

  ghost predicate NoLoad(labels: seq<Label>, t: nat) {
    GetState(t) !in labels
  }

  ghost predicate NoReload(labels: seq<Label>, t: nat) {
    GetStateAgain(t) !in labels
  }

  lemma {:induction false} CopyKeepsTimer(f: Fixed, w: World, t: nat, labels: seq<Label>)
    requires CallOf(w, t).Idle? && NoLoad(labels, t)
    ensures
      var c := CallOf(After(f, Step(f, w, GetState(t)), labels), t);
      c.Loaded? || c.Missed? || c.Responded? ==> c.copy.nextForcedScale == w.store.nextForcedScale
  {
    if labels != [] {
      var n := |labels| - 1;
      assert labels[n] in labels;
      CopyKeepsTimer(f, w, t, labels[..n]);
    }
  }

  /** Whatever other calls do between a call's load and its save of the queue, the save puts back the timer of the
      load: it undoes their arming exactly if they moved the timer. */
  lemma SaveRollsTimerBackIff(f: Fixed, w: World, t: nat, labels: seq<Label>)
    requires CallOf(w, t).Idle? && NoLoad(labels, t)
    requires CallOf(After(f, Step(f, w, GetState(t)), labels), t).Responded?
    ensures
      var before := After(f, Step(f, w, GetState(t)), labels);
      var after := Step(f, before, SaveState(t));
      && after.store.nextForcedScale == w.store.nextForcedScale
      && (after.store.nextForcedScale != before.store.nextForcedScale <==>
          before.store.nextForcedScale != w.store.nextForcedScale)
  {
    CopyKeepsTimer(f, w, t, labels);
  }

  lemma {:induction false} CopyKeepsRecord(f: Fixed, w: World, t: nat, labels: seq<Label>)
    requires CallOf(w, t).Served? && NoReload(labels, t)
    ensures
      var c := CallOf(After(f, Step(f, w, GetStateAgain(t)), labels), t);
      c.Reloaded? ==> c.copy == w.store
  {
    if labels != [] {
      var n := |labels| - 1;
      assert labels[n] in labels;
      CopyKeepsRecord(f, w, t, labels[..n]);
    }
  }

  /** The other way round, a save of a moved timer puts back the queue of its load: a response that another call saved
      in between is lost exactly if the timer moves. */
  lemma TimerRollsQueueBackIff(f: Fixed, w: World, t: nat, labels: seq<Label>, rnd: int)
    requires CallOf(w, t).Served? && NoReload(labels, t)
    requires CallOf(After(f, Step(f, w, GetStateAgain(t)), labels), t).Reloaded?
    ensures
      var before := After(f, Step(f, w, GetStateAgain(t)), labels);
      var after := Step(f, before, SaveTimer(t, rnd));
      var next := S.CalculateForcedScale(f.scaling, w.store.nextForcedScale, before.clock, rnd);
      if next.Answer? && w.store.nextForcedScale != Some(next.next)
      then after.store == w.store.(nextForcedScale := Some(next.next))
      else after.store == before.store
  {
    CopyKeepsRecord(f, w, t, labels);
  }
}
