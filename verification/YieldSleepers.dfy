/**
  What a preselection knows of the threads that sleep: between a walk and the call of schedule() that
  uses it, nobody but the running thread can have gone to sleep or have moved its wake-up time back.
*/
module YieldSleepers {
  import opened TimeModel
  import opened Selection
  import opened BoundedWaiting
  import opened YieldProtocol
  import opened YieldTheorems
  import opened YieldLimits

  /** The wake-up time that was read still holds, or the thread has been resumed. */
  predicate SameWake(seen: Tcb, now: Tcb) {
    now.suspendedUntil == seen.suspendedUntil || now.suspendedUntil == 0
  }

  predicate WalkTimesOk(k: Kernel, l: Local) {
    HasWalk(l.pc) && l.start == k.counter ==>
      |l.seen| <= |k.threads| && forall j | 0 <= j < |l.seen| :: SameWake(l.seen[j], k.threads[j])
  }

  predicate PreTimesOk(s: State) {
    s.pre.choice != NOBODY ==>
      |s.pre.source.view| == |s.k.threads| &&
      forall j | 0 <= j < |s.k.threads| && j != s.current :: SameWake(s.pre.source.view[j], s.k.threads[j])
  }

  predicate TimesOk(s: State) {
    ShapeOk(s) ==> WalkTimesOk(s.k, Mine(s)) && PreTimesOk(s)
  }

  lemma LocalStepKeepsTimes(s: State)
    requires Inv(s) && TimesOk(s)
    ensures WalkTimesOk(s.k, LocalStep(s, Mine(s)))
  {
    assert LocalOk(s.k, s.idle, s.current, s.current, Mine(s));
  }

  /** After schedule() no walk is current, and no preselection is left. */
  lemma ScheduleKeepsTimes(s: State)
    requires ShapeOk(s) && forall t | 0 <= t < |s.locals| :: HasStart(s.locals[t].pc) ==> s.locals[t].start <= s.k.counter
    ensures TimesOk(Schedule(s).(lock := false))
  {
  }

  lemma StartsAreOld(s: State)
    requires Inv(s)
    ensures forall t | 0 <= t < |s.locals| :: HasStart(s.locals[t].pc) ==> s.locals[t].start <= s.k.counter
  {
    forall t | 0 <= t < |s.locals|
      ensures HasStart(s.locals[t].pc) ==> s.locals[t].start <= s.k.counter
    {
      assert LocalOk(s.k, s.idle, s.current, t, s.locals[t]);
    }
  }

  lemma CallKeepsTimes(s: State)
    requires Inv(s) && TimesOk(s) && Mine(s).pc.CallScheduler?
    ensures TimesOk(ExecYield(s))
  {
    StartsAreOld(s);
    var w := WithLocal(s, Mine(s).(pc := User));
    if w.k.now >= w.k.tryAgain {
      ScheduleKeepsTimes(w);
    }
  }

  lemma StoreKeepsTimes(s: State)
    requires Inv(s) && TimesOk(s) && Mine(s).pc.StoreChoice?
    ensures TimesOk(ExecYield(s))
  {
    assert LocalOk(s.k, s.idle, s.current, s.current, Mine(s));
    FinishedWalk(s);
  }

  lemma ExecKeepsTimes(s: State)
    requires Inv(s) && TimesOk(s)
    ensures TimesOk(ExecYield(s))
  {
    match Mine(s).pc
    case CallScheduler => CallKeepsTimes(s);
    case StoreChoice => StoreKeepsTimes(s);
    case ResetTime =>
    case TakeLock =>
    case StoreBound =>
    case _ => LocalStepKeepsTimes(s);
  }

  lemma TickKeepsTimes(s: State)
    requires Inv(s) && TimesOk(s)
    ensures TimesOk(Next(s, Tick))
  {
    StartsAreOld(s);
    if !s.lock && s.k.now >= s.k.tryAgain {
      ScheduleKeepsTimes(s);
    }
  }

  lemma StepKeepsTimes(s: State, c: Choice)
    requires Inv(s) && TimesOk(s) && Enabled(s, c)
    ensures TimesOk(Next(s, c))
  {
    match c
    case Exec => ExecKeepsTimes(s);
    case CallYield =>
    case Suspend(_) =>
    case SetPriority(_, _) =>
    case Resume(_) =>
    case Advance(_) =>
    case Tick => TickKeepsTimes(s);
  }

  lemma {:induction false} RunKeepsTimes(s: State, run: seq<Choice>)
    requires Inv(s) && TimesOk(s) && Legal(s, run)
    ensures TimesOk(Run(s, run))
    decreases |run|
  {
    if run != [] {
      StepKeepsInv(s, run[0]);
      StepKeepsTimes(s, run[0]);
      RunKeepsTimes(Next(s, run[0]), run[1..]);
    }
  }

  /** Asleep now, and at least as important as the thread that schedule() would select. */
  predicate Rival(s: State, i: int) {
    ShapeOk(s) && 0 <= i < |s.k.threads| && 0 <= Selected(s).candidate < |s.k.threads|
    && !Ready(s.k.threads[i], s.k.now) && s.k.threads[i].priority >= s.k.threads[Selected(s).candidate].priority
  }

  /** schedule() would use a preselection, left behind by an earlier yield, that cannot know this thread's sleep or rank. */
  predicate Unknown(s: State, i: int) {
    && ShapeOk(s) && s.pre.choice != NOBODY && !Mine(s).pc.CallScheduler?
    && 0 <= i < |s.k.threads| == |s.pre.source.view| && 0 <= s.pre.choice < |s.k.threads|
    && (i == s.current
        || s.pre.source.view[i].priority != s.k.threads[i].priority
        || s.pre.source.view[s.pre.choice].priority != s.k.threads[s.pre.choice].priority)
  }

  /** At the scheduler call of a yield the preselection knows every thread. */
  lemma YieldKnowsAll(s: State, run: seq<Choice>, i: int)
    requires Initial(s) && Legal(s, run)
    requires var e := Run(s, run); ShapeOk(e) && Mine(e).pc.CallScheduler? && e.pre.choice != NOBODY && 0 <= i < |e.k.threads|
    ensures var e := Run(s, run);
            && |e.pre.source.view| == |e.k.threads|
            && SameWake(e.pre.source.view[i], e.k.threads[i]) && PrioritiesKept(e)
  {
    ReachableInv(s, run);
    RunKeepsStored(s, run);
    RunKeepsTimes(s, run);
    var e := Run(s, run);
    assert LocalOk(e.k, e.idle, e.current, e.current, Mine(e));
  }

  /** The wake-up bound that comes with the selection covers every rival that the selection can know. */
  lemma BoundCovers(s: State, run: seq<Choice>, i: int)
    requires Initial(s) && Legal(s, run)
    requires var e := Run(s, run); ShapeOk(e) && !Mine(e).pc.StoreBound? && Rival(e, i) && !Unknown(e, i)
    ensures var e := Run(s, run); Selected(e).earliest <= e.k.threads[i].suspendedUntil
  {
    ReachableInv(s, run);
    SelectionIsSound(s, run);
    var e := Run(s, run);
    if e.pre.choice != NOBODY {
      if Mine(e).pc.CallScheduler? {
        YieldKnowsAll(s, run, i);
      } else {
        RunKeepsTimes(s, run);
      }
      var view := SourceOf(e);
      assert view.view[i].suspendedUntil == e.k.threads[i].suspendedUntil;
      assert !Ready(view.view[i], view.now);
      assert view.view[i].priority >= view.view[e.pre.choice].priority;
    }
  }
}
