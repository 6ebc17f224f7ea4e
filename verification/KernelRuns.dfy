/**
  The two models of schedule() put together: the kernel object of the arming model behaves as the
  state machine of the yield model does, so the arming bound holds for every call in every run.
*/
module KernelRuns {
  import opened TimeModel
  import opened TimeEvents
  import opened Selection
  import opened BoundedWaiting
  import opened YieldProtocol
  import opened YieldTheorems
  import opened YieldLimits
  import opened YieldSleepers
  import Arming

  /** The object's fields are those of the state. */
  predicate Mirrors(k: Arming.Kernel, s: State)
    reads k
  {
    && k.threads == s.k.threads && k.idle == s.idle && k.scheduleCounter == s.k.counter
    && k.preSelectedNextToRun == s.pre.choice && k.timeToTryAgainToSchedule == s.k.tryAgain
    && (s.pre.choice != NOBODY ==> k.preSelectedEarliestSuspendedUntil == s.pre.bound)
  }

  /** A call of schedule() may come: a preselection is either absent or complete. */
  predicate MayCall(s: State) {
    ShapeOk(s) && !Mine(s).pc.StoreBound?
  }

  /** The preselection that the object finds in a run is one that its schedule() may rely on. */
  lemma PreselectionIsReliable(k: Arming.Kernel, s: State, run: seq<Choice>)
    requires Initial(s) && Legal(s, run) && MayCall(Run(s, run)) && Mirrors(k, Run(s, run))
    ensures var e := Run(s, run); k.PreselectionFrom(SourceOf(e).view, SourceOf(e).now)
  {
    SelectionIsSound(s, run);
  }

  /** When the timer is armed with the scheduling time that schedule() leaves, it serves this due time. */
  predicate InTime(due: int, nextTrigger: int, tryAgain: int, timerTime: int) {
    Arming.Expiry(timerTime, Arming.Interval(tryAgain, nextTrigger, timerTime)) <=
    Arming.Max(due, timerTime + 2 * Arming.MIN_SYS_TICK_SPACING)
  }

  /** When the timer expires that schedule() arms in this state. */
  function Armed(s: State, nextTrigger: int, timerTime: int): int
    requires ShapeOk(s)
  {
    Arming.Expiry(timerTime, Arming.Interval(Schedule(s).k.tryAgain, nextTrigger, timerTime))
  }

  /**
    In every run, whenever schedule() is called, the timer expires in time for the next time event, for
    the end of the time slice, and for every thread that sleeps then with at least the selected
    priority and that the selection knows: every such thread at all when there is no preselection, and
    at the scheduler call of a yield.
  */
  lemma EveryScheduleArmsInTime(s: State, run: seq<Choice>, nextTrigger: int, timerTime: int)
    requires Initial(s) && Legal(s, run) && MayCall(Run(s, run))
    requires Run(s, run).k.now <= timerTime && timerTime + 2 * Arming.MIN_SYS_TICK_SPACING <= END_OF_TIME
    ensures var e := Run(s, run);
            var tryAgain := Schedule(e).k.tryAgain;
            && (forall i | Rival(e, i) && !Unknown(e, i) ::
                  InTime(e.k.threads[i].suspendedUntil, nextTrigger, tryAgain, timerTime))
            && (e.pre.choice == NOBODY || Mine(e).pc.CallScheduler? ==> forall i :: !Unknown(e, i))
            && InTime(nextTrigger, nextTrigger, tryAgain, timerTime)
            && InTime(e.k.now + TIME_SLICE_FOR_SAME_PRIORITY, nextTrigger, tryAgain, timerTime)
  {
    var e := Run(s, run);
    var f := Schedule(e);
    Arming.ArmingBounds(f.k.tryAgain, nextTrigger, timerTime);
    forall i | Rival(e, i) && !Unknown(e, i)
      ensures f.k.tryAgain <= e.k.threads[i].suspendedUntil
    {
      BoundCovers(s, run, i);
    }
  }

  /**
    All sleeping rivals are in time if and only if none of those that a left-behind preselection cannot
    know wakes before the timer, unless the timer expires within its two spacings anyway.  While no
    priority has changed since the walk, the running thread is the only one it cannot know.
  */
  lemma AllRivalsInTimeExactlyWhen(s: State, run: seq<Choice>, nextTrigger: int, timerTime: int)
    requires Initial(s) && Legal(s, run) && MayCall(Run(s, run))
    requires Run(s, run).k.now <= timerTime && timerTime + 2 * Arming.MIN_SYS_TICK_SPACING <= END_OF_TIME
    ensures var e := Run(s, run);
            var armed := Armed(e, nextTrigger, timerTime);
            && ((forall i | Rival(e, i) ::
                   InTime(e.k.threads[i].suspendedUntil, nextTrigger, Schedule(e).k.tryAgain, timerTime))
                <==> armed <= timerTime + 2 * Arming.MIN_SYS_TICK_SPACING
                     || forall i | Rival(e, i) && Unknown(e, i) :: armed <= e.k.threads[i].suspendedUntil)
            && (PrioritiesKept(e) ==> forall i | Unknown(e, i) :: i == e.current)
  {
    EveryScheduleArmsInTime(s, run, nextTrigger, timerTime);
  }

  /** One call of the object's schedule() at any point of any run: it stays in step with the state machine. */
  method ScheduleInRun(k: Arming.Kernel, ghost s: State, ghost run: seq<Choice>, now: int, timerTime: int) returns (next: nat)
    requires Initial(s) && Legal(s, run) && MayCall(Run(s, run)) && Mirrors(k, Run(s, run))
    requires now == Run(s, run).k.now <= timerTime && timerTime + 2 * Arming.MIN_SYS_TICK_SPACING <= END_OF_TIME
    modifies k
    ensures Mirrors(k, Schedule(Run(s, run))) && next == Schedule(Run(s, run)).current
    ensures k.timerInterval == Arming.Interval(k.timeToTryAgainToSchedule, NextTrigger(k.events.events), timerTime)
  {
    ghost var e := Run(s, run);
    ReachableInv(s, run);
    PreselectionIsReliable(k, s, run);
    next := k.Schedule(now, now, timerTime, SourceOf(e).view, SourceOf(e).now);
    if e.pre.choice == NOBODY {
      PickIsTheBest(e.k.threads, e.idle, e.k.now, next);
    } else {
      PickIsTheBest(SourceOf(e).view, e.idle, SourceOf(e).now, next);
    }
  }

  // ------------------------------------------------------------------ a thread that is woken late

  /** The first of two threads was scheduled between the first two statements of its yield. */
  lemma Overtaken() returns (s: State)
    ensures Reachable(s) && Duo(s, 1, 0) && s.current == 0 && Mine(s).pc.ReadCounter?
    ensures s.k.now == 1 && s.k.tryAgain == 1 + TIME_SLICE_FOR_SAME_PRIORITY
  {
    PairIsInitial();
    GoStart(Pair());
    assert Pair().k.threads == TwoAndIdle(0, 0);
    DuoYields(Pair(), 0, 0);
    var y := Next(Next(Pair(), CallYield), Exec);
    DuoTicks(y, 0, 0);
    Go(y, Tick);
    s := Next(y, Tick);
  }

  lemma RestIsReachable(s: State)
    requires Reachable(s) && ShapeOk(s)
    ensures Reachable(RestOfYield(s))
  {
    GoOn(s);
    GoOn(Do(s));
    var w := DoN(Do(Do(s)), |s.k.threads|);
    GoOnN(Do(Do(s)), |s.k.threads|);
    GoThrice(w);
    GoThrice(Thrice(w));
    GoThrice(Thrice(Thrice(w)));
  }

  /** ... so the yield ended early and left its preselection of the second thread behind. */
  lemma LeftBehind() returns (e: State)
    ensures Reachable(e) && ShapeOk(e) && e.current == 0 && e.idle == 2 && Mine(e).pc.User? && !e.lock
    ensures e.k.threads == TwoAndIdle(1, 0) && e.k.now == 1 && e.pre.choice == 1 && e.pre.bound == END_OF_TIME
  {
    var s := Overtaken();
    ReachableHasInv(s);
    PickOfTwo(1, 0, 1);
    EarlyReturnLeavesPreselection(s);
    RestIsReachable(s);
    e := RestOfYield(s);
    ReachableHasInv(e);
  }

  /** The thread then suspends itself for two milliseconds and calls yield. */
  lemma GoesToSleep() returns (e: State)
    ensures Reachable(e) && ShapeOk(e) && e.current == 0 && e.idle == 2 && Mine(e).pc.ReadCounter? && !e.lock
    ensures e.k.threads == [Tcb(1, 2_000_001, 1, 0), Tcb(1, 0, 0, 0), Tcb(0, 0, 0, 0)]
    ensures e.k.now == 1 && e.k.tryAgain == 0 && e.pre.choice == 1 && e.pre.bound == END_OF_TIME
  {
    var a := LeftBehind();
    Go(a, Suspend(2_000_001));
    var b := Next(a, Suspend(2_000_001));
    Go(b, CallYield);
    var c := Next(b, CallYield);
    Go(c, Exec);
    e := Next(c, Exec);
  }

  /**
    A tick in the middle of that yield takes the left-behind preselection, whose bound knows nothing of
    the sleeping thread: the timer is armed for the end of the time slice, and the thread, of the same
    priority as the selected one, is woken some 98 milliseconds late.
  */
  lemma LeftBehindPreselectionIsLate() returns (e: State)
    ensures Reachable(e) && MayCall(e) && !e.lock && e.k.tryAgain <= e.k.now == 1
    ensures Rival(e, 0) && Unknown(e, 0) && e.k.threads[0].suspendedUntil == 2_000_001
    ensures Armed(e, END_OF_TIME, 1) == 100_000_001
    ensures !InTime(e.k.threads[0].suspendedUntil, END_OF_TIME, Schedule(e).k.tryAgain, 1)
  {
    e := GoesToSleep();
    ReachableHasInv(e);
    assert |e.pre.source.view| == |e.k.threads|;
    assert Schedule(e).k.tryAgain == 1 + TIME_SLICE_FOR_SAME_PRIORITY;
  }

  // ------------------------------------------------------------------ a priority that counts for nothing

  /** The thread raises its own priority instead, and calls yield. */
  lemma RaisesItself() returns (e: State)
    ensures Reachable(e) && ShapeOk(e) && e.current == 0 && e.idle == 2 && Mine(e).pc.ReadCounter? && !e.lock
    ensures e.k.threads == [Tcb(5, 0, 1, 0), Tcb(1, 0, 0, 0), Tcb(0, 0, 0, 0)]
    ensures e.k.now == 1 && e.k.tryAgain == 0 && e.pre.choice == 1
  {
    var a := LeftBehind();
    Go(a, SetPriority(0, 5));
    var b := Next(a, SetPriority(0, 5));
    Go(b, CallYield);
    var c := Next(b, CallYield);
    Go(c, Exec);
    e := Next(c, Exec);
  }

  /** A tick in the middle of that yield follows the left-behind preselection and takes the processor from the best thread. */
  lemma LeftBehindPreselectionIsWorse() returns (e: State)
    ensures Reachable(e) && MayCall(e) && !e.lock && e.k.tryAgain <= e.k.now
    ensures IsBest(e.k.threads, e.idle, e.k.now, e.current) && Next(e, Tick).current == 1 != e.current
    ensures e.k.threads[0].priority == 5 && e.k.threads[1].priority == 1
  {
    e := RaisesItself();
    assert Next(e, Tick) == Schedule(e).(lock := false);
  }
}
