/**
  The limits of the yield/tick protocol: when a yield ends without scheduling, when a preselection
  outlives its yield, and when the preselected thread is still the best one.
*/
module YieldLimits {
  import opened TimeModel
  import opened Selection
  import opened BoundedWaiting
  import opened YieldProtocol
  import opened YieldTheorems

  ghost predicate Reachable(s: State) {
    exists start, run :: Initial(start) && Legal(start, run) && Run(start, run) == s
  }

  lemma ReachableHasInv(s: State)
    requires Reachable(s)
    ensures Inv(s)
  {
    var start, run :| Initial(start) && Legal(start, run) && Run(start, run) == s;
    ReachableInv(start, run);
  }

  lemma {:induction false} RunLast(s: State, run: seq<Choice>, c: Choice)
    requires Legal(s, run) && Enabled(Run(s, run), c)
    ensures Legal(s, run + [c]) && Run(s, run + [c]) == Next(Run(s, run), c)
    decreases |run|
  {
    if run == [] {
      assert [] + [c] == [c];
      RunFirst(s, c, []);
      assert [c] + [] == [c];
    } else {
      assert (run + [c])[1..] == run[1..] + [c];
      RunLast(Next(s, run[0]), run[1..], c);
    }
  }

  lemma Go(s: State, c: Choice)
    requires Reachable(s) && Enabled(s, c)
    ensures Reachable(Next(s, c))
  {
    var start, run :| Initial(start) && Legal(start, run) && Run(start, run) == s;
    RunLast(start, run, c);
  }

  lemma GoStart(s: State)
    requires Initial(s)
    ensures Reachable(s)
  {
    assert Legal(s, []) && Run(s, []) == s;
  }

  lemma GoOn(s: State)
    requires Reachable(s)
    ensures Reachable(Do(s))
  {
    if ShapeOk(s) {
      Go(s, Exec);
    }
  }

  lemma {:induction false} GoOnN(s: State, n: nat)
    requires Reachable(s)
    ensures Reachable(DoN(s, n))
    decreases n
  {
    if n > 0 {
      GoOnN(s, n - 1);
      GoOn(DoN(s, n - 1));
    }
  }

  lemma GoThrice(s: State)
    requires Reachable(s)
    ensures Reachable(Thrice(s))
  {
    GoOn(s);
    GoOn(Do(s));
    GoOn(Do(Do(s)));
  }

  // ------------------------------------------------------------------ when yield schedules

  /** The rest of an undisturbed yield of a thread that should give way schedules if and only if the scheduling time is not ahead. */
  lemma RestSchedulesExactlyWhen(s: State)
    requires Inv(s) && Mine(s).pc.ReadCounter? && Pick(s.k.threads, s.idle, s.k.now) != s.current
    ensures var e := RestOfYield(s);
            && (e.k.counter == s.k.counter + 1 <==> s.k.tryAgain <= s.k.now)
            && (e.k.counter == s.k.counter || e.k.counter == s.k.counter + 1)
            && (s.k.tryAgain <= s.k.now ==> e.current == Pick(s.k.threads, s.idle, s.k.now) && e.pre.choice == NOBODY)
            && (s.k.now < s.k.tryAgain ==> e.current == s.current && e.pre.choice == Pick(s.k.threads, s.idle, s.k.now))
  {
    if s.k.tryAgain <= s.k.now {
      UndisturbedWalk(s);
      LastNine(DoN(Do(Do(s)), |s.k.threads|));
    } else {
      EarlyReturnLeavesPreselection(s);
    }
  }

  /**
    In every run, at the scheduler call that ends a yield: it schedules if and only if the scheduling
    time is not ahead, and a preselection outlives the yield only if a schedule() fell after the
    yield's first statement and before the epoch of the preselection.
  */
  lemma PreselectionSurvivesOnlyWhen(s: State, run: seq<Choice>)
    requires Initial(s) && Legal(s, run)
    requires var e := Run(s, run); ShapeOk(e) && Mine(e).pc.CallScheduler?
    ensures var e := Run(s, run);
            var f := ExecYield(e);
            && (f.k.counter == e.k.counter + 1 <==> e.k.tryAgain <= e.k.now)
            && (f.pre.choice != NOBODY <==> e.pre.choice != NOBODY && e.k.now < e.k.tryAgain)
            && (f.pre.choice != NOBODY ==> Mine(e).reset < f.pre.epoch)
            && (e.k.now < e.k.tryAgain ==> Mine(e).reset < e.k.counter)
  {
    ReachableInv(s, run);
    var e := Run(s, run);
    assert LocalOk(e.k, e.idle, e.current, e.current, Mine(e));
  }

  // ------------------------------------------------------------------ a run with no schedule() between the first two statements

  /** Two equal threads, last activated at these counts, and idle. */
  function TwoAndIdle(last0: int, last1: int): seq<Tcb> {
    [Tcb(1, 0, last0, 0), Tcb(1, 0, last1, 0), Tcb(0, 0, 0, 0)]
  }

  lemma PickOfTwo(last0: int, last1: int, now: int)
    requires 0 < now <= END_OF_TIME
    ensures Pick(TwoAndIdle(last0, last1), 2, now) == if last1 < last0 then 1 else 0
    ensures Walked(TwoAndIdle(last0, last1), 2, now, 3).earliest == END_OF_TIME
  {
    var ts := TwoAndIdle(last0, last1);
    PickIsTheBest(ts, 2, now, if last1 < last0 then 1 else 0);
    EarliestIsWakeBound(ts, 2, now);
  }

  /** A system of two equal threads and idle, outside any locked part. */
  predicate Duo(s: State, last0: int, last1: int) {
    ShapeOk(s) && s.idle == 2 && s.k.threads == TwoAndIdle(last0, last1) && !s.lock && s.pre.choice == NOBODY
  }

  /** A tick when it is time: the thread that waited longer runs next. */
  lemma DuoTicks(s: State, last0: int, last1: int)
    requires Duo(s, last0, last1) && s.k.tryAgain <= s.k.now && s.k.now + TIME_SLICE_FOR_SAME_PRIORITY <= END_OF_TIME
    ensures var e := Next(s, Tick);
            var n := s.k.counter + 1;
            && (if last1 < last0 then Duo(e, last0, n) && e.current == 1 else Duo(e, n, last1) && e.current == 0)
            && e.k.counter == n && e.k.now == s.k.now && e.k.tryAgain == s.k.now + TIME_SLICE_FOR_SAME_PRIORITY
            && e.locals == s.locals
  {
    PickOfTwo(last0, last1, s.k.now);
    var n := s.k.counter + 1;
    assert Next(s, Tick) == Wrapper(s) == Schedule(s).(lock := false);
    assert TwoAndIdle(last0, last1)[1 := Tcb(1, 0, n, 0)] == TwoAndIdle(last0, n);
    assert TwoAndIdle(last0, last1)[0 := Tcb(1, 0, n, 0)] == TwoAndIdle(n, last1);
  }

  lemma DuoAdvances(s: State, last0: int, last1: int, time: int)
    requires Duo(s, last0, last1) && s.k.now <= time <= END_OF_TIME
    ensures Enabled(s, Advance(time)) && Duo(Next(s, Advance(time)), last0, last1)
    ensures Next(s, Advance(time)) == s.(k := s.k.(now := time))
  {
  }

  /** Thread 0 calls yield and gets as far as reading the counter. */
  lemma DuoYields(s: State, last0: int, last1: int)
    requires Duo(s, last0, last1) && Reachable(s) && s.current == 0 && Mine(s).pc.User?
    ensures var e := Next(Next(s, CallYield), Exec);
            && Reachable(e) && Duo(e, last0, last1) && e.current == 0 && e.k == s.k.(tryAgain := 0)
            && Mine(e).pc.ReadCounter? && Mine(e).reset == s.k.counter
  {
    Go(s, CallYield);
    Go(Next(s, CallYield), Exec);
  }

  /** ... and, as thread 1 waited longer, up to taking the lock. */
  lemma DuoWalks(s: State, last0: int, last1: int)
    requires Duo(s, last0, last1) && Reachable(s) && s.current == 0 && Mine(s).pc.ReadCounter? && last1 < last0
    ensures var e := Thrice(DoN(Do(Do(s)), 3));
            && Reachable(e) && Duo(e, last0, last1) && e.current == 0 && e.k == s.k
            && Mine(e).pc.TakeLock? && Mine(e).start == s.k.counter && Mine(e).reset == Mine(s).reset
  {
    ReachableHasInv(s);
    UndisturbedWalk(s);
    PickOfTwo(last0, last1, s.k.now);
    var e := DoN(Do(Do(s)), 3);
    PassTests(e);
    GoOn(s);
    GoOn(Do(s));
    GoOnN(Do(Do(s)), 3);
    GoThrice(e);
    WalkKeepsReset(s);
  }

  lemma WalkKeepsReset(s: State)
    requires Inv(s) && Mine(s).pc.ReadCounter?
    ensures var e := DoN(Do(Do(s)), |s.k.threads|); ShapeOk(e) && Mine(e).reset == Mine(s).reset
  {
    FirstTwo(s);
    WalkOn(Do(Do(s)), |s.k.threads|);
  }

  /** Two ticks after the last test and before the lock: away and back. */
  lemma AwayAndBack(s: State, last0: int, last1: int) returns (e: State)
    requires Duo(s, last0, last1) && Reachable(s) && s.current == 0 && last1 < last0 <= s.k.counter
    requires s.k.tryAgain == 0 && s.k.now + 2 * TIME_SLICE_FOR_SAME_PRIORITY <= END_OF_TIME
    ensures Reachable(e) && Duo(e, s.k.counter + 2, s.k.counter + 1) && e.current == 0 && e.locals == s.locals
    ensures e.k.counter == s.k.counter + 2 && e.k.now < e.k.tryAgain
  {
    DuoTicks(s, last0, last1);
    Go(s, Tick);
    var a := Next(s, Tick);
    DuoAdvances(a, last0, s.k.counter + 1, a.k.tryAgain);
    Go(a, Advance(a.k.tryAgain));
    var b := Next(a, Advance(a.k.tryAgain));
    DuoTicks(b, last0, s.k.counter + 1);
    Go(b, Tick);
    e := Next(b, Tick);
  }

  /** The locked part after that: the second test fails and the scheduler is called without a choice. */
  lemma FailsRecheck(s: State)
    requires Reachable(s) && ShapeOk(s) && Mine(s).pc.TakeLock? && Mine(s).start != s.k.counter
    ensures var e := Thrice(s);
            && Reachable(e) && ShapeOk(e) && e.k == s.k && e.current == s.current && e.pre == s.pre
            && Mine(e) == Mine(s).(pc := CallScheduler)
  {
    GoThrice(s);
    var l := Mine(s);
    var e1 := WithLocal(s, l.(pc := StopTimer)).(lock := true);
    assert Do(s) == e1;
    OwnStepIs(e1);
    var e2 := WithLocal(s, l.(pc := Recheck)).(lock := true);
    assert Do(e1) == e2;
    OwnStepIs(e2);
  }

  lemma PairTicked() returns (s: State)
    ensures Reachable(s) && Duo(s, 1, 0) && s.current == 0 && Mine(s).pc.User?
    ensures s.k.counter == 1 && s.k.now == 1
  {
    PairIsInitial();
    GoStart(Pair());
    assert Pair().k.threads == TwoAndIdle(0, 0);
    DuoTicks(Pair(), 0, 0);
    Go(Pair(), Tick);
    s := Next(Pair(), Tick);
  }

  lemma AtTheLock() returns (s: State)
    ensures Reachable(s) && Duo(s, 1, 0) && s.current == 0 && Mine(s).pc.TakeLock?
    ensures s.k.counter == Mine(s).start == Mine(s).reset == 1 && s.k.now == 1 && s.k.tryAgain == 0
  {
    var t := PairTicked();
    DuoYields(t, 1, 0);
    var y := Next(Next(t, CallYield), Exec);
    DuoWalks(y, 1, 0);
    s := Thrice(DoN(Do(Do(y)), 3));
  }

  lemma EndsWithoutSchedule(e: State)
    requires ShapeOk(e) && Mine(e).pc.CallScheduler? && e.k.now < e.k.tryAgain
    ensures ExecYield(e).k.counter == e.k.counter && ExecYield(e).current == e.current
  {
  }

  /**
    A yield can end without scheduling although no schedule() fell between its first two statements:
    two ticks between its test for itself and the lock are enough.
  */
  lemma LateTicksSkipSchedule() returns (e: State)
    ensures Reachable(e) && ShapeOk(e) && Mine(e).pc.CallScheduler?
    ensures Mine(e).reset == Mine(e).start && e.k.now < e.k.tryAgain
    ensures ExecYield(e).k.counter == e.k.counter && ExecYield(e).current == e.current
  {
    var w := AtTheLock();
    var b := AwayAndBack(w, 1, 0);
    FailsRecheck(b);
    e := Thrice(b);
    EndsWithoutSchedule(e);
  }

  // ------------------------------------------------------------------ when the preselected thread is still the best

  /** At the scheduler call a preselection is what this very yield has seen. */
  predicate StoredOk(s: State) {
    ShapeOk(s) ==>
      && (HasStart(Mine(s).pc) && Mine(s).start < s.k.counter ==> s.pre.choice == NOBODY)
      && (Mine(s).pc.CallScheduler? && s.pre.choice != NOBODY ==> s.pre.source == Event(Mine(s).seen, Mine(s).walkNow))
  }

  lemma ExecKeepsStored(s: State)
    requires Inv(s) && StoredOk(s)
    ensures StoredOk(ExecYield(s))
  {
    assert LocalOk(s.k, s.idle, s.current, s.current, Mine(s));
  }

  lemma StepKeepsStored(s: State, c: Choice)
    requires Inv(s) && StoredOk(s) && Enabled(s, c)
    ensures StoredOk(Next(s, c))
  {
    match c
    case Exec => ExecKeepsStored(s);
    case CallYield =>
    case Suspend(_) =>
    case SetPriority(_, _) =>
    case Resume(_) =>
    case Advance(_) =>
    case Tick =>
  }

  lemma {:induction false} RunKeepsStored(s: State, run: seq<Choice>)
    requires Inv(s) && StoredOk(s) && Legal(s, run)
    ensures StoredOk(Run(s, run))
    decreases |run|
  {
    if run != [] {
      StepKeepsInv(s, run[0]);
      StepKeepsStored(s, run[0]);
      RunKeepsStored(Next(s, run[0]), run[1..]);
    }
  }

  /** Thread i was asleep when the walk behind the preselection read it, and is ready now. */
  predicate Woke(s: State, i: int) {
    && 0 <= i < |s.k.threads| && i < |s.pre.source.view|
    && Ready(s.k.threads[i], s.k.now) && !Ready(s.pre.source.view[i], s.pre.source.now)
  }

  /** The priorities that the walk compared are still the threads'. */
  predicate PrioritiesKept(s: State) {
    |s.pre.source.view| == |s.k.threads| &&
    forall i | 0 <= i < |s.k.threads| :: s.pre.source.view[i].priority == s.k.threads[i].priority
  }

  /** The preselected thread is the best one now if and only if it is preferred to every thread that woke since. */
  lemma ChoiceIsBestExactlyWhen(s: State)
    requires Inv(s) && s.pre.choice != NOBODY && PrioritiesKept(s)
    ensures IsBest(s.k.threads, s.idle, s.k.now, s.pre.choice) <==>
            forall i | 0 <= i < |s.k.threads| && i != s.pre.choice && Woke(s, i) ::
              Precedes(s.k.threads, s.idle, s.pre.choice, i)
  {
    PickIsTheBest(s.pre.source.view, s.idle, s.pre.source.now, s.pre.choice);
  }

  /** The priority that the walk read for thread i is not the thread's. */
  predicate Repriced(s: State, i: int) {
    0 <= i < |s.k.threads| && i < |s.pre.source.view| && s.pre.source.view[i].priority != s.k.threads[i].priority
  }

  /** Whatever was changed since: it is the best one exactly when preferred to all that woke or changed priority, or to all if it did. */
  lemma ChoiceIsBestDespiteChangesExactlyWhen(s: State)
    requires Inv(s) && s.pre.choice != NOBODY
    ensures IsBest(s.k.threads, s.idle, s.k.now, s.pre.choice) <==>
            forall i | 0 <= i < |s.k.threads| && i != s.pre.choice && (i == s.idle || Ready(s.k.threads[i], s.k.now))
                       && (Woke(s, i) || Repriced(s, i) || Repriced(s, s.pre.choice)) ::
              Precedes(s.k.threads, s.idle, s.pre.choice, i)
  {
    PickIsTheBest(s.pre.source.view, s.idle, s.pre.source.now, s.pre.choice);
  }

  /** ... and so in every run at the scheduler call of a yield, where the priorities never differ. */
  lemma YieldsChoiceIsBestExactlyWhen(s: State, run: seq<Choice>)
    requires Initial(s) && Legal(s, run)
    requires var e := Run(s, run); ShapeOk(e) && Mine(e).pc.CallScheduler?
    ensures var e := Run(s, run);
            IsBest(e.k.threads, e.idle, e.k.now, Selected(e).candidate) <==>
            (e.pre.choice == NOBODY
             || forall i | 0 <= i < |e.k.threads| && i != e.pre.choice && Woke(e, i) ::
                  Precedes(e.k.threads, e.idle, e.pre.choice, i))
  {
    ReachableInv(s, run);
    RunKeepsStored(s, run);
    var e := Run(s, run);
    if e.pre.choice == NOBODY {
      PickIsTheBest(e.k.threads, e.idle, e.k.now, Selected(e).candidate);
    } else {
      assert LocalOk(e.k, e.idle, e.current, e.current, Mine(e));
      ChoiceIsBestExactlyWhen(e);
    }
  }

  // ------------------------------------------------------------------ a run in which a resume is lost

  /** An ordinary thread that runs, a more important one that sleeps, and idle. */
  function Sleeper(): State {
    var l := Local(User, -1, 0, Walk(2, 0), 0, []);
    State(2, Kernel([Tcb(1, 0, 0, 0), Tcb(2, END_OF_TIME, 0, 0), Tcb(0, 0, 0, 0)], 0, 1, 0), 0, false,
          Preselection(NOBODY, 0, Event([], 0), 0, 0), [l, l, l], History([0, 0, 0], [], [], 0))
  }

  /** The running thread goes to sleep and has read the counter in yield. */
  lemma SleeperYields() returns (s: State)
    ensures Reachable(s) && ShapeOk(s) && Mine(s).pc.ReadCounter? && s.current == 0 && s.idle == 2 && s.k.now == 1
    ensures s.k.threads == [Tcb(1, END_OF_TIME, 0, 0), Tcb(2, END_OF_TIME, 0, 0), Tcb(0, 0, 0, 0)]
  {
    var s0 := Sleeper();
    assert Lasts(s0.k.threads) == [0, 0, 0];
    GoStart(s0);
    Go(s0, Suspend(END_OF_TIME));
    var s1 := Next(s0, Suspend(END_OF_TIME));
    Go(s1, CallYield);
    var s2 := Next(s1, CallYield);
    Go(s2, Exec);
    s := Next(s2, Exec);
  }

  /** The situation of ResumeDuringYieldIsLost arises: idle is chosen over a thread of priority 2. */
  lemma ResumeIsLostHappens() returns (s: State)
    ensures Reachable(s) && Inv(s)
    ensures Mine(s).pc.Walking? && |Mine(s).seen| == |s.k.threads| == 3 && Mine(s).start == s.k.counter
    ensures Mine(s).walk.candidate == s.idle == 2 && s.current == 0 && !Ready(s.k.threads[0], s.k.now)
    ensures !Ready(s.k.threads[1], s.k.now) && s.k.threads[1].priority > s.k.threads[2].priority
  {
    var y := SleeperYields();
    ReachableHasInv(y);
    UndisturbedWalk(y);
    PickIsTheBest(y.k.threads, 2, 1, 2);
    GoOn(y);
    GoOn(Do(y));
    GoOnN(Do(Do(y)), 3);
    s := DoN(Do(Do(y)), 3);
    ReachableHasInv(s);
  }
}
