/**
  Inheritance in all surroundings: with spurious resumes, or with equal-priority preemption at the
  ceiling, the owner can run below a waiter although no hand-over passed over anybody.
*/
module SemaphoreInheriting {
  import opened TimeModel
  import opened Selection
  import opened Semaphore
  import opened SemaphoreTheorems
  import opened SemaphoreInheritance
  import opened SemaphoreOrder
  import opened SemaphoreRuns
  import opened SemaphoreFailures
  import SemaphoreRestoring

  // ------------------------------------------------------------------ runs with fair hand-overs

  ghost predicate FairlyReached(cfg: Config, start: Stamped, x: Stamped) {
    exists run :: && StampedLegal(cfg, start, run) && StampedRun(cfg, start, run) == x
                  && Legal(cfg, start.s, run) && Ordered(cfg, start.s, run)
  }

  lemma {:induction false} OrderedLast(cfg: Config, s: State, run: seq<Choice>, c: Choice)
    requires Legal(cfg, s, run) && Ordered(cfg, s, run) && Enabled(cfg, Run(cfg, s, run), c) && Legal(cfg, s, run + [c])
    requires var e := Run(cfg, s, run);
             c.Exec? && e.threads[e.current].pc.HandOver? ==> Foremost(e, e.threads[e.current].frame.waiter)
    ensures Ordered(cfg, s, run + [c])
    decreases |run|
  {
    if run == [] {
      assert run + [c] == [c];
      assert [c][1..] == [];
    } else {
      assert (run + [c])[1..] == run[1..] + [c];
      OrderedLast(cfg, Next(cfg, s, run[0]), run[1..], c);
    }
  }

  lemma FairlyOn(cfg: Config, start: Stamped, x: Stamped, c: Choice)
    requires FairlyReached(cfg, start, x) && StampedEnabled(cfg, x, c) && Fair(x, c)
    ensures FairlyReached(cfg, start, StampedNext(cfg, x, c))
  {
    var run :| && StampedLegal(cfg, start, run) && StampedRun(cfg, start, run) == x
               && Legal(cfg, start.s, run) && Ordered(cfg, start.s, run);
    StampedLast(cfg, start, run, c);
    Forget(cfg, start, run);
    Forget(cfg, start, run + [c]);
    OrderedLast(cfg, start.s, run, c);
  }

  lemma FairlyCloses(cfg: Config, start: Stamped)
    ensures Closed(cfg, x => FairlyReached(cfg, start, x)) && FairlyReached(cfg, start, start)
  {
    var R: States := x => FairlyReached(cfg, start, x);
    forall x, c | R(x) && StampedEnabled(cfg, x, c) && Fair(x, c)
      ensures R(StampedNext(cfg, x, c))
    {
      FairlyOn(cfg, start, x, c);
    }
    assert StampedLegal(cfg, start, []) && StampedRun(cfg, start, []) == start;
    assert Legal(cfg, start.s, []) && Ordered(cfg, start.s, []);
  }

  // ------------------------------------------------------------------ a spurious resume

  /** x, having left and found nobody, enters again; the resumed a runs next. */
  function XBack(cfg: Config): Cast {
    SemaphoreRestoring.LeftAlone(cfg).(cur := 2, x := Someone(1, false).(depth := 1), sem := Sem(1, 1, 1), sa := 3, counter := 3)
  }

  lemma XComesBack(cfg: Config, R: States)
    requires Play(cfg, R) && cfg.spurious
    ensures R(St(XBack(cfg)))
  {
    SemaphoreRestoring.XLeavesAlone(cfg, R);
    var c := SemaphoreRestoring.LeftAlone(cfg);
    WithIs(c, c.x, c.sem);
    Decide(cfg, R, St(c), c.x, c.sem);
    var th := Someone(1, false).(pc := TakeOwner, priority := cfg.ceiling);
    assert InEnter(cfg, c.x, TakeOwner) == th;
    Take(cfg, R, St(c), th, c.sem);
    var th1 := Someone(1, false).(pc := EnterYield);
    WithIs(c, th1, Sem(1, 1, 1));
    YieldTo(cfg, R, St(c), th1, Sem(1, 1, 1), 2);
    WithIs(c, th1.(pc := User, depth := 1), Sem(1, 1, 1));
    StampIs(c.(x := th1.(pc := User, depth := 1), sem := Sem(1, 1, 1)));
  }

  function AResumedInVain(cfg: Config): Cast {
    XBack(cfg).(cur := 1, a := Blocked(cfg, 2), sx := 4, counter := 4)
  }

  lemma AGoesBack(cfg: Config, R: States)
    requires Play(cfg, R) && cfg.spurious
    ensures R(St(AResumedInVain(cfg)))
  {
    XComesBack(cfg, R);
    var c := XBack(cfg);
    WithIs(c, c.a, c.sem);
    var th := c.a.(pc := LoopTest);
    Exec1(cfg, R, St(c), c.a, c.sem, th, c.sem);
    PrepareToSleep(cfg, R, St(c), th, c.sem);
    var th1 := th.(pc := FallAsleep, waiting := true);
    GoToSleep(cfg, R, St(c), th1, c.sem);
    var th2 := th1.(pc := SuspendYield, asleep := true);
    WithIs(c, th2, c.sem);
    YieldTo(cfg, R, St(c), th2, c.sem, 1);
    WithIs(c, Blocked(cfg, 2), c.sem);
    StampIs(c.(a := Blocked(cfg, 2)));
  }

  /** The owner o runs below the waiter u. */
  lemma Below(c: Cast, o: int, u: int)
    requires 1 <= o <= 2 && 1 <= u <= 2 && o != u && c.sem.owner == o
    requires var s := St(c).s;
             InLoop(s.threads[u].pc) && s.threads[u].frame.callerPriority > Own(s.threads[o])
    ensures !Inherits(St(c).s)
  {
  }

  /** a goes back to sleep without raising x, which runs at 1 while a, that entered with 2, waits. */
  lemma SpuriousResumeLosesBoost(cfg: Config) returns (x: Stamped)
    requires cfg.ceiling > 3 && cfg.spurious
    ensures Initial(cfg, St(Begin()).s) && FairlyReached(cfg, St(Begin()), x) && !Inherits(x.s)
  {
    BeginIsInitial(cfg);
    FairlyCloses(cfg, St(Begin()));
    AGoesBack(cfg, y => FairlyReached(cfg, St(Begin()), y));
    Below(AResumedInVain(cfg), 1, 2);
    x := St(AResumedInVain(cfg));
  }

  // ------------------------------------------------------------------ a tick at the ceiling

  /** x of priority 3 runs, a of priority 2 sleeps for reasons of its own, b of priority 1 is ready. */
  function Begin2(): Cast {
    Cast(1, Someone(3, false), Someone(2, true), Someone(1, false), Sem(NONE, 0, 0), 0, 0, 0, 0)
  }

  ghost predicate Play2(cfg: Config, R: States) {
    cfg.ceiling > 3 && cfg.roundRobin && Closed(cfg, R) && R(St(Begin2()))
  }

  /** x is inside. */
  function XIn(): Cast {
    Begin2().(x := Someone(3, false).(depth := 1), sem := Sem(1, 1, 3))
  }

  lemma XGoesIn(cfg: Config, R: States)
    requires Play2(cfg, R)
    ensures R(St(XIn()))
  {
    var c := Begin2();
    WithIs(c, c.x, c.sem);
    Decide(cfg, R, St(c), c.x, c.sem);
    var th := Someone(3, false).(pc := TakeOwner, priority := cfg.ceiling);
    assert InEnter(cfg, c.x, TakeOwner) == th;
    Take(cfg, R, St(c), th, c.sem);
    var th1 := Someone(3, false).(pc := EnterYield);
    WithIs(c, th1, Sem(1, 1, 3));
    YieldBack(cfg, R, St(c), th1, Sem(1, 1, 3));
    WithIs(c, th1.(pc := User, depth := 1), Sem(1, 1, 3));
  }

  /** x sleeps for reasons of its own and a, awake, runs. */
  function XDozes(): Cast {
    XIn().(cur := 2, x := Someone(3, true).(depth := 1), a := Someone(2, false), sa := 1, counter := 1)
  }

  lemma XDozesOff(cfg: Config, R: States)
    requires Play2(cfg, R)
    ensures R(St(XDozes()))
  {
    XGoesIn(cfg, R);
    var c := XIn();
    var c1 := c.(a := Someone(2, false));
    assert St(c).s.threads[2 := c1.a] == St(c1).s.threads;
    Step(cfg, R, St(c), Wake(2), St(c1));
    var c2 := c1.(x := Someone(3, true).(depth := 1));
    assert St(c1).s.threads[1 := c2.x] == St(c2).s.threads;
    Step(cfg, R, St(c1), Sleep, St(c2));
    TickTo(cfg, R, St(c2), 2);
    StampIs(c2);
  }

  /** a waits for x, which runs again at its own, higher priority. */
  function AQueues(cfg: Config): Cast {
    XIn().(a := Blocked(cfg, 2), sa := 1, sb := 2, sx := 3, counter := 3)
  }

  lemma AQueuesUp(cfg: Config, R: States)
    requires Play2(cfg, R)
    ensures R(St(AQueues(cfg)))
  {
    XDozesOff(cfg, R);
    var c := XDozes();
    Waits(cfg, R, St(c), c.a, 1);
    OtherIs(c, c.x);
    var th := Asleep(cfg, c.a);
    assert th == Blocked(cfg, 2).(pc := SuspendYield);
    WithIs(c, th, c.sem);
    YieldTo(cfg, R, St(c), th, c.sem, 3);
    WithIs(c, Blocked(cfg, 2), c.sem);
    StampIs(c.(a := Blocked(cfg, 2)));
    XAwakes(cfg, R, c.(cur := 3, a := Blocked(cfg, 2), sb := 2, counter := 2));
  }

  lemma XAwakes(cfg: Config, R: States, c: Cast)
    requires Play2(cfg, R) && R(St(c)) && c.cur == 3 && c.x == Someone(3, true).(depth := 1)
    requires c.a.asleep && c.b == Someone(1, false)
    ensures R(St(c.(cur := 1, x := Someone(3, false).(depth := 1), sx := c.counter + 1, counter := c.counter + 1)))
  {
    var c1 := c.(x := Someone(3, false).(depth := 1));
    assert St(c).s.threads[1 := c1.x] == St(c1).s.threads;
    Step(cfg, R, St(c), Wake(1), St(c1));
    TickTo(cfg, R, St(c1), 1);
    StampIs(c1);
  }

  /** x has looked for the next owner and found a, the only waiter. */
  function XChooses(cfg: Config): Cast {
    AQueues(cfg).(x := Someone(3, false).(pc := HandOver, priority := cfg.ceiling, frame := Frame(3, 3, 3, 3, 2)), sem := Sem(NONE, 0, 0))
  }

  lemma XFindsA(cfg: Config, R: States)
    requires Play2(cfg, R)
    ensures R(St(XChooses(cfg)))
  {
    AQueuesUp(cfg, R);
    var c := AQueues(cfg);
    WithIs(c, c.x, c.sem);
    LeaveOnce(cfg, R, St(c), c.x, c.sem);
    Search(cfg, R, St(c), c.x.(pc := LeaveCeiling, depth := 0), Sem(1, 0, 3));
    var th := Someone(3, false).(pc := FindWaiter, priority := cfg.ceiling);
    WithIs(c, th, Sem(NONE, 0, 0));
    var c1 := c.(x := th, sem := Sem(NONE, 0, 0));
    assert IsBestWaiter(View(St(c1)), 0, 1, 2);
    assert St(c1).s.threads[1 := XChooses(cfg).x] == St(XChooses(cfg)).s.threads;
    Step(cfg, R, St(c1), Find(2), St(XChooses(cfg)));
  }

  /** A tick between the hand-over and the end of x's scope runs a. */
  function ARuns(cfg: Config): Cast {
    XChooses(cfg).(cur := 2, x := XChooses(cfg).x.(pc := LeaveRestore), a := Blocked(cfg, 2).(asleep := false, waiting := false),
                   sem := Sem(2, 0, 0), sa := 4, counter := 4)
  }

  lemma TickRunsA(cfg: Config, R: States)
    requires Play2(cfg, R)
    ensures R(St(ARuns(cfg)))
  {
    XFindsA(cfg, R);
    var c := XChooses(cfg);
    WithIs(c, c.x, c.sem);
    assert Foremost(St(c).s, 2);
    HandTo(cfg, R, St(c), c.x, c.sem, 2);
    var a' := Blocked(cfg, 2).(asleep := false, waiting := false);
    OtherIs(c, a');
    var c1 := c.(a := a');
    WithIs(c1, c.x.(pc := LeaveRestore), Sem(2, 0, 0));
    var c2 := c1.(x := c.x.(pc := LeaveRestore), sem := Sem(2, 0, 0));
    TickTo(cfg, R, St(c2), 2);
    StampIs(c2);
  }

  /** a has stored its priority, still at the ceiling, when a tick runs x again. */
  function AHalfway(cfg: Config): Cast {
    ARuns(cfg).(cur := 1, a := Blocked(cfg, 2).(pc := EnterRestore, asleep := false, waiting := false), sem := Sem(2, 1, 2), sx := 5, counter := 5)
  }

  lemma TickRunsX(cfg: Config, R: States)
    requires Play2(cfg, R)
    ensures R(St(AHalfway(cfg)))
  {
    TickRunsA(cfg, R);
    var c := ARuns(cfg);
    WithIs(c, c.a, c.sem);
    WakeUp(cfg, R, St(c), c.a, c.sem);
    var th := c.a.(pc := TakeOwner);
    Exec1(cfg, R, St(c), th, Sem(2, 0, 0), th.(pc := StorePriority), Sem(2, 0, 0));
    Exec1(cfg, R, St(c), th.(pc := StorePriority), Sem(2, 0, 0), th.(pc := CountUp), Sem(2, 0, 2));
    Exec1(cfg, R, St(c), th.(pc := CountUp), Sem(2, 0, 2), th.(pc := EnterRestore), Sem(2, 1, 2));
    WithIs(c, th.(pc := EnterRestore), Sem(2, 1, 2));
    var c1 := c.(a := th.(pc := EnterRestore), sem := Sem(2, 1, 2));
    TickTo(cfg, R, St(c1), 1);
    StampIs(c1);
  }

  /** x returns from leave, enters again, finds a at the ceiling, raises nothing, and sleeps. */
  function XQueues(cfg: Config): Cast {
    AHalfway(cfg).(cur := 2, x := Blocked(cfg, 3).(frame := Frame(3, 3, cfg.ceiling, 3, 2)), sa := 6, counter := 6)
  }

  lemma XQueuesUp(cfg: Config, R: States)
    requires Play2(cfg, R)
    ensures R(St(XQueues(cfg)))
  {
    TickRunsX(cfg, R);
    var c := AHalfway(cfg);
    WithIs(c, c.x, c.sem);
    Restore(cfg, R, St(c), c.x, c.sem);
    var x1 := c.x.(pc := User, priority := 3);
    WithIs(c, x1, c.sem);
    var c1 := c.(x := x1);
    Waits(cfg, R, St(c1), x1, 2);
    OtherIs(c1, c.a);
    var th := Asleep(cfg, x1);
    WithIs(c1, th, c.sem);
    YieldTo(cfg, R, St(c1), th, c.sem, 2);
    WithIs(c1, AfterYield(th), c.sem);
    StampIs(c1.(x := AfterYield(th)));
  }

  function ABack(cfg: Config): Cast {
    XQueues(cfg).(a := Blocked(cfg, 2).(pc := EnterYield, priority := 2, asleep := false, waiting := false))
  }

  lemma AEndsScope(cfg: Config, R: States)
    requires Play2(cfg, R)
    ensures R(St(ABack(cfg)))
  {
    XQueuesUp(cfg, R);
    var c := XQueues(cfg);
    WithIs(c, c.a, c.sem);
    Exec1(cfg, R, St(c), c.a, c.sem, ABack(cfg).a, c.sem);
    WithIs(c, ABack(cfg).a, c.sem);
  }

  lemma Begin2IsInitial(cfg: Config)
    requires cfg.ceiling > 3
    ensures Initial(cfg, St(Begin2()).s)
  {
  }

  /** a ends its scope: the owner is back at 2 while x, that entered with 3, waits. */
  lemma TickLosesBoost(cfg: Config) returns (x: Stamped)
    requires cfg.ceiling > 3 && cfg.roundRobin
    ensures Initial(cfg, St(Begin2()).s) && FairlyReached(cfg, St(Begin2()), x) && !Inherits(x.s)
  {
    Begin2IsInitial(cfg);
    FairlyCloses(cfg, St(Begin2()));
    AEndsScope(cfg, y => FairlyReached(cfg, St(Begin2()), y));
    Below(ABack(cfg), 2, 1);
    x := St(ABack(cfg));
  }

  // ------------------------------------------------------------------ exactly when

  /** In every run whose hand-overs pass over nobody, the owner runs at no less than any waiter entered with. */
  ghost predicate AlwaysInherits(cfg: Config) {
    forall s, run | Initial(cfg, s) && Legal(cfg, s, run) && Ordered(cfg, s, run) :: Inherits(Run(cfg, s, run))
  }

  /** Fair hand-overs keep inheritance if and only if ticks do not switch at the ceiling and only leave resumes waiters. */
  lemma InheritsExactlyWhenStrict(cfg: Config)
    requires cfg.ceiling > 3
    ensures AlwaysInherits(cfg) <==> !cfg.roundRobin && !cfg.spurious
  {
    if Strict(cfg) {
      forall s, run | Initial(cfg, s) && Legal(cfg, s, run) && Ordered(cfg, s, run)
        ensures Inherits(Run(cfg, s, run))
      {
        OwnerInherits(cfg, s, run);
      }
    } else {
      var start := if cfg.roundRobin then St(Begin2()) else St(Begin());
      var x;
      if cfg.roundRobin {
        x := TickLosesBoost(cfg);
      } else {
        x := SpuriousResumeLosesBoost(cfg);
      }
      var run :| && StampedLegal(cfg, start, run) && StampedRun(cfg, start, run) == x
                 && Legal(cfg, start.s, run) && Ordered(cfg, start.s, run);
      Forget(cfg, start, run);
      assert !Inherits(Run(cfg, start.s, run));
    }
  }
}
