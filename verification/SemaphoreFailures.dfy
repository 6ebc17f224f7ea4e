/** Four threads on one semaphore: runs that break what its documentation promises, step by step. */
module SemaphoreFailures {
  import opened TimeModel
  import opened Selection
  import opened Semaphore
  import opened SemaphoreTheorems
  import opened SemaphoreOrder
  import opened SemaphoreRuns

  /** A thread of this priority in its own code. */
  function Someone(p: int, asleep: bool): Thread {
    Thread(User, p, asleep, false, Frame(p, p, p, p, NONE), 0, p, false)
  }

  /** ... and asleep in the loop of enter. */
  function Blocked(cfg: Config, p: int): Thread {
    Thread(ClearWaiting, cfg.ceiling, true, true, Frame(p, p, cfg.ceiling, p, NONE), 0, p, false)
  }

  /** Threads 1 to 3 and their stamps; thread 0 is idle. */
  datatype Cast = Cast(cur: int, x: Thread, a: Thread, b: Thread, sem: Sem, sx: int, sa: int, sb: int, counter: int)

  function St(c: Cast): (y: Stamped)
    ensures |y.stamps| == |y.s.threads| == 4
  {
    Stamped(State(c.cur, [Someone(0, false), c.x, c.a, c.b], c.sem), [0, c.sx, c.sa, c.sb], c.counter)
  }

  lemma WithIs(c: Cast, th: Thread, sem: Sem)
    ensures c.cur == 1 ==> With(St(c), th, sem) == St(c.(x := th, sem := sem))
    ensures c.cur == 2 ==> With(St(c), th, sem) == St(c.(a := th, sem := sem))
    ensures c.cur == 3 ==> With(St(c), th, sem) == St(c.(b := th, sem := sem))
  {
  }

  lemma OtherIs(c: Cast, th: Thread)
    ensures WithOther(St(c), 1, th) == St(c.(x := th))
    ensures WithOther(St(c), 2, th) == St(c.(a := th))
    ensures WithOther(St(c), 3, th) == St(c.(b := th))
  {
  }

  lemma StampIs(c: Cast)
    ensures Stamp(St(c), 1) == St(c.(cur := 1, sx := c.counter + 1, counter := c.counter + 1))
    ensures Stamp(St(c), 2) == St(c.(cur := 2, sa := c.counter + 1, counter := c.counter + 1))
    ensures Stamp(St(c), 3) == St(c.(cur := 3, sb := c.counter + 1, counter := c.counter + 1))
  {
  }

  /** x of priority 1 runs; a and b of priorities 2 and 3 sleep for reasons of their own. */
  function Begin(): Cast {
    Cast(1, Someone(1, false), Someone(2, true), Someone(3, true), Sem(NONE, 0, 0), 0, 0, 0, 0)
  }

  lemma BeginIsInitial(cfg: Config)
    requires cfg.ceiling > 3
    ensures Initial(cfg, St(Begin()).s)
  {
  }

  /** R holds at the start and is closed under fair steps. */
  ghost predicate Play(cfg: Config, R: States) {
    cfg.ceiling > 3 && Closed(cfg, R) && R(St(Begin()))
  }

  // ------------------------------------------------------------------ a contender comes, raises the owner and waits

  lemma Comes(cfg: Config, R: States, x: Stamped, k: int, p: int)
    requires Closed(cfg, R) && R(x) && Running(x) && x.s.current == 1 && x.s.threads[1].priority < cfg.ceiling
    requires 1 < k < |x.s.threads| && x.s.threads[k] == Someone(p, true)
    requires GoesNext(WithOther(x, k, Someone(p, false)), k)
    ensures R(Stamp(WithOther(x, k, Someone(p, false)), k))
  {
    var y := WithOther(x, k, Someone(p, false));
    Step(cfg, R, x, Wake(k), y);
    TickTo(cfg, R, y, k);
  }

  /** A thread in the yield in which it sleeps, having entered from this record. */
  function Asleep(cfg: Config, th: Thread): Thread {
    var e := InEnter(cfg, th, SuspendYield);
    e.(asleep := true, waiting := true, frame := e.frame.(suspendPrevious := cfg.ceiling))
  }

  /** From its own code to the yield in which it sleeps, thread o being the owner. */
  lemma Waits(cfg: Config, R: States, x: Stamped, th: Thread, o: int)
    requires Closed(cfg, R) && Running(x) && R(x) && x.s.current > 0 && th == x.s.threads[x.s.current]
    requires th.pc.User? && !th.asleep && 0 <= o < |x.s.threads| && o == x.s.sem.owner && o != x.s.current
    ensures R(With(WithOther(x, o, Raised(x.s.threads[o], th.priority)), Asleep(cfg, th), x.s.sem))
  {
    var sem := x.s.sem;
    assert With(x, th, sem) == x;
    Decide(cfg, R, x, th, sem);
    var th1 := InEnter(cfg, th, Boost);
    BoostOwner(cfg, R, x, th1, sem, o);
    var y := WithOther(x, o, Raised(x.s.threads[o], th.priority));
    PrepareToSleep(cfg, R, y, th1.(pc := LoopTest), sem);
    GoToSleep(cfg, R, y, Asleep(cfg, th).(pc := FallAsleep, asleep := false), sem);
  }

  /** a contends while x is inside. */
  lemma ContendA(cfg: Config, R: States, c: Cast)
    requires cfg.ceiling > 3 && Closed(cfg, R) && R(St(c)) && c.cur == 1 && c.sem.owner == 1
    requires c.x.pc.User? && !c.x.asleep && c.x.priority == 1 && c.a == Someone(2, true) && c.b.asleep
    ensures R(St(c.(x := c.x.(priority := 2), a := Blocked(cfg, 2),
                    sa := c.counter + 1, sx := c.counter + 2, counter := c.counter + 2)))
  {
    OtherIs(c, Someone(2, false));
    Comes(cfg, R, St(c), 2, 2);
    StampIs(c.(a := Someone(2, false)));
    var c1 := c.(a := Someone(2, false), cur := 2, sa := c.counter + 1, counter := c.counter + 1);
    Waits(cfg, R, St(c1), Someone(2, false), 1);
    OtherIs(c1, c.x.(priority := 2));
    var c2 := c1.(x := c.x.(priority := 2));
    var th := Blocked(cfg, 2).(pc := SuspendYield);
    WithIs(c2, th, c.sem);
    YieldTo(cfg, R, St(c2), th, c.sem, 1);
    WithIs(c2, Blocked(cfg, 2), c.sem);
    StampIs(c2.(a := Blocked(cfg, 2)));
  }

  /** b contends while x is inside and a waits. */
  lemma ContendB(cfg: Config, R: States, c: Cast)
    requires cfg.ceiling > 3 && Closed(cfg, R) && R(St(c)) && c.cur == 1 && c.sem.owner == 1
    requires c.x.pc.User? && !c.x.asleep && c.x.priority == 2 && c.b == Someone(3, true) && c.a.asleep
    ensures R(St(c.(x := c.x.(priority := 3), b := Blocked(cfg, 3),
                    sb := c.counter + 1, sx := c.counter + 2, counter := c.counter + 2)))
  {
    OtherIs(c, Someone(3, false));
    Comes(cfg, R, St(c), 3, 3);
    StampIs(c.(b := Someone(3, false)));
    var c1 := c.(b := Someone(3, false), cur := 3, sb := c.counter + 1, counter := c.counter + 1);
    Waits(cfg, R, St(c1), Someone(3, false), 1);
    OtherIs(c1, c.x.(priority := 3));
    var c2 := c1.(x := c.x.(priority := 3));
    var th := Blocked(cfg, 3).(pc := SuspendYield);
    WithIs(c2, th, c.sem);
    YieldTo(cfg, R, St(c2), th, c.sem, 1);
    WithIs(c2, Blocked(cfg, 3), c.sem);
    StampIs(c2.(b := Blocked(cfg, 3)));
  }

  // ------------------------------------------------------------------ scenes

  /** x is inside. */
  function Inside1(): Cast {
    Begin().(x := Someone(1, false).(depth := 1), sem := Sem(1, 1, 1))
  }

  lemma XEnters(cfg: Config, R: States)
    requires Play(cfg, R)
    ensures R(St(Inside1()))
  {
    var c := Begin();
    var th := c.x;
    WithIs(c, th, c.sem);
    Decide(cfg, R, St(c), th, c.sem);
    var th1 := th.(pc := TakeOwner, priority := cfg.ceiling);
    assert InEnter(cfg, th, TakeOwner) == th1;
    Take(cfg, R, St(c), th1, c.sem);
    var th2 := th.(pc := EnterYield);
    WithIs(c, th2, Sem(1, 1, 1));
    YieldBack(cfg, R, St(c), th2, Sem(1, 1, 1));
    WithIs(c, th.(depth := 1), Sem(1, 1, 1));
  }

  /** a waits for x, which runs at a's priority. */
  function AWaits(cfg: Config): Cast {
    Inside1().(x := Someone(1, false).(depth := 1, priority := 2), a := Blocked(cfg, 2), sa := 1, sx := 2, counter := 2)
  }

  lemma AComes(cfg: Config, R: States)
    requires Play(cfg, R)
    ensures R(St(AWaits(cfg)))
  {
    XEnters(cfg, R);
    ContendA(cfg, R, Inside1());
  }

  /** a and b wait for x, which runs at b's priority. */
  function BothWait(cfg: Config): Cast {
    AWaits(cfg).(x := Someone(1, false).(depth := 1, priority := 3), b := Blocked(cfg, 3), sb := 3, sx := 4, counter := 4)
  }

  lemma BComes(cfg: Config, R: States)
    requires Play(cfg, R)
    ensures R(St(BothWait(cfg)))
  {
    AComes(cfg, R);
    ContendB(cfg, R, AWaits(cfg));
  }

  /** x, in leave, looks for the next owner. */
  function Looking(cfg: Config): Cast {
    BothWait(cfg).(x := Someone(1, false).(pc := FindWaiter, priority := cfg.ceiling, frame := Frame(1, 3, 1, 1, NONE)),
                   sem := Sem(NONE, 0, 0))
  }

  lemma XLooks(cfg: Config, R: States)
    requires Play(cfg, R)
    ensures R(St(Looking(cfg)))
  {
    BComes(cfg, R);
    var c := BothWait(cfg);
    WithIs(c, c.x, c.sem);
    LeaveOnce(cfg, R, St(c), c.x, c.sem);
    var th := c.x.(pc := LeaveCeiling, depth := 0);
    Search(cfg, R, St(c), th, Sem(1, 0, 1));
    WithIs(c, Looking(cfg).x, Sem(NONE, 0, 0));
  }

  // ------------------------------------------------------------------ reachability

  ghost predicate Reached(cfg: Config, x: Stamped) {
    exists run :: StampedLegal(cfg, St(Begin()), run) && StampedRun(cfg, St(Begin()), run) == x
  }

  lemma {:induction false} StampedLast(cfg: Config, x: Stamped, run: seq<Choice>, c: Choice)
    requires StampedLegal(cfg, x, run) && StampedEnabled(cfg, StampedRun(cfg, x, run), c)
    ensures StampedLegal(cfg, x, run + [c])
    ensures StampedRun(cfg, x, run + [c]) == StampedNext(cfg, StampedRun(cfg, x, run), c)
    decreases |run|
  {
    if run == [] {
      assert run + [c] == [c];
      assert [c][1..] == [];
    } else {
      assert (run + [c])[1..] == run[1..] + [c];
      StampedLast(cfg, StampedNext(cfg, x, run[0]), run[1..], c);
    }
  }

  lemma ReachedGoesOn(cfg: Config, x: Stamped, c: Choice)
    requires Reached(cfg, x) && StampedEnabled(cfg, x, c)
    ensures Reached(cfg, StampedNext(cfg, x, c))
  {
    var run :| StampedLegal(cfg, St(Begin()), run) && StampedRun(cfg, St(Begin()), run) == x;
    StampedLast(cfg, St(Begin()), run, c);
  }

  lemma ReachedPlays(cfg: Config)
    requires cfg.ceiling > 3
    ensures Play(cfg, x => Reached(cfg, x)) && FullyClosed(cfg, x => Reached(cfg, x)) && Initial(cfg, St(Begin()).s)
  {
    var R: States := x => Reached(cfg, x);
    forall x, c | R(x) && StampedEnabled(cfg, x, c)
      ensures R(StampedNext(cfg, x, c))
    {
      ReachedGoesOn(cfg, x, c);
    }
    assert StampedLegal(cfg, St(Begin()), []) && StampedRun(cfg, St(Begin()), []) == St(Begin());
    BeginIsInitial(cfg);
  }

  // ------------------------------------------------------------------ the less important waiter is served

  lemma AIsFound(cfg: Config)
    requires cfg.ceiling > 3
    ensures StampedEnabled(cfg, St(Looking(cfg)), Find(2))
  {
    var v := View(St(Looking(cfg)));
    assert IsBestWaiter(v, 0, 1, 2);
  }

  /** In a reachable state leave is about to choose a waiter that entered with priority 2 over one that entered with 3. */
  lemma LessImportantIsServed(cfg: Config) returns (x: Stamped)
    requires cfg.ceiling > 3
    ensures Initial(cfg, St(Begin()).s) && Reached(cfg, x) && StampedEnabled(cfg, x, Find(2)) && !MostImportant(x.s, 2)
  {
    ReachedPlays(cfg);
    x := St(Looking(cfg));
    XLooks(cfg, y => Reached(cfg, y));
    AIsFound(cfg);
    assert x.s.threads[3].waiting;
  }

  // ------------------------------------------------------------------ the new owner does not inherit

  /** The semaphore is a's; x has left at its own priority. */
  function Handed(cfg: Config): Cast {
    Looking(cfg).(cur := 2, x := Someone(1, false).(frame := Frame(1, 3, 1, 1, 2)),
                  a := Blocked(cfg, 2).(asleep := false, waiting := false), sem := Sem(2, 0, 0), sa := 5, counter := 5)
  }

  lemma XHands(cfg: Config, R: States)
    requires Play(cfg, R) && FullyClosed(cfg, R)
    ensures R(St(Handed(cfg)))
  {
    XLooks(cfg, R);
    AIsFound(cfg);
    var c := Looking(cfg);
    var th := c.x.(pc := HandOver, frame := Frame(1, 3, 1, 1, 2));
    WithIs(c, th, c.sem);
    Step(cfg, R, St(c), Find(2), St(c.(x := th)));
    HandTo(cfg, R, St(c), th, c.sem, 2);
    var a' := Blocked(cfg, 2).(asleep := false, waiting := false);
    OtherIs(c, a');
    var c1 := c.(a := a');
    Restore(cfg, R, St(c1), th.(pc := LeaveRestore), Sem(2, 0, 0));
    var th1 := th.(pc := LeaveYield, priority := 1);
    WithIs(c1, th1, Sem(2, 0, 0));
    YieldTo(cfg, R, St(c1), th1, Sem(2, 0, 0), 2);
    WithIs(c1, th1.(pc := User), Sem(2, 0, 0));
    StampIs(c1.(x := th1.(pc := User), sem := Sem(2, 0, 0)));
  }

  /** a is inside, at its own priority, and b still waits. */
  function AInside(cfg: Config): Cast {
    Handed(cfg).(a := Blocked(cfg, 2).(pc := User, priority := 2, asleep := false, waiting := false, depth := 1), sem := Sem(2, 1, 2))
  }

  lemma AEnters(cfg: Config, R: States)
    requires Play(cfg, R) && FullyClosed(cfg, R)
    ensures R(St(AInside(cfg)))
  {
    XHands(cfg, R);
    var c := Handed(cfg);
    WithIs(c, c.a, c.sem);
    WakeUp(cfg, R, St(c), c.a, c.sem);
    Take(cfg, R, St(c), c.a.(pc := TakeOwner), c.sem);
    var th := c.a.(pc := EnterYield, priority := 2);
    WithIs(c, th, Sem(2, 1, 2));
    YieldBack(cfg, R, St(c), th, Sem(2, 1, 2));
    WithIs(c, th.(pc := User, depth := 1), Sem(2, 1, 2));
  }

  /** "Avoid priority inversion" fails: the owner runs at priority 2 while a thread that entered with 3 waits for it. */
  lemma OwnerDoesNotInherit(cfg: Config) returns (x: Stamped)
    requires cfg.ceiling > 3
    ensures Initial(cfg, St(Begin()).s) && Reached(cfg, x) && |x.s.threads| == 4
    ensures x.s.sem.owner == 2 && x.s.threads[2].pc.User? && x.s.threads[2].depth > 0
    ensures x.s.threads[3].waiting && x.s.threads[2].priority < x.s.threads[3].frame.callerPriority
  {
    ReachedPlays(cfg);
    AEnters(cfg, y => Reached(cfg, y));
    x := St(AInside(cfg));
  }

  // ------------------------------------------------------------------ a boosted owner re-enters

  /** x has entered a second time, at the priority it was raised to. */
  function Reentered(cfg: Config): Cast {
    AWaits(cfg).(x := Someone(1, false).(priority := 2, depth := 2, spoiled := true, frame := Frame(2, 2, 1, 1, NONE)), sem := Sem(1, 2, 2))
  }

  lemma XReenters(cfg: Config, R: States)
    requires Play(cfg, R)
    ensures R(St(Reentered(cfg)))
  {
    AComes(cfg, R);
    var c := AWaits(cfg);
    WithIs(c, c.x, c.sem);
    Decide(cfg, R, St(c), c.x, c.sem);
    Take(cfg, R, St(c), InEnter(cfg, c.x, TakeOwner), c.sem);
    var th := Reentered(cfg).x.(pc := EnterYield, depth := 1);
    WithIs(c, th, Sem(1, 2, 2));
    YieldBack(cfg, R, St(c), th, Sem(1, 2, 2));
    WithIs(c, Reentered(cfg).x, Sem(1, 2, 2));
  }

  /** x looks for the next owner in its second leave. */
  function LastLeave(cfg: Config): Cast {
    AWaits(cfg).(x := Someone(1, false).(pc := FindWaiter, priority := cfg.ceiling, spoiled := true, frame := Frame(2, 2, 1, 2, NONE)),
                 sem := Sem(NONE, 0, 0))
  }

  lemma XLeavesTwice(cfg: Config, R: States)
    requires Play(cfg, R)
    ensures R(St(LastLeave(cfg)))
  {
    XReenters(cfg, R);
    var c := Reentered(cfg);
    WithIs(c, c.x, c.sem);
    LeaveNested(cfg, R, St(c), c.x, c.sem);
    LeaveOnce(cfg, R, St(c), c.x.(depth := 1), Sem(1, 1, 2));
    Search(cfg, R, St(c), c.x.(pc := LeaveCeiling, depth := 0), Sem(1, 0, 2));
    WithIs(c, LastLeave(cfg).x, Sem(NONE, 0, 0));
  }

  function LeftSpoiled(cfg: Config): Cast {
    LastLeave(cfg).(cur := 2, x := Someone(1, false).(priority := 2, spoiled := true, frame := Frame(2, 2, 1, 2, 2)),
                    a := Blocked(cfg, 2).(asleep := false, waiting := false), sem := Sem(2, 0, 0), sa := 3, counter := 3)
  }

  lemma OnlyAIsFound(cfg: Config)
    requires cfg.ceiling > 3
    ensures StampedEnabled(cfg, St(LastLeave(cfg)), Find(2))
  {
    assert IsBestWaiter(View(St(LastLeave(cfg))), 0, 1, 2);
  }

  lemma XIsOut(cfg: Config, R: States)
    requires Play(cfg, R) && FullyClosed(cfg, R)
    ensures R(St(LeftSpoiled(cfg)))
  {
    XLeavesTwice(cfg, R);
    OnlyAIsFound(cfg);
    var c := LastLeave(cfg);
    var th := c.x.(pc := HandOver, frame := Frame(2, 2, 1, 2, 2));
    WithIs(c, th, c.sem);
    Step(cfg, R, St(c), Find(2), St(c.(x := th)));
    HandTo(cfg, R, St(c), th, c.sem, 2);
    var a' := Blocked(cfg, 2).(asleep := false, waiting := false);
    OtherIs(c, a');
    var c1 := c.(a := a');
    Restore(cfg, R, St(c1), th.(pc := LeaveRestore), Sem(2, 0, 0));
    var th1 := th.(pc := LeaveYield, priority := 2);
    WithIs(c1, th1, Sem(2, 0, 0));
    YieldTo(cfg, R, St(c1), th1, Sem(2, 0, 0), 2);
    WithIs(c1, th1.(pc := User), Sem(2, 0, 0));
    StampIs(c1.(x := th1.(pc := User), sem := Sem(2, 0, 0)));
  }

  /** Out of the semaphore, but not back at its priority: x entered with 1, was raised to 2, re-entered and left twice. */
  lemma ReentrySpoilsPriority(cfg: Config) returns (x: Stamped)
    requires cfg.ceiling > 3
    ensures Initial(cfg, St(Begin()).s) && Reached(cfg, x) && |x.s.threads| == 4
    ensures x.s.threads[1].pc.User? && !Inside(x.s, 1) && x.s.threads[1].spoiled
    ensures x.s.threads[1].priority == 2 && x.s.threads[1].base == 1
  {
    ReachedPlays(cfg);
    XIsOut(cfg, y => Reached(cfg, y));
    x := St(LeftSpoiled(cfg));
  }
}
