/** Runs of two threads on one semaphore that break mutual exclusion or strand a waiter. */
module SemaphoreTrio {
  import opened Semaphore

  ghost predicate Reaches(cfg: Config, s: State) {
    exists run :: Legal(cfg, Start(), run) && Run(cfg, Start(), run) == s
  }

  lemma {:induction false} RunSnoc(cfg: Config, s: State, run: seq<Choice>, c: Choice)
    requires Legal(cfg, s, run) && Enabled(cfg, Run(cfg, s, run), c)
    ensures Legal(cfg, s, run + [c]) && Run(cfg, s, run + [c]) == Next(cfg, Run(cfg, s, run), c)
    decreases |run|
  {
    if run == [] {
      assert run + [c] == [c];
      assert [c][1..] == [];
    } else {
      assert (run + [c])[1..] == run[1..] + [c];
      RunSnoc(cfg, Next(cfg, s, run[0]), run[1..], c);
    }
  }

  lemma Go(cfg: Config, s: State, c: Choice)
    requires Reaches(cfg, s) && Enabled(cfg, s, c)
    ensures Reaches(cfg, Next(cfg, s, c))
  {
    var run :| Legal(cfg, Start(), run) && Run(cfg, Start(), run) == s;
    RunSnoc(cfg, Start(), run, c);
  }

  /** A set of states, as a predicate; what holds of every set that contains the start and is closed under steps is reachable. */
  type Set = State -> bool

  ghost predicate Closed(cfg: Config, R: Set) {
    cfg.ceiling > 0 && R(Start()) && forall s, c | R(s) && Enabled(cfg, s, c) :: R(Next(cfg, s, c))
  }

  lemma ReachesIsClosed(cfg: Config)
    requires cfg.ceiling > 0
    ensures Closed(cfg, s => Reaches(cfg, s)) && Initial(cfg, Start())
  {
    var R: Set := s => Reaches(cfg, s);
    assert Legal(cfg, Start(), []) && Run(cfg, Start(), []) == Start();
    forall s, c | R(s) && Enabled(cfg, s, c)
      ensures R(Next(cfg, s, c))
    {
      Go(cfg, s, c);
    }
  }

  lemma Step(cfg: Config, R: Set, s: State, c: Choice, s': State)
    requires Closed(cfg, R) && R(s) && Enabled(cfg, s, c) && s' == Next(cfg, s, c)
    ensures R(s')
  {
  }

  function Ordinary(): Thread {
    Thread(User, 0, false, false, Frame(0, 0, 0, 0, NONE), 0, 0, false)
  }

  /** The idle thread and two more: thread id with record th runs, the other one is `other`. */
  function Trio(id: int, th: Thread, other: Thread, sem: Sem): State {
    State(id, if id == 1 then [Ordinary(), th, other] else [Ordinary(), other, th], sem)
  }

  function Start(): State {
    Trio(1, Ordinary(), Ordinary(), Sem(NONE, 0, 0))
  }

  predicate XOrW(id: int) {
    id == 1 || id == 2
  }

  /** One such statement. */
  lemma One(cfg: Config, R: Set, id: int, th: Thread, other: Thread, sem: Sem, th': Thread, sem': Sem)
    requires Closed(cfg, R) && XOrW(id) && R(Trio(id, th, other, sem)) && Plain(th.pc)
    requires th' == ExecThread(cfg, sem, id, th) && sem' == ExecSem(sem, id, th)
    ensures R(Trio(id, th', other, sem'))
  {
    var s := Trio(id, th, other, sem);
    assert ExecState(cfg, s).threads == Trio(id, th', other, sem').threads;
    Step(cfg, R, s, Exec, Trio(id, th', other, sem'));
  }

  /** A call of enter or leave. */
  lemma Call(cfg: Config, R: Set, id: int, th: Thread, other: Thread, sem: Sem, c: Choice)
    requires Closed(cfg, R) && XOrW(id) && R(Trio(id, th, other, sem)) && th.pc.User? && !th.asleep
    requires c.CallEnter? || c.CallLeave?
    ensures R(Trio(id, if c.CallEnter? then th.(pc := ReadPriority)
                       else th.(pc := LeaveTest, depth := if th.depth > 0 then th.depth - 1 else 0), other, sem))
  {
    var s := Trio(id, th, other, sem);
    var th' := Next(cfg, s, c).threads[id];
    assert Next(cfg, s, c).threads == Trio(id, th', other, sem).threads;
    Step(cfg, R, s, c, Trio(id, th', other, sem));
  }

  /** Only the two of them matter: t is the running thread or the other one, at no less than the other's priority. */
  predicate MayRun(th: Thread, other: Thread) {
    && !th.asleep && th.priority >= 0 && (other.asleep || other.priority <= th.priority)
  }

  /** The running thread, at a yield, gives way to the other one. */
  lemma YieldOver(cfg: Config, R: Set, id: int, th: Thread, other: Thread, sem: Sem)
    requires Closed(cfg, R) && XOrW(id) && R(Trio(id, th, other, sem)) && AtYield(th.pc) && MayRun(other, th)
    ensures R(Trio(3 - id, other, AfterYield(th), sem))
  {
    var s := Trio(id, th, other, sem);
    var t := 3 - id;
    assert s.threads[t] == other && s.threads[id] == th && s.threads[0] == Ordinary();
    assert Picks(s, t);
    assert Next(cfg, s, Yield(t)).threads == Trio(t, other, AfterYield(th), sem).threads;
    Step(cfg, R, s, Yield(t), Trio(t, other, AfterYield(th), sem));
  }

  /** A tick switches to the other one. */
  lemma SwitchOver(cfg: Config, R: Set, id: int, th: Thread, other: Thread, sem: Sem)
    requires Closed(cfg, R) && XOrW(id) && R(Trio(id, th, other, sem)) && MayRun(other, th)
    requires cfg.roundRobin || th.priority < cfg.ceiling
    ensures R(Trio(3 - id, other, th, sem))
  {
    var s := Trio(id, th, other, sem);
    var t := 3 - id;
    assert s.threads[t] == other && s.threads[id] == th && s.threads[0] == Ordinary();
    assert Picks(s, t);
    assert s.threads == Trio(t, other, th, sem).threads;
    Step(cfg, R, s, Switch(t), Trio(t, other, th, sem));
  }

  /** Somebody resumes the other one. */
  lemma ResumeOther(cfg: Config, R: Set, th: Thread, other: Thread, sem: Sem)
    requires Closed(cfg, R) && R(Trio(1, th, other, sem)) && cfg.spurious && !other.pc.FallAsleep?
    ensures R(Trio(1, th, Woken(other), sem))
  {
    var s := Trio(1, th, other, sem);
    assert s.threads[2 := Woken(other)] == Trio(1, th, Woken(other), sem).threads;
    Step(cfg, R, s, Resume(2), Trio(1, th, Woken(other), sem));
  }

  function AtPc(th: Thread, pc: Pc): Thread {
    th.(pc := pc)
  }

  /** Inside once, in its own code. */
  function InsideOnce(): Thread {
    Ordinary().(depth := 1)
  }

  /** From `owner = caller` to the yield. */
  lemma Taking(cfg: Config, R: Set, id: int, th: Thread, other: Thread, sem: Sem)
    requires Closed(cfg, R) && XOrW(id) && R(Trio(id, th, other, sem))
    requires th.pc.TakeOwner? && th.frame.callerPriority == th.frame.previous == 0
    ensures R(Trio(id, th.(pc := EnterYield, priority := 0), other, Sem(id, sem.count + 1, 0)))
  {
    One(cfg, R, id, th, other, sem, AtPc(th, StorePriority), sem.(owner := id));
    One(cfg, R, id, AtPc(th, StorePriority), other, sem.(owner := id), AtPc(th, CountUp), Sem(id, sem.count, 0));
    Counting(cfg, R, id, AtPc(th, CountUp), other, Sem(id, sem.count, 0));
  }

  lemma Counting(cfg: Config, R: Set, id: int, th: Thread, other: Thread, sem: Sem)
    requires Closed(cfg, R) && XOrW(id) && R(Trio(id, th, other, sem)) && th.pc.CountUp? && th.frame.previous == 0
    ensures R(Trio(id, th.(pc := EnterYield, priority := 0), other, sem.(count := sem.count + 1)))
  {
    var sem' := sem.(count := sem.count + 1);
    One(cfg, R, id, th, other, sem, AtPc(th, EnterRestore), sem');
    One(cfg, R, id, AtPc(th, EnterRestore), other, sem', th.(pc := EnterYield, priority := 0), sem');
  }

  /** From a thread's own code through the call of enter to the decision that follows the test of the owner. */
  lemma Deciding(cfg: Config, R: Set, id: int, th: Thread, other: Thread, sem: Sem)
    requires Closed(cfg, R) && XOrW(id) && R(Trio(id, th, other, sem))
    requires th.pc.User? && !th.asleep && th.priority == 0 && th.depth == 0
    ensures R(Trio(id, th.(pc := if sem.owner != NONE && sem.owner != id then Boost else TakeOwner,
                           priority := cfg.ceiling, base := 0, spoiled := false,
                           frame := th.frame.(callerPriority := 0, previous := 0)), other, sem))
  {
    Call(cfg, R, id, th, other, sem, CallEnter);
    var th1 := th.(pc := EnterCeiling, base := 0, spoiled := false, frame := th.frame.(callerPriority := 0));
    One(cfg, R, id, AtPc(th, ReadPriority), other, sem, th1, sem);
    var th2 := th1.(pc := TestOccupied, priority := cfg.ceiling, frame := th.frame.(callerPriority := 0, previous := 0));
    One(cfg, R, id, th1, other, sem, th2, sem);
    One(cfg, R, id, th2, other, sem, AtPc(th2, if sem.owner != NONE && sem.owner != id then Boost else TakeOwner), sem);
  }

  /** The owner x calls leave and is about to drop ownership. */
  lemma LeaveFirstHalf(cfg: Config, R: Set, x: Thread, w: Thread)
    requires Closed(cfg, R) && R(Trio(1, x, w, Sem(1, 1, 0)))
    requires x.pc.User? && !x.asleep && x.priority == 0 && x.depth == 1
    ensures R(Trio(1, x.(pc := DropOwner, priority := cfg.ceiling, depth := 0, frame := x.frame.(previous := 0)), w, Sem(1, 0, 0)))
  {
    Call(cfg, R, 1, x, w, Sem(1, 1, 0), CallLeave);
    var x0 := x.(pc := LeaveTest, depth := 0);
    One(cfg, R, 1, x0, w, Sem(1, 1, 0), AtPc(x0, CountDown), Sem(1, 1, 0));
    One(cfg, R, 1, AtPc(x0, CountDown), w, Sem(1, 1, 0), AtPc(x0, TestNested), Sem(1, 0, 0));
    Unnested(cfg, R, AtPc(x0, TestNested), w);
  }

  lemma Unnested(cfg: Config, R: Set, x: Thread, w: Thread)
    requires Closed(cfg, R) && R(Trio(1, x, w, Sem(1, 0, 0))) && x.pc.TestNested? && x.priority == 0
    ensures R(Trio(1, x.(pc := DropOwner, priority := cfg.ceiling, frame := x.frame.(previous := 0)), w, Sem(1, 0, 0)))
  {
    var sem := Sem(1, 0, 0);
    One(cfg, R, 1, x, w, sem, AtPc(x, LeaveCeiling), sem);
    One(cfg, R, 1, AtPc(x, LeaveCeiling), w, sem,
        x.(pc := DropOwner, priority := cfg.ceiling, frame := x.frame.(previous := 0)), sem);
  }

  /** ... drops it and looks for a waiter. */
  lemma Dropping(cfg: Config, R: Set, x: Thread, w: Thread)
    requires Closed(cfg, R) && R(Trio(1, x, w, Sem(1, 0, 0))) && x.pc.DropOwner?
    ensures R(Trio(1, x.(pc := FindWaiter, frame := x.frame.(restoring := 0)), w, Sem(NONE, 0, 0)))
  {
    var sem := Sem(NONE, 0, 0);
    One(cfg, R, 1, x, w, Sem(1, 0, 0), AtPc(x, SavePriority), sem);
    var x1 := x.(pc := ClearPriority, frame := x.frame.(restoring := 0));
    One(cfg, R, 1, AtPc(x, SavePriority), w, sem, x1, sem);
    One(cfg, R, 1, x1, w, sem, AtPc(x1, FindWaiter), sem);
  }

  /** ... finds nobody waiting and returns. */
  lemma Returning(cfg: Config, R: Set, x: Thread, w: Thread)
    requires Closed(cfg, R) && R(Trio(1, x, w, Sem(NONE, 0, 0)))
    requires x.pc.FindWaiter? && x.frame.restoring == x.frame.previous == 0 && !x.waiting && !w.waiting
    ensures R(Trio(1, x.(pc := User, priority := 0, frame := x.frame.(waiter := NONE)), w, Sem(NONE, 0, 0)))
  {
    var sem := Sem(NONE, 0, 0);
    var s := Trio(1, x, w, sem);
    var x1 := x.(pc := LeaveRestore, frame := x.frame.(waiter := NONE));
    assert Next(cfg, s, Find(NONE)).threads == Trio(1, x1, w, sem).threads;
    Step(cfg, R, s, Find(NONE), Trio(1, x1, w, sem));
    LastLines(cfg, R, x1, w);
  }

  lemma LastLines(cfg: Config, R: Set, x: Thread, w: Thread)
    requires Closed(cfg, R) && R(Trio(1, x, w, Sem(NONE, 0, 0)))
    requires x.pc.LeaveRestore? && x.frame.restoring == x.frame.previous == 0 && x.frame.waiter == NONE
    ensures R(Trio(1, x.(pc := User, priority := 0), w, Sem(NONE, 0, 0)))
  {
    var sem := Sem(NONE, 0, 0);
    var x1 := x.(pc := SetPriority, priority := 0);
    One(cfg, R, 1, x, w, sem, x1, sem);
    One(cfg, R, 1, x1, w, sem, AtPc(x1, TestYield), sem);
    One(cfg, R, 1, AtPc(x1, TestYield), w, sem, AtPc(x1, User), sem);
  }

  lemma LeaveSecondHalf(cfg: Config, R: Set, x: Thread, w: Thread)
    requires Closed(cfg, R) && R(Trio(1, x, w, Sem(1, 0, 0)))
    requires x.pc.DropOwner? && x.depth == 0 && x.frame.previous == 0 && !x.waiting && !w.waiting
    ensures R(Trio(1, x.(pc := User, priority := 0, frame := x.frame.(restoring := 0, waiter := NONE)), w, Sem(NONE, 0, 0)))
  {
    Dropping(cfg, R, x, w);
    Returning(cfg, R, x.(pc := FindWaiter, frame := x.frame.(restoring := 0)), w);
  }

  /** x enters, and w runs next. */
  lemma EnterX(cfg: Config, R: Set)
    requires Closed(cfg, R)
    ensures R(Trio(2, Ordinary(), InsideOnce(), Sem(1, 1, 0)))
  {
    var o := Ordinary();
    Deciding(cfg, R, 1, o, o, Sem(NONE, 0, 0));
    Taking(cfg, R, 1, AtPc(o, TakeOwner).(priority := cfg.ceiling), o, Sem(NONE, 0, 0));
    YieldOver(cfg, R, 1, AtPc(o, EnterYield), o, Sem(1, 1, 0));
  }

  /** w at a point of its wait, at the ceiling. */
  function Waiter(cfg: Config, pc: Pc, asleep: bool, waiting: bool): Thread {
    Thread(pc, cfg.ceiling, asleep, waiting, Frame(0, 0, cfg.ceiling, 0, NONE), 0, 0, false)
  }

  /** w finds the semaphore occupied; x's priority is no lower, so nothing is raised. */
  lemma ContendW(cfg: Config, R: Set)
    requires Closed(cfg, R)
    ensures R(Trio(2, AtPc(Ordinary(), LoopTest).(priority := cfg.ceiling), InsideOnce(), Sem(1, 1, 0)))
  {
    EnterX(cfg, R);
    var x, o, sem := InsideOnce(), Ordinary(), Sem(1, 1, 0);
    Deciding(cfg, R, 2, o, x, sem);
    var w := AtPc(o, Boost).(priority := cfg.ceiling);
    var s := Trio(2, w, x, sem);
    assert ExecState(cfg, s).threads == Trio(2, AtPc(w, LoopTest), x, sem).threads;
    Step(cfg, R, s, Exec, Trio(2, AtPc(w, LoopTest), x, sem));
  }

  /** ... and is about to fall asleep. */
  lemma BlockW(cfg: Config, R: Set)
    requires Closed(cfg, R)
    ensures R(Trio(2, Waiter(cfg, FallAsleep, false, true), InsideOnce(), Sem(1, 1, 0)))
  {
    ContendW(cfg, R);
    var x, sem := InsideOnce(), Sem(1, 1, 0);
    var w := AtPc(Ordinary(), LoopTest).(priority := cfg.ceiling);
    One(cfg, R, 2, w, x, sem, AtPc(w, SuspendCeiling), sem);
    One(cfg, R, 2, AtPc(w, SuspendCeiling), x, sem, Waiter(cfg, SetWaiting, false, false), sem);
    One(cfg, R, 2, Waiter(cfg, SetWaiting, false, false), x, sem, Waiter(cfg, FallAsleep, false, true), sem);
  }

  /** From falling asleep to the switch to x. */
  lemma SleepW(cfg: Config, R: Set, waiting: bool)
    requires Closed(cfg, R) && R(Trio(2, Waiter(cfg, FallAsleep, false, waiting), InsideOnce(), Sem(1, 1, 0)))
    ensures R(Trio(1, InsideOnce(), Waiter(cfg, ClearWaiting, true, waiting), Sem(1, 1, 0)))
  {
    var x, sem := InsideOnce(), Sem(1, 1, 0);
    One(cfg, R, 2, Waiter(cfg, FallAsleep, false, waiting), x, sem, Waiter(cfg, SuspendRestore, true, waiting), sem);
    One(cfg, R, 2, Waiter(cfg, SuspendRestore, true, waiting), x, sem, Waiter(cfg, SuspendYield, true, waiting), sem);
    YieldOver(cfg, R, 2, Waiter(cfg, SuspendYield, true, waiting), x, sem);
  }

  /** x is inside, w waits and has been resumed by somebody else, x runs. */
  lemma SpuriouslyResumed(cfg: Config, R: Set)
    requires Closed(cfg, R) && cfg.spurious
    ensures R(Trio(1, InsideOnce(), Waiter(cfg, ClearWaiting, false, false), Sem(1, 1, 0)))
  {
    BlockW(cfg, R);
    SleepW(cfg, R, true);
    ResumeOther(cfg, R, InsideOnce(), Waiter(cfg, ClearWaiting, true, true), Sem(1, 1, 0));
  }

  /** The woken w looks at the owner again. */
  lemma Rechecking(cfg: Config, R: Set, x: Thread, sem: Sem)
    requires Closed(cfg, R) && R(Trio(2, Waiter(cfg, ClearWaiting, false, false), x, sem))
    ensures R(Trio(2, Waiter(cfg, if sem.owner != NONE && sem.owner != 2 then SuspendCeiling else ResetCount, false, false), x, sem))
  {
    One(cfg, R, 2, Waiter(cfg, ClearWaiting, false, false), x, sem, Waiter(cfg, LoopTest, false, false), sem);
    One(cfg, R, 2, Waiter(cfg, LoopTest, false, false), x, sem,
        Waiter(cfg, if sem.owner != NONE && sem.owner != 2 then SuspendCeiling else ResetCount, false, false), sem);
  }

  /** The woken w finds the semaphore free, takes it, and x runs again. */
  lemma TakeW(cfg: Config, R: Set, x: Thread)
    requires Closed(cfg, R) && !x.asleep && x.priority == cfg.ceiling
    requires R(Trio(2, Waiter(cfg, ClearWaiting, false, false), x, Sem(NONE, 0, 0)))
    ensures R(Trio(1, x, Waiter(cfg, User, false, false).(priority := 0, depth := 1), Sem(2, 1, 0)))
  {
    var sem := Sem(NONE, 0, 0);
    Rechecking(cfg, R, x, sem);
    One(cfg, R, 2, Waiter(cfg, ResetCount, false, false), x, sem, Waiter(cfg, TakeOwner, false, false), sem);
    Taking(cfg, R, 2, Waiter(cfg, TakeOwner, false, false), x, sem);
    YieldOver(cfg, R, 2, Waiter(cfg, EnterYield, false, false).(priority := 0), x, Sem(2, 1, 0));
  }

  /** x goes on as if the semaphore were still free. */
  lemma OvertakeX(cfg: Config, R: Set, x: Thread, w: Thread)
    requires Closed(cfg, R) && R(Trio(1, x, w, Sem(2, 1, 0)))
    requires x.pc.TakeOwner? && !x.asleep && x.frame.callerPriority == x.frame.previous == 0 && x.depth == 0
    requires w.pc.User? && !w.asleep && w.priority == 0
    ensures R(Trio(2, w, x.(pc := User, priority := 0, depth := 1), Sem(1, 2, 0)))
  {
    Taking(cfg, R, 1, x, w, Sem(2, 1, 0));
    YieldOver(cfg, R, 1, x.(pc := EnterYield, priority := 0), w, Sem(1, 2, 0));
  }

  /** x leaves, and enters again as far as its decision to take the semaphore, with the resumed w ready. */
  lemma ReadyToOvertake(cfg: Config, R: Set)
    requires Closed(cfg, R) && cfg.spurious
    ensures R(Trio(1, Ordinary().(pc := TakeOwner, priority := cfg.ceiling), Waiter(cfg, ClearWaiting, false, false), Sem(NONE, 0, 0)))
  {
    var w := Waiter(cfg, ClearWaiting, false, false);
    SpuriouslyResumed(cfg, R);
    LeaveFirstHalf(cfg, R, InsideOnce(), w);
    LeaveSecondHalf(cfg, R, Ordinary().(pc := DropOwner, priority := cfg.ceiling), w);
    Deciding(cfg, R, 1, Ordinary(), w, Sem(NONE, 0, 0));
  }

  /**
    x leaves and enters again; a tick between its test of the owner and `owner = caller` runs the
    resumed waiter, which also finds the semaphore free.  Both end up inside.
  */
  lemma TwoInside(cfg: Config) returns (s: State)
    requires cfg.ceiling > 0 && cfg.roundRobin && cfg.spurious
    ensures Reaches(cfg, s) && Initial(cfg, Start())
    ensures |s.threads| == 3 && s.threads[1].depth > 0 && s.threads[2].depth > 0
  {
    ReachesIsClosed(cfg);
    var R: Set := t => Reaches(cfg, t);
    ReadyToOvertake(cfg, R);
    var x := Ordinary().(pc := TakeOwner, priority := cfg.ceiling);
    SwitchOver(cfg, R, 1, x, Waiter(cfg, ClearWaiting, false, false), Sem(NONE, 0, 0));
    TakeW(cfg, R, x);
    var w := Waiter(cfg, User, false, false).(priority := 0, depth := 1);
    OvertakeX(cfg, R, x, w);
    s := Trio(2, w, InsideOnce(), Sem(1, 2, 0));
  }

  /** A resume between the two stores of suspendCallerUntil: w falls asleep and nobody knows. */
  lemma StrandedByLateResume(cfg: Config) returns (s: State)
    requires cfg.ceiling > 0 && cfg.spurious && cfg.atSleep
    ensures Reaches(cfg, s) && Initial(cfg, Start())
    ensures |s.threads| == 3 && Free(s) && s.threads[2].asleep && Parked(s.threads[2].pc)
  {
    ReachesIsClosed(cfg);
    var R: Set := t => Reaches(cfg, t);
    BlockW(cfg, R);
    var t, t' := Trio(2, Waiter(cfg, FallAsleep, false, true), InsideOnce(), Sem(1, 1, 0)),
                 Trio(2, Waiter(cfg, FallAsleep, false, false), InsideOnce(), Sem(1, 1, 0));
    assert t.threads[2 := Woken(t.threads[2])] == t'.threads;
    Step(cfg, R, t, Resume(2), t');
    SleepW(cfg, R, false);
    var w := Waiter(cfg, ClearWaiting, true, false);
    LeaveFirstHalf(cfg, R, InsideOnce(), w);
    LeaveSecondHalf(cfg, R, Ordinary().(pc := DropOwner, priority := cfg.ceiling), w);
    s := Trio(1, Ordinary(), w, Sem(NONE, 0, 0));
  }

  /** w, past the test of the owner, falls asleep although x has left meanwhile. */
  lemma SleepOnFree(cfg: Config, R: Set)
    requires Closed(cfg, R) && R(Trio(1, Ordinary(), Waiter(cfg, SuspendCeiling, false, false), Sem(NONE, 0, 0)))
    ensures R(Trio(2, Waiter(cfg, SuspendRestore, true, true), Ordinary(), Sem(NONE, 0, 0)))
  {
    var x, sem := Ordinary(), Sem(NONE, 0, 0);
    SwitchOver(cfg, R, 1, x, Waiter(cfg, SuspendCeiling, false, false), sem);
    One(cfg, R, 2, Waiter(cfg, SuspendCeiling, false, false), x, sem, Waiter(cfg, SetWaiting, false, false), sem);
    One(cfg, R, 2, Waiter(cfg, SetWaiting, false, false), x, sem, Waiter(cfg, FallAsleep, false, true), sem);
    One(cfg, R, 2, Waiter(cfg, FallAsleep, false, true), x, sem, Waiter(cfg, SuspendRestore, true, true), sem);
  }

  /** w looks at the owner just before leave drops it, and falls asleep just after leave has looked for waiters. */
  lemma StrandedByPreemption(cfg: Config) returns (s: State)
    requires cfg.ceiling > 0 && cfg.spurious && cfg.roundRobin
    ensures Reaches(cfg, s) && Initial(cfg, Start())
    ensures |s.threads| == 3 && Free(s) && s.threads[2].asleep && Parked(s.threads[2].pc)
  {
    ReachesIsClosed(cfg);
    var R: Set := t => Reaches(cfg, t);
    var w := Waiter(cfg, ClearWaiting, false, false);
    SpuriouslyResumed(cfg, R);
    LeaveFirstHalf(cfg, R, InsideOnce(), w);
    var x := Ordinary().(pc := DropOwner, priority := cfg.ceiling);
    SwitchOver(cfg, R, 1, x, w, Sem(1, 0, 0));
    Rechecking(cfg, R, x, Sem(1, 0, 0));
    var w2 := Waiter(cfg, SuspendCeiling, false, false);
    SwitchOver(cfg, R, 2, w2, x, Sem(1, 0, 0));
    LeaveSecondHalf(cfg, R, x, w2);
    SleepOnFree(cfg, R);
    s := Trio(2, Waiter(cfg, SuspendRestore, true, true), Ordinary(), Sem(NONE, 0, 0));
  }
}
