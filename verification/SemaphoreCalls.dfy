/** Whole calls of enter and leave that nobody interrupts, and what they achieve. */
module SemaphoreCalls {
  import opened Semaphore

  /** These choices are legal and lead from s to t. */
  ghost predicate Leads(cfg: Config, s: State, cs: seq<Choice>, t: State) {
    Legal(cfg, s, cs) && Run(cfg, s, cs) == t
  }

  lemma OneStep(cfg: Config, s: State, c: Choice, t: State)
    requires Enabled(cfg, s, c) && Next(cfg, s, c) == t
    ensures Leads(cfg, s, [c], t)
  {
    assert [c][1..] == [];
  }

  lemma {:induction false} RunConcat(cfg: Config, s: State, first: seq<Choice>, second: seq<Choice>)
    requires Legal(cfg, s, first) && Legal(cfg, Run(cfg, s, first), second)
    ensures Legal(cfg, s, first + second) && Run(cfg, s, first + second) == Run(cfg, Run(cfg, s, first), second)
    decreases |first|
  {
    if first == [] {
      assert first + second == second;
    } else {
      assert (first + second)[1..] == first[1..] + second;
      RunConcat(cfg, Next(cfg, s, first[0]), first[1..], second);
    }
  }

  lemma Then(cfg: Config, s: State, first: seq<Choice>, second: seq<Choice>, t: State, u: State)
    requires Leads(cfg, s, first, t) && Leads(cfg, t, second, u)
    ensures Leads(cfg, s, first + second, u)
  {
    RunConcat(cfg, s, first, second);
  }

  /** The next n statements of the running thread. */
  function Execs(n: nat): seq<Choice> {
    seq(n, _ => Exec)
  }

  /** One statement more. */
  lemma AndThen(cfg: Config, s: State, n: nat, t: State, u: State)
    requires Leads(cfg, s, Execs(n), t) && Leads(cfg, t, [Exec], u)
    ensures Leads(cfg, s, Execs(n + 1), u)
  {
    Then(cfg, s, Execs(n), [Exec], t, u);
    assert Execs(n + 1) == Execs(n) + [Exec];
  }

  lemma Join(cfg: Config, s: State, n: nat, m: nat, t: State, u: State)
    requires Leads(cfg, s, Execs(n), t) && Leads(cfg, t, Execs(m), u)
    ensures Leads(cfg, s, Execs(n + m), u)
  {
    Then(cfg, s, Execs(n), Execs(m), t, u);
    assert Execs(n + m) == Execs(n) + Execs(m);
  }

  lemma FirstOne(cfg: Config, s: State, u: State)
    requires Leads(cfg, s, [Exec], u)
    ensures Leads(cfg, s, Execs(1), u)
  {
    assert Execs(1) == [Exec];
  }

  /** s with the running thread's record and the semaphore replaced. */
  function With(s: State, th: Thread, sem: Sem): State
    requires InRange(s, s.current)
  {
    State(s.current, s.threads[s.current := th], sem)
  }

  /** One statement that touches only the running thread and the semaphore. */
  lemma Statement(cfg: Config, s: State, th: Thread, sem: Sem, th': Thread, sem': Sem)
    requires InRange(s, s.current) && Plain(th.pc)
    requires th' == ExecThread(cfg, sem, s.current, th) && sem' == ExecSem(sem, s.current, th)
    ensures Leads(cfg, With(s, th, sem), [Exec], With(s, th', sem'))
  {
    assert ExecState(cfg, With(s, th, sem)).threads == With(s, th', sem').threads;
    OneStep(cfg, With(s, th, sem), Exec, With(s, th', sem'));
  }

  lemma Two(cfg: Config, s: State, th: Thread, sem: Sem, th1: Thread, sem1: Sem, th2: Thread, sem2: Sem)
    requires InRange(s, s.current) && Plain(th.pc) && Plain(th1.pc)
    requires th1 == ExecThread(cfg, sem, s.current, th) && sem1 == ExecSem(sem, s.current, th)
    requires th2 == ExecThread(cfg, sem1, s.current, th1) && sem2 == ExecSem(sem1, s.current, th1)
    ensures Leads(cfg, With(s, th, sem), Execs(2), With(s, th2, sem2))
  {
    Statement(cfg, s, th, sem, th1, sem1);
    Statement(cfg, s, th1, sem1, th2, sem2);
    FirstOne(cfg, With(s, th, sem), With(s, th1, sem1));
    AndThen(cfg, With(s, th, sem), 1, With(s, th1, sem1), With(s, th2, sem2));
  }

  // ------------------------------------------------------------------ enter

  /** A thread in its own code that may call enter or leave. */
  predicate MayCall(s: State) {
    InRange(s, s.current) && s.current != 0 && s.threads[s.current].pc.User? && !s.threads[s.current].asleep
  }

  /** The running thread in enter's ceiling scope, with its priority remembered. */
  function Entering(cfg: Config, th: Thread, pc: Pc): Thread {
    th.(pc := pc, priority := cfg.ceiling, frame := th.frame.(callerPriority := th.priority, previous := th.priority),
        base := if th.depth == 0 then th.priority else th.base,
        spoiled := th.depth != 0 && th.priority != th.base)
  }

  /** From the call to the test for another owner. */
  lemma EntersCeiling(cfg: Config, s: State)
    requires MayCall(s)
    ensures var th := s.threads[s.current];
            Leads(cfg, s, [CallEnter] + Execs(2), With(s, Entering(cfg, th, TestOccupied), s.sem))
  {
    var th := s.threads[s.current];
    var th0 := th.(pc := ReadPriority);
    OneStep(cfg, s, CallEnter, With(s, th0, s.sem));
    var th1 := Entering(cfg, th, EnterCeiling).(priority := th.priority, frame := th.frame.(callerPriority := th.priority));
    var th2 := Entering(cfg, th, TestOccupied);
    Two(cfg, s, th0, s.sem, th1, s.sem, th2, s.sem);
    Then(cfg, s, [CallEnter], Execs(2), With(s, th0, s.sem), With(s, th2, s.sem));
  }

  /** `owner = caller` and the priority stored. */
  lemma StoresOwner(cfg: Config, s: State, th: Thread)
    requires InRange(s, s.current) && th.pc.TakeOwner?
    ensures Leads(cfg, With(s, th, s.sem), Execs(2),
                  With(s, th.(pc := CountUp), Sem(s.current, s.sem.count, th.frame.callerPriority)))
  {
    Two(cfg, s, th, s.sem, th.(pc := StorePriority), s.sem.(owner := s.current),
        th.(pc := CountUp), Sem(s.current, s.sem.count, th.frame.callerPriority));
  }

  /** The count and the end of the scope. */
  lemma CountsUp(cfg: Config, s: State, th: Thread, sem: Sem)
    requires InRange(s, s.current) && th.pc.CountUp?
    ensures Leads(cfg, With(s, th, sem), Execs(2),
                  With(s, th.(pc := EnterYield, priority := th.frame.previous), sem.(count := sem.count + 1)))
  {
    Two(cfg, s, th, sem, th.(pc := EnterRestore), sem.(count := sem.count + 1),
        th.(pc := EnterYield, priority := th.frame.previous), sem.(count := sem.count + 1));
  }

  /** From `owner = caller` to the yield. */
  lemma TakesIt(cfg: Config, s: State, th: Thread)
    requires InRange(s, s.current) && th.pc.TakeOwner?
    ensures Leads(cfg, With(s, th, s.sem), Execs(4),
                  With(s, th.(pc := EnterYield, priority := th.frame.previous),
                       Sem(s.current, s.sem.count + 1, th.frame.callerPriority)))
  {
    var th2, sem2 := th.(pc := CountUp), Sem(s.current, s.sem.count, th.frame.callerPriority);
    StoresOwner(cfg, s, th);
    CountsUp(cfg, s, th2, sem2);
    Join(cfg, With(s, th, s.sem), 2, 2, With(s, th2, sem2),
         With(s, th.(pc := EnterYield, priority := th.frame.previous), Sem(s.current, s.sem.count + 1, th.frame.callerPriority)));
  }

  /** The test for another owner. */
  lemma TestsOwner(cfg: Config, s: State, th: Thread)
    requires InRange(s, s.current) && th.pc.TestOccupied?
    ensures Leads(cfg, With(s, th, s.sem), Execs(1),
                  With(s, th.(pc := if s.sem.owner != NONE && s.sem.owner != s.current then Boost else TakeOwner), s.sem))
  {
    var th' := th.(pc := if s.sem.owner != NONE && s.sem.owner != s.current then Boost else TakeOwner);
    Statement(cfg, s, th, s.sem, th', s.sem);
    FirstOne(cfg, With(s, th, s.sem), With(s, th', s.sem));
  }

  /** From the test of a semaphore that is free, or the caller's own, to the yield. */
  lemma TestsAndTakes(cfg: Config, s: State, th: Thread)
    requires InRange(s, s.current) && th.pc.TestOccupied? && (s.sem.owner == NONE || s.sem.owner == s.current)
    ensures Leads(cfg, With(s, th, s.sem), Execs(5),
                  With(s, th.(pc := EnterYield, priority := th.frame.previous),
                       Sem(s.current, s.sem.count + 1, th.frame.callerPriority)))
  {
    TestsOwner(cfg, s, th);
    TakesIt(cfg, s, th.(pc := TakeOwner));
    Join(cfg, With(s, th, s.sem), 1, 4, With(s, th.(pc := TakeOwner), s.sem),
         With(s, th.(pc := EnterYield, priority := th.frame.previous),
              Sem(s.current, s.sem.count + 1, th.frame.callerPriority)));
  }

  lemma Spliced(n: nat)
    ensures [CallEnter] + Execs(2) + Execs(n) == [CallEnter] + Execs(n + 2)
  {
  }

  /**
    An enter of a semaphore that is free, or the caller's own, takes it: the caller owns it, it is counted
    once more, the caller's priority is remembered and is its own again at the yield that ends the call.
  */
  lemma UninterruptedEnter(cfg: Config, s: State) returns (t: State)
    requires MayCall(s) && (s.sem.owner == NONE || s.sem.owner == s.current)
    ensures Leads(cfg, s, [CallEnter] + Execs(7), t) && t.current == s.current && |t.threads| == |s.threads|
    ensures t.sem == Sem(s.current, s.sem.count + 1, s.threads[s.current].priority)
    ensures t.threads[t.current].pc.EnterYield? && t.threads[t.current].priority == s.threads[s.current].priority
    ensures !t.threads[t.current].asleep && t.threads[t.current].waiting == s.threads[s.current].waiting
    ensures forall u | 0 <= u < |s.threads| && u != s.current :: t.threads[u] == s.threads[u]
  {
    var th := s.threads[s.current];
    var atTest := Entering(cfg, th, TestOccupied);
    EntersCeiling(cfg, s);
    TestsAndTakes(cfg, s, atTest);
    t := With(s, atTest.(pc := EnterYield, priority := th.priority), Sem(s.current, s.sem.count + 1, th.priority));
    Then(cfg, s, [CallEnter] + Execs(2), Execs(5), With(s, atTest, s.sem), t);
    Spliced(5);
  }

  /** The contender raises the owner to its own priority, if that is higher. */
  function Boosted(s: State, p: int): State {
    if InRange(s, s.sem.owner) && p > s.threads[s.sem.owner].priority then
      s.(threads := s.threads[s.sem.owner := s.threads[s.sem.owner].(priority := p)])
    else s
  }

  lemma Boosts(cfg: Config, s: State, th: Thread)
    requires InRange(s, s.current) && th.pc.Boost? && InRange(s, s.sem.owner) && s.sem.owner != s.current
    ensures var b := Boosted(s, th.frame.callerPriority);
            Leads(cfg, With(s, th, s.sem), [Exec], With(b, th.(pc := LoopTest), s.sem))
  {
    var b := Boosted(s, th.frame.callerPriority);
    assert ExecState(cfg, With(s, th, s.sem)).threads == With(b, th.(pc := LoopTest), s.sem).threads;
    OneStep(cfg, With(s, th, s.sem), Exec, With(b, th.(pc := LoopTest), s.sem));
  }

  /** A thread that sleeps in the loop. */
  function Asleep(cfg: Config, th: Thread): Thread {
    th.(pc := SuspendYield, waiting := true, asleep := true, frame := th.frame.(suspendPrevious := cfg.ceiling))
  }

  /** From the loop's test to the store that names the signaler. */
  lemma MarksWaiting(cfg: Config, s: State, th: Thread)
    requires InRange(s, s.current) && th.pc.LoopTest? && th.priority == cfg.ceiling
    requires s.sem.owner != NONE && s.sem.owner != s.current
    ensures Leads(cfg, With(s, th, s.sem), Execs(3),
                  With(s, th.(pc := FallAsleep, waiting := true, frame := th.frame.(suspendPrevious := cfg.ceiling)), s.sem))
  {
    var th1 := th.(pc := SuspendCeiling);
    var th2 := th.(pc := SetWaiting, frame := th.frame.(suspendPrevious := cfg.ceiling));
    Two(cfg, s, th, s.sem, th1, s.sem, th2, s.sem);
    Statement(cfg, s, th2, s.sem, th2.(pc := FallAsleep, waiting := true), s.sem);
    AndThen(cfg, With(s, th, s.sem), 2, With(s, th2, s.sem), With(s, th2.(pc := FallAsleep, waiting := true), s.sem));
  }

  /** From the loop's test to the yield of suspendCallerUntil. */
  lemma FallsAsleep(cfg: Config, s: State, th: Thread)
    requires InRange(s, s.current) && th.pc.LoopTest? && th.priority == cfg.ceiling
    requires s.sem.owner != NONE && s.sem.owner != s.current
    ensures Leads(cfg, With(s, th, s.sem), Execs(5),
                  With(s, Asleep(cfg, th), s.sem))
  {
    var th3 := th.(pc := FallAsleep, waiting := true, frame := th.frame.(suspendPrevious := cfg.ceiling));
    MarksWaiting(cfg, s, th);
    Sleeps(cfg, s, th3);
    Join(cfg, With(s, th, s.sem), 3, 2, With(s, th3, s.sem), With(s, th3.(pc := SuspendYield, asleep := true), s.sem));
  }

  lemma Sleeps(cfg: Config, s: State, th: Thread)
    requires InRange(s, s.current) && th.pc.FallAsleep? && th.priority == th.frame.suspendPrevious
    ensures Leads(cfg, With(s, th, s.sem), Execs(2), With(s, th.(pc := SuspendYield, asleep := true), s.sem))
  {
    Two(cfg, s, th, s.sem, th.(pc := SuspendRestore, asleep := true), s.sem, th.(pc := SuspendYield, asleep := true), s.sem);
  }

  lemma BoostsAndSleeps(cfg: Config, s: State, th: Thread)
    requires InRange(s, s.current) && th.pc.Boost? && th.priority == cfg.ceiling
    requires InRange(s, s.sem.owner) && s.sem.owner != s.current
    ensures Leads(cfg, With(s, th, s.sem), Execs(6), With(Boosted(s, th.frame.callerPriority), Asleep(cfg, th), s.sem))
  {
    var b, looping := Boosted(s, th.frame.callerPriority), th.(pc := LoopTest);
    Boosts(cfg, s, th);
    FirstOne(cfg, With(s, th, s.sem), With(b, looping, s.sem));
    FallsAsleep(cfg, b, looping);
    Join(cfg, With(s, th, s.sem), 1, 5, With(b, looping, s.sem), With(b, Asleep(cfg, looping), s.sem));
  }

  /** From the call to the yield of a contender. */
  lemma CallerSleeps(cfg: Config, s: State)
    requires MayCall(s) && InRange(s, s.sem.owner) && s.sem.owner != s.current
    ensures var th := s.threads[s.current];
            Leads(cfg, s, [CallEnter] + Execs(9),
                  With(Boosted(s, th.priority), Asleep(cfg, Entering(cfg, th, Boost)), s.sem))
  {
    var th := s.threads[s.current];
    var atTest, boosting := Entering(cfg, th, TestOccupied), Entering(cfg, th, Boost);
    var t := With(Boosted(s, th.priority), Asleep(cfg, boosting), s.sem);
    EntersCeiling(cfg, s);
    TestsOwner(cfg, s, atTest);
    BoostsAndSleeps(cfg, s, boosting);
    Join(cfg, With(s, atTest, s.sem), 1, 6, With(s, boosting, s.sem), t);
    Then(cfg, s, [CallEnter] + Execs(2), Execs(7), With(s, atTest, s.sem), t);
    Spliced(7);
  }

  /**
    An enter of a semaphore that another thread owns raises the owner to the caller's priority if that is
    higher, leaves the semaphore alone and puts the caller to sleep, waiting for it, at the ceiling.
  */
  lemma UninterruptedContention(cfg: Config, s: State) returns (t: State)
    requires MayCall(s) && InRange(s, s.sem.owner) && s.sem.owner != s.current
    ensures Leads(cfg, s, [CallEnter] + Execs(9), t) && t.current == s.current && |t.threads| == |s.threads|
    ensures t.sem == s.sem
    ensures var me, owner := t.threads[t.current], s.threads[s.sem.owner];
            && me.pc.SuspendYield? && me.asleep && me.waiting && me.priority == cfg.ceiling
            && t.threads[s.sem.owner] == owner.(priority := if s.threads[s.current].priority > owner.priority
                                                            then s.threads[s.current].priority else owner.priority)
    ensures forall u | 0 <= u < |s.threads| && u != s.current && u != s.sem.owner :: t.threads[u] == s.threads[u]
  {
    var th := s.threads[s.current];
    CallerSleeps(cfg, s);
    t := With(Boosted(s, th.priority), Asleep(cfg, Entering(cfg, th, Boost)), s.sem);
  }

  /** From behind the yield of suspendCallerUntil to the loop's test. */
  lemma LooksAgain(cfg: Config, s: State, th: Thread)
    requires InRange(s, s.current) && th.pc.ClearWaiting?
    ensures Leads(cfg, With(s, th, s.sem), Execs(1), With(s, th.(pc := LoopTest, waiting := false), s.sem))
  {
    Statement(cfg, s, th, s.sem, th.(pc := LoopTest, waiting := false), s.sem);
    FirstOne(cfg, With(s, th, s.sem), With(s, th.(pc := LoopTest, waiting := false), s.sem));
  }

  lemma EndsLoop(cfg: Config, s: State, th: Thread)
    requires InRange(s, s.current) && th.pc.LoopTest? && (s.sem.owner == NONE || s.sem.owner == s.current)
    ensures Leads(cfg, With(s, th, s.sem), Execs(2), With(s, th.(pc := TakeOwner), s.sem.(count := 0)))
  {
    Two(cfg, s, th, s.sem, th.(pc := ResetCount), s.sem, th.(pc := TakeOwner), s.sem.(count := 0));
  }

  lemma TakesAfterLoop(cfg: Config, s: State, th: Thread) returns (t: State)
    requires InRange(s, s.current) && th.pc.TakeOwner?
    ensures t == With(s, th.(pc := EnterYield, priority := th.frame.previous), Sem(s.current, 1, th.frame.callerPriority))
    ensures Leads(cfg, With(s, th, s.sem.(count := 0)), Execs(4), t)
  {
    var z := s.(sem := s.sem.(count := 0));
    TakesIt(cfg, z, th);
    t := With(s, th.(pc := EnterYield, priority := th.frame.previous), Sem(s.current, 1, th.frame.callerPriority));
  }

  lemma EndsLoopAndTakes(cfg: Config, s: State, th: Thread) returns (t: State)
    requires InRange(s, s.current) && th.pc.LoopTest? && (s.sem.owner == NONE || s.sem.owner == s.current)
    ensures t == With(s, th.(pc := EnterYield, priority := th.frame.previous), Sem(s.current, 1, th.frame.callerPriority))
    ensures Leads(cfg, With(s, th, s.sem), Execs(6), t)
  {
    EndsLoop(cfg, s, th);
    t := TakesAfterLoop(cfg, s, th.(pc := TakeOwner));
    Join(cfg, With(s, th, s.sem), 2, 4, With(s, th.(pc := TakeOwner), s.sem.(count := 0)), t);
  }

  /** A waiter that wakes and finds the semaphore its own, or free, enters it, counted once whatever the count was. */
  lemma UninterruptedWakeUp(cfg: Config, s: State) returns (t: State)
    requires InRange(s, s.current) && s.threads[s.current].pc.ClearWaiting?
    requires s.sem.owner == NONE || s.sem.owner == s.current
    ensures Leads(cfg, s, Execs(7), t)
    ensures var me := s.threads[s.current];
            t == With(s, me.(pc := EnterYield, waiting := false, priority := me.frame.previous),
                      Sem(s.current, 1, me.frame.callerPriority))
  {
    var me := s.threads[s.current];
    var looking := me.(pc := LoopTest, waiting := false);
    assert With(s, me, s.sem) == s;
    LooksAgain(cfg, s, me);
    t := EndsLoopAndTakes(cfg, s, looking);
    Join(cfg, s, 1, 6, With(s, looking, s.sem), t);
  }

  /** One that wakes and finds another owner goes back to sleep and raises nobody. */
  lemma UninterruptedSleepAgain(cfg: Config, s: State) returns (t: State)
    requires InRange(s, s.current) && s.threads[s.current].pc.ClearWaiting? && s.threads[s.current].priority == cfg.ceiling
    requires s.sem.owner != NONE && s.sem.owner != s.current
    ensures Leads(cfg, s, Execs(6), t) && t == With(s, Asleep(cfg, s.threads[s.current]), s.sem)
  {
    var me := s.threads[s.current];
    var looking := me.(pc := LoopTest, waiting := false);
    assert With(s, me, s.sem) == s;
    LooksAgain(cfg, s, me);
    FallsAsleep(cfg, s, looking);
    t := With(s, Asleep(cfg, me), s.sem);
    Join(cfg, s, 1, 5, With(s, looking, s.sem), t);
  }

  // ------------------------------------------------------------------ leave

  /** A leave by a thread that does not own the semaphore changes nothing in it, nor the thread's priority. */
  lemma UninterruptedForeignLeave(cfg: Config, s: State) returns (t: State)
    requires MayCall(s) && s.sem.owner != s.current
    ensures Leads(cfg, s, [CallLeave] + Execs(1), t)
    ensures InRange(t, s.current) && t == With(s, s.threads[s.current].(depth := t.threads[s.current].depth), s.sem)
  {
    var th := s.threads[s.current];
    var d := if th.depth > 0 then th.depth - 1 else 0;
    var th0 := th.(pc := LeaveTest, depth := d);
    OneStep(cfg, s, CallLeave, With(s, th0, s.sem));
    Statement(cfg, s, th0, s.sem, th0.(pc := User), s.sem);
    FirstOne(cfg, With(s, th0, s.sem), With(s, th0.(pc := User), s.sem));
    t := With(s, th0.(pc := User), s.sem);
    Then(cfg, s, [CallLeave], Execs(1), With(s, th0, s.sem), t);
  }

  /** The record of a thread that calls leave. */
  function Leaving(th: Thread): Thread {
    th.(pc := LeaveTest, depth := if th.depth > 0 then th.depth - 1 else 0)
  }

  lemma Counts(cfg: Config, s: State, th: Thread)
    requires InRange(s, s.current) && th.pc.LeaveTest? && s.sem.owner == s.current
    ensures Leads(cfg, With(s, th, s.sem), Execs(3),
                  With(s, th.(pc := if s.sem.count > 1 then User else LeaveCeiling), s.sem.(count := s.sem.count - 1)))
  {
    var th2, sem2 := th.(pc := TestNested), s.sem.(count := s.sem.count - 1);
    var th3 := th.(pc := if s.sem.count > 1 then User else LeaveCeiling);
    Two(cfg, s, th, s.sem, th.(pc := CountDown), s.sem, th2, sem2);
    Statement(cfg, s, th2, sem2, th3, sem2);
    AndThen(cfg, With(s, th, s.sem), 2, With(s, th2, sem2), With(s, th3, sem2));
  }

  /** From the call by the owner to behind the count. */
  lemma CountsDown(cfg: Config, s: State)
    requires MayCall(s) && s.sem.owner == s.current
    ensures Leads(cfg, s, [CallLeave] + Execs(3),
                  With(s, Leaving(s.threads[s.current]).(pc := if s.sem.count > 1 then User else LeaveCeiling),
                       s.sem.(count := s.sem.count - 1)))
  {
    var th0 := Leaving(s.threads[s.current]);
    var t := With(s, th0.(pc := if s.sem.count > 1 then User else LeaveCeiling), s.sem.(count := s.sem.count - 1));
    OneStep(cfg, s, CallLeave, With(s, th0, s.sem));
    Counts(cfg, s, th0);
    Then(cfg, s, [CallLeave], Execs(3), With(s, th0, s.sem), t);
  }

  /** A nested leave only counts down. */
  lemma UninterruptedNestedLeave(cfg: Config, s: State) returns (t: State)
    requires MayCall(s) && s.sem.owner == s.current && s.sem.count > 1
    ensures Leads(cfg, s, [CallLeave] + Execs(3), t)
    ensures InRange(t, s.current)
    ensures t == With(s, s.threads[s.current].(depth := t.threads[s.current].depth), s.sem.(count := s.sem.count - 1))
  {
    CountsDown(cfg, s);
    t := With(s, Leaving(s.threads[s.current]).(pc := User), s.sem.(count := s.sem.count - 1));
  }

  /** From the ceiling of leave to the search. */
  lemma Drops(cfg: Config, s: State, th: Thread, sem: Sem)
    requires InRange(s, s.current) && th.pc.LeaveCeiling?
    ensures Leads(cfg, With(s, th, sem), Execs(4),
                  With(s, th.(pc := FindWaiter, priority := cfg.ceiling,
                              frame := th.frame.(previous := th.priority, restoring := sem.ownerPriority)),
                       Sem(NONE, sem.count, 0)))
  {
    var th1 := th.(pc := DropOwner, priority := cfg.ceiling, frame := th.frame.(previous := th.priority));
    var th2, sem2 := th1.(pc := SavePriority), sem.(owner := NONE);
    Two(cfg, s, th, sem, th1, sem, th2, sem2);
    var th3 := th1.(pc := ClearPriority, frame := th1.frame.(restoring := sem.ownerPriority));
    Two(cfg, s, th2, sem2, th3, sem2, th3.(pc := FindWaiter), Sem(NONE, sem.count, 0));
    Join(cfg, With(s, th, sem), 2, 2, With(s, th2, sem2), With(s, th3.(pc := FindWaiter), Sem(NONE, sem.count, 0)));
  }

  /** The end of leave's scope and the remembered priority. */
  lemma RestoresPriority(cfg: Config, s: State, th: Thread, sem: Sem)
    requires InRange(s, s.current) && th.pc.LeaveRestore?
    ensures Leads(cfg, With(s, th, sem), Execs(2), With(s, th.(pc := TestYield, priority := th.frame.restoring), sem))
  {
    Two(cfg, s, th, sem, th.(pc := SetPriority, priority := th.frame.previous), sem,
        th.(pc := TestYield, priority := th.frame.restoring), sem);
  }

  lemma TestsYield(cfg: Config, s: State, th: Thread, sem: Sem)
    requires InRange(s, s.current) && th.pc.TestYield?
    ensures Leads(cfg, With(s, th, sem), [Exec],
                  With(s, th.(pc := if th.frame.waiter != NONE && sem.ownerPriority == 0 then LeaveYield else User), sem))
  {
    Statement(cfg, s, th, sem, th.(pc := if th.frame.waiter != NONE && sem.ownerPriority == 0 then LeaveYield else User), sem);
  }

  /** The last statements of leave: it yields if and only if it found a waiter and no owner has stored a priority since. */
  lemma Returns(cfg: Config, s: State, th: Thread, sem: Sem)
    requires InRange(s, s.current) && th.pc.LeaveRestore?
    ensures Leads(cfg, With(s, th, sem), Execs(3),
                  With(s, th.(pc := if th.frame.waiter != NONE && sem.ownerPriority == 0 then LeaveYield else User,
                              priority := th.frame.restoring), sem))
  {
    var th2 := th.(pc := TestYield, priority := th.frame.restoring);
    var th3 := th2.(pc := if th.frame.waiter != NONE && sem.ownerPriority == 0 then LeaveYield else User);
    RestoresPriority(cfg, s, th, sem);
    TestsYield(cfg, s, th2, sem);
    AndThen(cfg, With(s, th, sem), 2, With(s, th2, sem), With(s, th3, sem));
  }

  /** The outermost leave up to its search. */
  lemma LeavesUpToSearch(cfg: Config, s: State)
    requires MayCall(s) && s.sem.owner == s.current && s.sem.count == 1
    ensures Leads(cfg, s, [CallLeave] + Execs(7), With(s, Searching(cfg, s), Sem(NONE, 0, 0)))
  {
    CountsDown(cfg, s);
    var th1 := Leaving(s.threads[s.current]).(pc := LeaveCeiling);
    Drops(cfg, s, th1, s.sem.(count := 0));
    Then(cfg, s, [CallLeave] + Execs(3), Execs(4), With(s, th1, s.sem.(count := 0)), With(s, Searching(cfg, s), Sem(NONE, 0, 0)));
    assert [CallLeave] + Execs(3) + Execs(4) == [CallLeave] + Execs(7);
  }

  /** The running thread before its search for a waiter. */
  function Searching(cfg: Config, s: State): Thread
    requires InRange(s, s.current)
  {
    var th := Leaving(s.threads[s.current]);
    th.(pc := FindWaiter, priority := cfg.ceiling,
        frame := th.frame.(previous := th.priority, restoring := s.sem.ownerPriority))
  }

  /** The outermost leave when nobody is found: the semaphore is free, and the caller has the remembered priority. */
  lemma UninterruptedLeave(cfg: Config, s: State) returns (t: State)
    requires MayCall(s) && s.sem.owner == s.current && s.sem.count == 1
    requires Finds(With(s, Searching(cfg, s), Sem(NONE, 0, 0)), NONE)
    ensures Leads(cfg, s, [CallLeave] + Execs(7) + [Find(NONE)] + Execs(3), t) && t.current == s.current
    ensures t.sem == Sem(NONE, 0, 0) && |t.threads| == |s.threads|
    ensures t.threads[t.current].pc.User? && t.threads[t.current].priority == s.sem.ownerPriority
    ensures forall u | 0 <= u < |s.threads| && u != s.current :: t.threads[u] == s.threads[u]
  {
    LeavesUpToSearch(cfg, s);
    var th, sem := Searching(cfg, s), Sem(NONE, 0, 0);
    var th1 := Searched(th, NONE);
    OneStep(cfg, With(s, th, sem), Find(NONE), With(s, th1, sem));
    Returns(cfg, s, th1, sem);
    t := With(s, th1.(pc := User, priority := s.sem.ownerPriority), sem);
    Then(cfg, s, [CallLeave] + Execs(7), [Find(NONE)], With(s, th, sem), With(s, th1, sem));
    Then(cfg, s, [CallLeave] + Execs(7) + [Find(NONE)], Execs(3), With(s, th1, sem), t);
  }

  lemma Hands(cfg: Config, s: State, th: Thread, sem: Sem, w: int)
    requires InRange(s, s.current) && th.pc.HandOver? && th.frame.waiter == w && InRange(s, w) && w != s.current
    ensures var z := s.(threads := s.threads[w := Woken(s.threads[w])]);
            Leads(cfg, With(s, th, sem), Execs(2), With(z, th.(pc := LeaveRestore), sem.(owner := w)))
  {
    var th1, sem1 := th.(pc := ResumeWaiter), sem.(owner := w);
    Statement(cfg, s, th, sem, th1, sem1);
    FirstOne(cfg, With(s, th, sem), With(s, th1, sem1));
    var z := s.(threads := s.threads[w := Woken(s.threads[w])]);
    assert ExecState(cfg, With(s, th1, sem1)).threads == With(z, th.(pc := LeaveRestore), sem1).threads;
    OneStep(cfg, With(s, th1, sem1), Exec, With(z, th.(pc := LeaveRestore), sem1));
    AndThen(cfg, With(s, th, sem), 1, With(s, th1, sem1), With(z, th.(pc := LeaveRestore), sem1));
  }

  /**
    The outermost leave when a waiter is found: the waiter owns the semaphore and is awake, the caller has
    the remembered priority and is about to yield.
  */
  lemma UninterruptedHandOver(cfg: Config, s: State, w: int) returns (t: State)
    requires MayCall(s) && s.sem.owner == s.current && s.sem.count == 1 && w != NONE && w != s.current
    requires Finds(With(s, Searching(cfg, s), Sem(NONE, 0, 0)), w)
    ensures Leads(cfg, s, [CallLeave] + Execs(7) + [Find(w)] + Execs(5), t) && t.current == s.current
    ensures t.sem == Sem(w, 0, 0) && |t.threads| == |s.threads| && InRange(s, w)
    ensures t.threads[w] == s.threads[w].(asleep := false, waiting := false)
    ensures t.threads[t.current].pc.LeaveYield? && t.threads[t.current].priority == s.sem.ownerPriority
    ensures forall u | 0 <= u < |s.threads| && u != s.current && u != w :: t.threads[u] == s.threads[u]
  {
    LeavesUpToSearch(cfg, s);
    var th, sem := Searching(cfg, s), Sem(NONE, 0, 0);
    var th1 := Searched(th, w);
    OneStep(cfg, With(s, th, sem), Find(w), With(s, th1, sem));
    Hands(cfg, s, th1, sem, w);
    var z := s.(threads := s.threads[w := Woken(s.threads[w])]);
    var th2, sem2 := th1.(pc := LeaveRestore), Sem(w, 0, 0);
    Returns(cfg, z, th2, sem2);
    t := With(z, th2.(pc := LeaveYield, priority := s.sem.ownerPriority), sem2);
    Join(cfg, With(s, th1, sem), 2, 3, With(z, th2, sem2), t);
    Then(cfg, s, [CallLeave] + Execs(7), [Find(w)], With(s, th, sem), With(s, th1, sem));
    Then(cfg, s, [CallLeave] + Execs(7) + [Find(w)], Execs(5), With(s, th1, sem), t);
  }
}
