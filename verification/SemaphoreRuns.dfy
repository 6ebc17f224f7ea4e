/**
  Runs of the semaphore in which its promises fail.  A set of states is described by a predicate R that
  holds at the start and is closed under steps; what is shown of every such R is reachable.
*/
module SemaphoreRuns {
  import opened TimeModel
  import opened Selection
  import opened Semaphore
  import opened SemaphoreOrder
  import opened SemaphoreInheritance

  type States = Stamped -> bool

  /** Not a hand-over that passes over a more important waiter. */
  predicate Fair(x: Stamped, c: Choice) {
    c.Exec? && InRange(x.s, x.s.current) && x.s.threads[x.s.current].pc.HandOver? ==>
      Foremost(x.s, x.s.threads[x.s.current].frame.waiter)
  }

  /** Closed under all steps but unfair hand-overs. */
  ghost predicate Closed(cfg: Config, R: States) {
    forall x, c | R(x) && StampedEnabled(cfg, x, c) && Fair(x, c) :: R(StampedNext(cfg, x, c))
  }

  ghost predicate FullyClosed(cfg: Config, R: States) {
    forall x, c | R(x) && StampedEnabled(cfg, x, c) :: R(StampedNext(cfg, x, c))
  }

  lemma Step(cfg: Config, R: States, x: Stamped, c: Choice, x': Stamped)
    requires Closed(cfg, R) && R(x) && StampedEnabled(cfg, x, c) && x' == StampedNext(cfg, x, c)
    requires Fair(x, c) || FullyClosed(cfg, R)
    ensures R(x')
  {
  }

  /** x with the running thread's record and the semaphore replaced. */
  function With(x: Stamped, th: Thread, sem: Sem): Stamped {
    if 0 <= x.s.current < |x.s.threads| then
      x.(s := State(x.s.current, x.s.threads[x.s.current := th], sem))
    else x
  }

  predicate Running(x: Stamped) {
    0 <= x.s.current < |x.s.threads| == |x.stamps|
  }

  /** One statement that touches only the running thread and the semaphore. */
  lemma Exec1(cfg: Config, R: States, x: Stamped, th: Thread, sem: Sem, th': Thread, sem': Sem)
    requires Closed(cfg, R) && Running(x) && R(With(x, th, sem)) && Plain(th.pc) && !th.pc.HandOver?
    requires th' == ExecThread(cfg, sem, x.s.current, th) && sem' == ExecSem(sem, x.s.current, th)
    ensures R(With(x, th', sem'))
  {
    var y := With(x, th, sem);
    assert ExecState(cfg, y.s).threads == x.s.threads[x.s.current := th'];
    Step(cfg, R, y, Exec, With(x, th', sem'));
  }

  // ------------------------------------------------------------------ stretches of enter and leave

  /** A thread inside enter's scope that entered with priority p. */
  function InEnter(cfg: Config, th: Thread, pc: Pc): Thread {
    th.(pc := pc, priority := cfg.ceiling, frame := th.frame.(callerPriority := th.priority, previous := th.priority),
        base := if th.depth == 0 then th.priority else th.base,
        spoiled := th.depth != 0 && th.priority != th.base)
  }

  /** From its own code through the call of enter to the decision about the owner. */
  lemma Decide(cfg: Config, R: States, x: Stamped, th: Thread, sem: Sem)
    requires Closed(cfg, R) && Running(x) && R(With(x, th, sem)) && x.s.current != 0 && th.pc.User? && !th.asleep
    ensures R(With(x, InEnter(cfg, th, if sem.owner != NONE && sem.owner != x.s.current then Boost else TakeOwner), sem))
  {
    var th0 := th.(pc := ReadPriority);
    assert x.s.threads[x.s.current := th][x.s.current := th0] == x.s.threads[x.s.current := th0];
    Step(cfg, R, With(x, th, sem), CallEnter, With(x, th0, sem));
    var th1 := InEnter(cfg, th, EnterCeiling).(priority := th.priority, frame := th.frame.(callerPriority := th.priority));
    Exec1(cfg, R, x, th0, sem, th1, sem);
    var th2 := InEnter(cfg, th, TestOccupied);
    Exec1(cfg, R, x, th1, sem, th2, sem);
    Exec1(cfg, R, x, th2, sem, InEnter(cfg, th, if sem.owner != NONE && sem.owner != x.s.current then Boost else TakeOwner), sem);
  }

  /** From `owner = caller` to the yield at the end of enter. */
  lemma Take(cfg: Config, R: States, x: Stamped, th: Thread, sem: Sem)
    requires Closed(cfg, R) && Running(x) && R(With(x, th, sem)) && th.pc.TakeOwner?
    ensures R(With(x, th.(pc := EnterYield, priority := th.frame.previous),
                   Sem(x.s.current, sem.count + 1, th.frame.callerPriority)))
  {
    var id := x.s.current;
    var th1 := th.(pc := StorePriority);
    Exec1(cfg, R, x, th, sem, th1, sem.(owner := id));
    var th2 := th.(pc := CountUp);
    Exec1(cfg, R, x, th1, sem.(owner := id), th2, Sem(id, sem.count, th.frame.callerPriority));
    var th3 := th.(pc := EnterRestore);
    var sem3 := Sem(id, sem.count + 1, th.frame.callerPriority);
    Exec1(cfg, R, x, th2, Sem(id, sem.count, th.frame.callerPriority), th3, sem3);
    Exec1(cfg, R, x, th3, sem3, th.(pc := EnterYield, priority := th.frame.previous), sem3);
  }

  /** From the loop's test, somebody else being the owner, to the store that puts the thread to sleep. */
  lemma PrepareToSleep(cfg: Config, R: States, x: Stamped, th: Thread, sem: Sem)
    requires Closed(cfg, R) && Running(x) && R(With(x, th, sem)) && th.pc.LoopTest? && th.priority == cfg.ceiling
    requires sem.owner != NONE && sem.owner != x.s.current
    ensures R(With(x, th.(pc := FallAsleep, waiting := true, frame := th.frame.(suspendPrevious := cfg.ceiling)), sem))
  {
    var f := th.frame.(suspendPrevious := cfg.ceiling);
    var th1 := th.(pc := SuspendCeiling);
    Exec1(cfg, R, x, th, sem, th1, sem);
    var th2 := th.(pc := SetWaiting, frame := f);
    Exec1(cfg, R, x, th1, sem, th2, sem);
    Exec1(cfg, R, x, th2, sem, th.(pc := FallAsleep, waiting := true, frame := f), sem);
  }

  lemma GoToSleep(cfg: Config, R: States, x: Stamped, th: Thread, sem: Sem)
    requires Closed(cfg, R) && Running(x) && R(With(x, th, sem)) && th.pc.FallAsleep? && th.priority == cfg.ceiling
    requires th.frame.suspendPrevious == cfg.ceiling
    ensures R(With(x, th.(pc := SuspendYield, asleep := true), sem))
  {
    var th1 := th.(pc := SuspendRestore, asleep := true);
    Exec1(cfg, R, x, th, sem, th1, sem);
    Exec1(cfg, R, x, th1, sem, th.(pc := SuspendYield, asleep := true), sem);
  }

  function Raised(th: Thread, p: int): Thread {
    if p > th.priority then th.(priority := p) else th
  }

  /** x with another thread's record replaced. */
  function WithOther(x: Stamped, k: int, th: Thread): Stamped {
    if 0 <= k < |x.s.threads| then x.(s := x.s.(threads := x.s.threads[k := th])) else x
  }

  /** The contender raises the owner's priority to its own. */
  lemma BoostOwner(cfg: Config, R: States, x: Stamped, th: Thread, sem: Sem, o: int)
    requires Closed(cfg, R) && Running(x) && R(With(x, th, sem)) && th.pc.Boost?
    requires o == sem.owner && 0 <= o < |x.s.threads| && o != x.s.current
    ensures R(With(WithOther(x, o, Raised(x.s.threads[o], th.frame.callerPriority)), th.(pc := LoopTest), sem))
  {
    var y := With(x, th, sem);
    var z := With(WithOther(x, o, Raised(x.s.threads[o], th.frame.callerPriority)), th.(pc := LoopTest), sem);
    assert ExecState(cfg, y.s).threads == z.s.threads;
    Step(cfg, R, y, Exec, z);
  }

  /** From the call of leave by an owner that entered once to `owner = 0`. */
  lemma LeaveOnce(cfg: Config, R: States, x: Stamped, th: Thread, sem: Sem)
    requires Closed(cfg, R) && Running(x) && R(With(x, th, sem)) && x.s.current != 0 && th.pc.User? && !th.asleep && th.depth > 0
    requires sem.owner == x.s.current && sem.count == 1
    ensures R(With(x, th.(pc := LeaveCeiling, depth := th.depth - 1), sem.(count := 0)))
  {
    var th0 := th.(pc := LeaveTest, depth := th.depth - 1);
    assert x.s.threads[x.s.current := th][x.s.current := th0] == x.s.threads[x.s.current := th0];
    Step(cfg, R, With(x, th, sem), CallLeave, With(x, th0, sem));
    Exec1(cfg, R, x, th0, sem, th0.(pc := CountDown), sem);
    Exec1(cfg, R, x, th0.(pc := CountDown), sem, th0.(pc := TestNested), sem.(count := 0));
    Exec1(cfg, R, x, th0.(pc := TestNested), sem.(count := 0), th0.(pc := LeaveCeiling), sem.(count := 0));
  }

  /** A leave that leaves the count positive just returns. */
  lemma LeaveNested(cfg: Config, R: States, x: Stamped, th: Thread, sem: Sem)
    requires Closed(cfg, R) && Running(x) && R(With(x, th, sem)) && x.s.current != 0 && th.pc.User? && !th.asleep && th.depth > 0
    requires sem.owner == x.s.current && sem.count > 1
    ensures R(With(x, th.(depth := th.depth - 1), sem.(count := sem.count - 1)))
  {
    var th0 := th.(pc := LeaveTest, depth := th.depth - 1);
    assert x.s.threads[x.s.current := th][x.s.current := th0] == x.s.threads[x.s.current := th0];
    Step(cfg, R, With(x, th, sem), CallLeave, With(x, th0, sem));
    var sem1 := sem.(count := sem.count - 1);
    Exec1(cfg, R, x, th0, sem, th0.(pc := CountDown), sem);
    Exec1(cfg, R, x, th0.(pc := CountDown), sem, th0.(pc := TestNested), sem1);
    Exec1(cfg, R, x, th0.(pc := TestNested), sem1, th0.(pc := User), sem1);
  }

  /** From the ceiling of leave to the search for a waiter. */
  lemma Search(cfg: Config, R: States, x: Stamped, th: Thread, sem: Sem)
    requires Closed(cfg, R) && Running(x) && R(With(x, th, sem)) && th.pc.LeaveCeiling?
    ensures R(With(x, th.(pc := FindWaiter, priority := cfg.ceiling,
                          frame := th.frame.(previous := th.priority, restoring := sem.ownerPriority)),
                   Sem(NONE, sem.count, 0)))
  {
    var th1 := th.(pc := DropOwner, priority := cfg.ceiling, frame := th.frame.(previous := th.priority));
    Exec1(cfg, R, x, th, sem, th1, sem);
    var th2 := th1.(pc := SavePriority);
    Exec1(cfg, R, x, th1, sem, th2, sem.(owner := NONE));
    var th3 := th1.(pc := ClearPriority, frame := th1.frame.(restoring := sem.ownerPriority));
    Exec1(cfg, R, x, th2, sem.(owner := NONE), th3, sem.(owner := NONE));
    Exec1(cfg, R, x, th3, sem.(owner := NONE), th3.(pc := FindWaiter), Sem(NONE, sem.count, 0));
  }

  /** The end of leave's scope and the priority restored, up to the last test. */
  lemma Restore(cfg: Config, R: States, x: Stamped, th: Thread, sem: Sem)
    requires Closed(cfg, R) && Running(x) && R(With(x, th, sem)) && th.pc.LeaveRestore?
    ensures R(With(x, th.(pc := if th.frame.waiter != NONE && sem.ownerPriority == 0 then LeaveYield else User,
                          priority := th.frame.restoring), sem))
  {
    var th1 := th.(pc := SetPriority, priority := th.frame.previous);
    Exec1(cfg, R, x, th, sem, th1, sem);
    var th2 := th.(pc := TestYield, priority := th.frame.restoring);
    Exec1(cfg, R, x, th1, sem, th2, sem);
    Exec1(cfg, R, x, th2, sem, th2.(pc := if th.frame.waiter != NONE && sem.ownerPriority == 0 then LeaveYield else User), sem);
  }

  /** The hand-over to a waiter that was found. */
  lemma NameOwner(cfg: Config, R: States, x: Stamped, th: Thread, sem: Sem, w: int)
    requires Closed(cfg, R) && Running(x) && R(With(x, th, sem)) && th.pc.HandOver? && th.frame.waiter == w
    requires Foremost(With(x, th, sem).s, w) || FullyClosed(cfg, R)
    ensures R(With(x, th.(pc := ResumeWaiter), sem.(owner := w)))
  {
    var th1 := th.(pc := ResumeWaiter);
    assert ExecState(cfg, With(x, th, sem).s).threads == x.s.threads[x.s.current := th1];
    Step(cfg, R, With(x, th, sem), Exec, With(x, th1, sem.(owner := w)));
  }

  lemma WakeOwner(cfg: Config, R: States, x: Stamped, th: Thread, sem: Sem, w: int)
    requires Closed(cfg, R) && Running(x) && R(With(x, th, sem)) && th.pc.ResumeWaiter? && th.frame.waiter == w
    requires 0 <= w < |x.s.threads| && w != x.s.current
    ensures R(With(WithOther(x, w, Woken(x.s.threads[w])), th.(pc := LeaveRestore), sem))
  {
    var y := With(x, th, sem);
    var z := With(WithOther(x, w, Woken(x.s.threads[w])), th.(pc := LeaveRestore), sem);
    assert ExecState(cfg, y.s).threads == z.s.threads;
    Step(cfg, R, y, Exec, z);
  }

  lemma HandTo(cfg: Config, R: States, x: Stamped, th: Thread, sem: Sem, w: int)
    requires Closed(cfg, R) && Running(x) && R(With(x, th, sem)) && th.pc.HandOver? && th.frame.waiter == w
    requires 0 <= w < |x.s.threads| && w != x.s.current
    requires Foremost(With(x, th, sem).s, w) || FullyClosed(cfg, R)
    ensures R(With(WithOther(x, w, Woken(x.s.threads[w])), th.(pc := LeaveRestore), sem.(owner := w)))
  {
    NameOwner(cfg, R, x, th, sem, w);
    WakeOwner(cfg, R, x, th.(pc := ResumeWaiter), sem.(owner := w), w);
  }

  /** A woken waiter that finds the semaphore its own, or free, up to `owner = caller`. */
  lemma WakeUp(cfg: Config, R: States, x: Stamped, th: Thread, sem: Sem)
    requires Closed(cfg, R) && Running(x) && R(With(x, th, sem)) && th.pc.ClearWaiting?
    requires sem.owner == NONE || sem.owner == x.s.current
    ensures R(With(x, th.(pc := TakeOwner, waiting := false), sem.(count := 0)))
  {
    var th1 := th.(pc := LoopTest, waiting := false);
    Exec1(cfg, R, x, th, sem, th1, sem);
    Exec1(cfg, R, x, th1, sem, th1.(pc := ResetCount), sem);
    Exec1(cfg, R, x, th1.(pc := ResetCount), sem, th1.(pc := TakeOwner), sem.(count := 0));
  }

  // ------------------------------------------------------------------ the scheduler

  /** t is ready, and of any other ready thread (or idle) either less important or activated later. */
  predicate GoesNext(x: Stamped, t: int) {
    && Running(x) && 0 <= t < |x.stamps| && !x.s.threads[t].asleep
    && forall u | 0 <= u < |x.stamps| && u != t && (u == 0 || !x.s.threads[u].asleep) ::
         x.s.threads[u].priority < x.s.threads[t].priority
         || (x.s.threads[u].priority == x.s.threads[t].priority && x.stamps[t] < x.stamps[u])
  }

  lemma NextIsPicked(x: Stamped, t: int)
    requires GoesNext(x, t)
    ensures t == Pick(View(x), 0, 1) && Picks(x.s, t)
  {
    var v := View(x);
    assert IsBest(v, 0, 1, t);
    PickIsTheBest(v, 0, 1, t);
  }

  function Stamp(x: Stamped, t: int): Stamped {
    if 0 <= t < |x.stamps| then Stamped(x.s.(current := t), x.stamps[t := x.counter + 1], x.counter + 1) else x
  }

  /** A tick to another thread. */
  lemma TickTo(cfg: Config, R: States, x: Stamped, t: int)
    requires Closed(cfg, R) && R(x) && GoesNext(x, t)
    requires cfg.roundRobin || x.s.threads[x.s.current].priority < cfg.ceiling
    ensures R(Stamp(x, t))
  {
    NextIsPicked(x, t);
    Step(cfg, R, x, Switch(t), Stamp(x, t));
  }

  /** A yield that goes to another thread. */
  lemma YieldTo(cfg: Config, R: States, x: Stamped, th: Thread, sem: Sem, t: int)
    requires Closed(cfg, R) && Running(x) && R(With(x, th, sem)) && AtYield(th.pc) && t != x.s.current
    requires GoesNext(With(x, th, sem), t)
    ensures R(Stamp(With(x, AfterYield(th), sem), t))
  {
    var y := With(x, th, sem);
    NextIsPicked(y, t);
    assert y.s.threads[x.s.current := AfterYield(th)] == x.s.threads[x.s.current := AfterYield(th)];
    Step(cfg, R, y, Yield(t), Stamp(With(x, AfterYield(th), sem), t));
  }

  /** A yield that comes back at once. */
  lemma YieldBack(cfg: Config, R: States, x: Stamped, th: Thread, sem: Sem)
    requires Closed(cfg, R) && Running(x) && R(With(x, th, sem)) && AtYield(th.pc)
    requires GoesNext(With(x, th, sem), x.s.current)
    ensures R(With(x, AfterYield(th), sem))
  {
    var y := With(x, th, sem);
    NextIsPicked(y, x.s.current);
    assert y.s.threads[x.s.current := AfterYield(th)] == x.s.threads[x.s.current := AfterYield(th)];
    Step(cfg, R, y, Yield(x.s.current), With(x, AfterYield(th), sem));
  }
}
