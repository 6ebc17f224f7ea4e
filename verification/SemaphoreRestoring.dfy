/**
  Priority restoration in all surroundings: with equal-priority preemption at the ceiling and spurious
  resumes, two threads get inside, and the nesting count keeps one of them from being restored.
*/
module SemaphoreRestoring {
  import opened TimeModel
  import opened Selection
  import opened Semaphore
  import opened SemaphoreTheorems
  import opened SemaphoreOrder
  import opened SemaphoreRuns
  import opened SemaphoreFailures

  /** Out of the semaphore, in its own code, a thread is at its priority unless it re-entered at another one. */
  predicate Restored(s: State) {
    forall t | 0 <= t < |s.threads| && s.threads[t].pc.User? && !Inside(s, t) ::
      s.threads[t].priority == s.threads[t].base <==> !s.threads[t].spoiled
  }

  ghost predicate AlwaysRestores(cfg: Config) {
    forall s, run | Initial(cfg, s) && Legal(cfg, s, run) :: Restored(Run(cfg, s, run))
  }

  ghost predicate BadPlay(cfg: Config, R: States) {
    Play(cfg, R) && cfg.roundRobin && cfg.spurious
  }

  /** a, woken from its wait. */
  function Woken2(cfg: Config): Thread {
    Blocked(cfg, 2).(asleep := false, waiting := false)
  }

  /** Somebody resumes the waiting a; x leaves, and finds nobody waiting. */
  function LeftAlone(cfg: Config): Cast {
    AWaits(cfg).(x := Someone(1, false).(frame := Frame(1, 2, 1, 1, NONE)), a := Woken2(cfg), sem := Sem(NONE, 0, 0))
  }

  lemma XLeavesAlone(cfg: Config, R: States)
    requires Play(cfg, R) && cfg.spurious
    ensures R(St(LeftAlone(cfg)))
  {
    AComes(cfg, R);
    var c0 := AWaits(cfg);
    var c := c0.(a := Woken2(cfg));
    assert St(c).s.threads == St(c0).s.threads[2 := Woken2(cfg)];
    Step(cfg, R, St(c0), Resume(2), St(c));
    WithIs(c, c.x, c.sem);
    LeaveOnce(cfg, R, St(c), c.x, c.sem);
    Search(cfg, R, St(c), c.x.(pc := LeaveCeiling, depth := 0), Sem(1, 0, 1));
    var th := Someone(1, false).(pc := FindWaiter, priority := cfg.ceiling, frame := Frame(1, 2, 1, 1, NONE));
    FindsNobody(cfg, R, c, th);
    Restore(cfg, R, St(c), th.(pc := LeaveRestore), Sem(NONE, 0, 0));
    WithIs(c, LeftAlone(cfg).x, Sem(NONE, 0, 0));
  }

  lemma FindsNobody(cfg: Config, R: States, c: Cast, th: Thread)
    requires Closed(cfg, R) && c.cur == 1 && R(With(St(c), th, Sem(NONE, 0, 0)))
    requires th.pc.FindWaiter? && th.frame.waiter == NONE && !th.waiting && !c.a.waiting && !c.b.waiting
    ensures R(With(St(c), th.(pc := LeaveRestore), Sem(NONE, 0, 0)))
  {
    WithIs(c, th, Sem(NONE, 0, 0));
    WithIs(c, th.(pc := LeaveRestore), Sem(NONE, 0, 0));
    var y := c.(x := th, sem := Sem(NONE, 0, 0));
    var z := y.(x := th.(pc := LeaveRestore));
    assert St(y).s.threads[1 := z.x] == St(z).s.threads;
    assert forall i | 0 <= i < 4 :: View(St(y))[i].waitingFor == 0;
    Step(cfg, R, St(y), Find(NONE), St(z));
  }

  /** x has decided to take the semaphore again when a tick lets a take it. */
  function AInFirst(cfg: Config): Cast {
    LeftAlone(cfg).(x := Someone(1, false).(pc := TakeOwner, priority := cfg.ceiling),
                    a := Woken2(cfg).(pc := User, priority := 2, depth := 1), sem := Sem(2, 1, 2), sa := 3, sx := 4, counter := 4)
  }

  lemma AOvertakes(cfg: Config, R: States)
    requires BadPlay(cfg, R)
    ensures R(St(AInFirst(cfg)))
  {
    XLeavesAlone(cfg, R);
    var c := LeftAlone(cfg);
    WithIs(c, c.x, c.sem);
    Decide(cfg, R, St(c), c.x, c.sem);
    var th := Someone(1, false).(pc := TakeOwner, priority := cfg.ceiling);
    assert InEnter(cfg, c.x, TakeOwner) == th;
    WithIs(c, th, c.sem);
    var c1 := c.(x := th);
    TickTo(cfg, R, St(c1), 2);
    StampIs(c1);
    ATakes(cfg, R, c1.(cur := 2, sa := 3, counter := 3));
  }

  lemma ATakes(cfg: Config, R: States, c: Cast)
    requires BadPlay(cfg, R) && R(St(c)) && c.cur == 2 && c.a == Woken2(cfg) && c.sem == Sem(NONE, 0, 0)
    requires !c.x.asleep && c.x.priority == cfg.ceiling && c.b.asleep
    ensures R(St(c.(cur := 1, a := Woken2(cfg).(pc := User, priority := 2, depth := 1), sem := Sem(2, 1, 2),
                    sx := c.counter + 1, counter := c.counter + 1)))
  {
    WithIs(c, c.a, c.sem);
    WakeUp(cfg, R, St(c), c.a, c.sem);
    Take(cfg, R, St(c), c.a.(pc := TakeOwner), c.sem);
    var th := c.a.(pc := EnterYield, priority := 2);
    WithIs(c, th, Sem(2, 1, 2));
    YieldTo(cfg, R, St(c), th, Sem(2, 1, 2), 1);
    WithIs(c, th.(pc := User, depth := 1), Sem(2, 1, 2));
    StampIs(c.(a := th.(pc := User, depth := 1), sem := Sem(2, 1, 2)));
  }

  /** x takes it as well: both are inside, and the count is 2. */
  function BothInside(cfg: Config): Cast {
    AInFirst(cfg).(cur := 2, x := Someone(1, false).(depth := 1), sem := Sem(1, 2, 1), sa := 5, counter := 5)
  }

  lemma XFollows(cfg: Config, R: States)
    requires BadPlay(cfg, R)
    ensures R(St(BothInside(cfg)))
  {
    AOvertakes(cfg, R);
    var c := AInFirst(cfg);
    WithIs(c, c.x, c.sem);
    Take(cfg, R, St(c), c.x, c.sem);
    var th := Someone(1, false).(pc := EnterYield);
    WithIs(c, th, Sem(1, 2, 1));
    YieldTo(cfg, R, St(c), th, Sem(1, 2, 1), 2);
    WithIs(c, th.(pc := User, depth := 1), Sem(1, 2, 1));
    StampIs(c.(x := th.(pc := User, depth := 1), sem := Sem(1, 2, 1)));
  }

  /** A leave by somebody who is not the owner does nothing. */
  lemma LeaveForNothing(cfg: Config, R: States, x: Stamped, th: Thread, sem: Sem)
    requires Closed(cfg, R) && Running(x) && R(With(x, th, sem)) && x.s.current != 0 && th.pc.User? && !th.asleep && th.depth > 0
    requires sem.owner != x.s.current
    ensures R(With(x, th.(depth := th.depth - 1), sem))
  {
    var th0 := th.(pc := LeaveTest, depth := th.depth - 1);
    assert x.s.threads[x.s.current := th][x.s.current := th0] == x.s.threads[x.s.current := th0];
    Step(cfg, R, With(x, th, sem), CallLeave, With(x, th0, sem));
    Exec1(cfg, R, x, th0, sem, th0.(pc := User), sem);
  }

  /** a leaves in vain, enters again, raises x to its priority and waits. */
  function XRaised(cfg: Config): Cast {
    BothInside(cfg).(cur := 1, x := Someone(1, false).(depth := 1, priority := 2), a := Blocked(cfg, 2), sx := 6, counter := 6)
  }

  lemma AContendsAgain(cfg: Config, R: States)
    requires BadPlay(cfg, R)
    ensures R(St(XRaised(cfg)))
  {
    XFollows(cfg, R);
    var c := BothInside(cfg);
    WithIs(c, c.a, c.sem);
    LeaveForNothing(cfg, R, St(c), c.a, c.sem);
    var a0 := c.a.(depth := 0);
    WithIs(c, a0, c.sem);
    var c1 := c.(a := a0);
    Waits(cfg, R, St(c1), a0, 1);
    OtherIs(c1, c.x.(priority := 2));
    var c2 := c1.(x := c.x.(priority := 2));
    assert Asleep(cfg, a0) == Blocked(cfg, 2).(pc := SuspendYield);
    WithIs(c2, Asleep(cfg, a0), c.sem);
    YieldTo(cfg, R, St(c2), Asleep(cfg, a0), c.sem, 1);
    WithIs(c2, Blocked(cfg, 2), c.sem);
    StampIs(c2.(a := Blocked(cfg, 2)));
  }

  /** x leaves; the count says it is still inside, so it keeps a's priority though it never re-entered. */
  lemma NeverRestored(cfg: Config) returns (x: Stamped)
    requires cfg.ceiling > 3 && cfg.roundRobin && cfg.spurious
    ensures Initial(cfg, St(Begin()).s) && Reached(cfg, x) && !Restored(x.s)
  {
    ReachedPlays(cfg);
    var R: States := y => Reached(cfg, y);
    AContendsAgain(cfg, R);
    var c := XRaised(cfg);
    WithIs(c, c.x, c.sem);
    LeaveNested(cfg, R, St(c), c.x, c.sem);
    WithIs(c, c.x.(depth := 0), Sem(1, 1, 1));
    x := St(c.(x := c.x.(depth := 0), sem := Sem(1, 1, 1)));
    assert x.s.threads[1].pc.User? && !Inside(x.s, 1) && x.s.threads[1].priority == 2;
  }

  /** Restoration, up to re-entry, holds in every run if and only if the surroundings are good. */
  lemma RestoresExactlyWhenGood(cfg: Config)
    requires cfg.ceiling > 3
    ensures AlwaysRestores(cfg) <==> !(cfg.roundRobin && cfg.spurious)
  {
    if Good(cfg) {
      forall s, run | Initial(cfg, s) && Legal(cfg, s, run)
        ensures Restored(Run(cfg, s, run))
      {
        var e := Run(cfg, s, run);
        forall t | 0 <= t < |e.threads| && e.threads[t].pc.User? && !Inside(e, t)
          ensures e.threads[t].priority == e.threads[t].base <==> !e.threads[t].spoiled
        {
          PriorityRestored(cfg, s, run, t);
        }
      }
    } else {
      var x := NeverRestored(cfg);
      var run :| StampedLegal(cfg, St(Begin()), run) && StampedRun(cfg, St(Begin()), run) == x;
      Forget(cfg, St(Begin()), run);
      assert !Restored(Run(cfg, St(Begin()).s, run));
    }
  }
}
