/** Every statement of enter, leave and suspend keeps the invariant, and so does every run. */
module SemaphoreInvariant {
  import opened Semaphore

  // ------------------------------------------------------------------ one statement

  lemma EnterKeepsPriority(cfg: Config, sem: Sem, id: int, th: Thread)
    requires cfg.ceiling > 0 && PriorityOk(cfg, sem, id, th) && sem.ownerPriority < cfg.ceiling
    requires !InLeave(th.pc) && !th.pc.User? && !AtYield(th.pc)
    ensures var th' := ExecEnter(cfg, sem, id, th);
            PriorityOk(cfg, ExecSem(sem, id, th), id, th')
  {
  }

  lemma LeaveScopeKeepsPriority(cfg: Config, sem: Sem, id: int, th: Thread)
    requires cfg.ceiling > 0 && PriorityOk(cfg, sem, id, th) && sem.ownerPriority < cfg.ceiling
    requires LeaveScope(th.pc) && !th.pc.FindWaiter?
    ensures PriorityOk(cfg, ExecSem(sem, id, th), id, ExecLeave(cfg, sem, id, th))
  {
  }

  lemma LeaveKeepsPriority(cfg: Config, sem: Sem, id: int, th: Thread)
    requires cfg.ceiling > 0 && PriorityOk(cfg, sem, id, th) && sem.ownerPriority < cfg.ceiling
    requires InLeave(th.pc) && !th.pc.FindWaiter? && !AtYield(th.pc)
    ensures var th' := ExecLeave(cfg, sem, id, th);
            PriorityOk(cfg, ExecSem(sem, id, th), id, th')
  {
    if LeaveScope(th.pc) {
      LeaveScopeKeepsPriority(cfg, sem, id, th);
    }
  }

  lemma EnterKeepsOwnership(cfg: Config, sem: Sem, id: int, th: Thread)
    requires id > 0 && OwnershipOk(sem, id, th)
    requires sem.owner == NONE ==> sem.count == 0
    requires !InLeave(th.pc) && !th.pc.User? && !AtYield(th.pc)
    ensures var th' := ExecEnter(cfg, sem, id, th);
            OwnershipOk(ExecSem(sem, id, th), id, th')
  {
  }

  lemma LeaveScopeKeepsOwnership(cfg: Config, sem: Sem, id: int, th: Thread)
    requires id > 0 && OwnershipOk(sem, id, th)
    requires sem.owner == NONE ==> sem.count == 0
    requires th.pc.HandOver? ==> th.frame.waiter != id
    requires LeaveScope(th.pc) && !th.pc.FindWaiter?
    ensures var th' := ExecLeave(cfg, sem, id, th);
            OwnershipOk(ExecSem(sem, id, th), id, th')
  {
  }

  lemma LeaveKeepsOwnership(cfg: Config, sem: Sem, id: int, th: Thread)
    requires id > 0 && OwnershipOk(sem, id, th)
    requires sem.owner == NONE ==> sem.count == 0
    requires th.pc.HandOver? ==> th.frame.waiter != id
    requires InLeave(th.pc) && !th.pc.FindWaiter? && !AtYield(th.pc)
    ensures var th' := ExecLeave(cfg, sem, id, th);
            OwnershipOk(ExecSem(sem, id, th), id, th')
  {
    if LeaveScope(th.pc) {
      LeaveScopeKeepsOwnership(cfg, sem, id, th);
    }
  }

  lemma EnterKeepsSleep(cfg: Config, sem: Sem, id: int, th: Thread)
    requires id > 0 && OwnershipOk(sem, id, th) && RunningOk(th)
    requires SleepOk(cfg, sem, Window(th.pc), id, th)
    requires !InLeave(th.pc) && !th.pc.User? && !AtYield(th.pc)
    ensures var th' := ExecEnter(cfg, sem, id, th);
            SleepOk(cfg, ExecSem(sem, id, th), Window(th'.pc), id, th') && RunningOk(th')
  {
  }

  lemma LeaveKeepsSleep(cfg: Config, sem: Sem, id: int, th: Thread)
    requires id > 0 && OwnershipOk(sem, id, th) && RunningOk(th)
    requires SleepOk(cfg, sem, Window(th.pc), id, th)
    requires th.pc.HandOver? ==> th.frame.waiter > 0
    requires InLeave(th.pc) && !th.pc.FindWaiter? && !AtYield(th.pc)
    ensures var th' := ExecLeave(cfg, sem, id, th);
            SleepOk(cfg, ExecSem(sem, id, th), Window(th'.pc), id, th') && RunningOk(th')
  {
  }

  lemma EnterKeepsRestore(cfg: Config, sem: Sem, id: int, th: Thread)
    requires id > 0 && OwnershipOk(sem, id, th) && RestoreOk(sem, id, th)
    requires !InLeave(th.pc) && !th.pc.User? && !AtYield(th.pc)
    ensures var th' := ExecEnter(cfg, sem, id, th);
            RestoreOk(ExecSem(sem, id, th), id, th')
  {
  }

  lemma LeaveKeepsRestore(cfg: Config, sem: Sem, id: int, th: Thread)
    requires id > 0 && OwnershipOk(sem, id, th) && RestoreOk(sem, id, th)
    requires th.pc.HandOver? ==> th.frame.waiter != id
    requires InLeave(th.pc) && !th.pc.FindWaiter? && !AtYield(th.pc)
    ensures var th' := ExecLeave(cfg, sem, id, th);
            RestoreOk(ExecSem(sem, id, th), id, th')
  {
  }

  /** A statement keeps what is known about the thread that executes it. */
  lemma MoverKeepsOk(cfg: Config, sem: Sem, id: int, th: Thread)
    requires cfg.ceiling > 0 && id > 0 && sem.ownerPriority < cfg.ceiling
    requires ThreadOk(cfg, sem, Window(th.pc), id, th) && RunningOk(th)
    requires sem.owner == NONE ==> sem.count == 0
    requires !th.pc.User? && !th.pc.FindWaiter? && !AtYield(th.pc)
    requires th.pc.HandOver? ==> th.frame.waiter > 0 && th.frame.waiter != id
    ensures var th' := ExecThread(cfg, sem, id, th);
            ThreadOk(cfg, ExecSem(sem, id, th), Window(th'.pc), id, th') && RunningOk(th')
  {
    if InLeave(th.pc) {
      LeaveKeepsPriority(cfg, sem, id, th);
      LeaveKeepsOwnership(cfg, sem, id, th);
      LeaveKeepsSleep(cfg, sem, id, th);
      LeaveKeepsRestore(cfg, sem, id, th);
    } else {
      EnterKeepsPriority(cfg, sem, id, th);
      EnterKeepsOwnership(cfg, sem, id, th);
      EnterKeepsSleep(cfg, sem, id, th);
      EnterKeepsRestore(cfg, sem, id, th);
    }
  }

  lemma OtherKeepsOwnership(cfg: Config, sem: Sem, mid: int, mover: Thread, id: int, th: Thread)
    requires id != mid && mid > 0 && id >= 0
    requires ThreadOk(cfg, sem, Window(mover.pc), mid, mover) && ThreadOk(cfg, sem, Window(mover.pc), id, th)
    requires sem.owner == NONE ==> sem.count == 0
    requires sem.owner != 0
    requires !(Loud(cfg, sem, mid, mover) && Loud(cfg, sem, id, th))
    requires !mover.pc.User? && !mover.pc.FindWaiter? && !AtYield(mover.pc)
    requires mover.pc.HandOver? || mover.pc.ResumeWaiter? ==>
               mover.frame.waiter > 0 && (id == mover.frame.waiter ==> Parked(th.pc))
    requires mover.pc.ResumeWaiter? ==> sem.owner == mover.frame.waiter
    ensures OwnershipOk(ExecSem(sem, mid, mover), id, ExecOther(sem, mover, id, th))
  {
  }

  lemma OtherKeepsSleep(cfg: Config, sem: Sem, mid: int, mover: Thread, id: int, th: Thread)
    requires id != mid && mid > 0 && id >= 0
    requires ThreadOk(cfg, sem, Window(mover.pc), mid, mover) && ThreadOk(cfg, sem, Window(mover.pc), id, th)
    requires sem.owner == NONE ==> sem.count == 0
    requires sem.owner != 0
    requires !(Loud(cfg, sem, mid, mover) && Loud(cfg, sem, id, th))
    requires !mover.pc.User? && !mover.pc.FindWaiter? && !AtYield(mover.pc)
    requires mover.pc.HandOver? || mover.pc.ResumeWaiter? ==>
               mover.frame.waiter > 0 && (id == mover.frame.waiter ==> Parked(th.pc))
    requires mover.pc.ResumeWaiter? ==> sem.owner == mover.frame.waiter
    ensures SleepOk(cfg, ExecSem(sem, mid, mover), Window(ExecThread(cfg, sem, mid, mover).pc), id,
                    ExecOther(sem, mover, id, th))
  {
  }

  lemma OtherKeepsPriority(cfg: Config, sem: Sem, mid: int, mover: Thread, id: int, th: Thread)
    requires id != mid && mid > 0 && id >= 0
    requires ThreadOk(cfg, sem, Window(mover.pc), mid, mover) && ThreadOk(cfg, sem, Window(mover.pc), id, th)
    requires sem.owner == NONE ==> sem.count == 0
    requires sem.owner != 0
    requires !(Loud(cfg, sem, mid, mover) && Loud(cfg, sem, id, th))
    requires !mover.pc.User? && !mover.pc.FindWaiter? && !AtYield(mover.pc)
    requires mover.pc.HandOver? || mover.pc.ResumeWaiter? ==>
               mover.frame.waiter > 0 && (id == mover.frame.waiter ==> Parked(th.pc))
    requires mover.pc.ResumeWaiter? ==> sem.owner == mover.frame.waiter
    ensures PriorityOk(cfg, ExecSem(sem, mid, mover), id, ExecOther(sem, mover, id, th))
  {
  }

  lemma OtherKeepsRestore(cfg: Config, sem: Sem, mid: int, mover: Thread, id: int, th: Thread)
    requires id != mid && mid > 0 && id >= 0
    requires ThreadOk(cfg, sem, Window(mover.pc), mid, mover) && ThreadOk(cfg, sem, Window(mover.pc), id, th)
    requires sem.owner == NONE ==> sem.count == 0
    requires sem.owner != 0
    requires !(Loud(cfg, sem, mid, mover) && Loud(cfg, sem, id, th))
    requires !mover.pc.User? && !mover.pc.FindWaiter? && !AtYield(mover.pc)
    requires mover.pc.HandOver? || mover.pc.ResumeWaiter? ==>
               mover.frame.waiter > 0 && (id == mover.frame.waiter ==> Parked(th.pc))
    requires mover.pc.ResumeWaiter? ==> sem.owner == mover.frame.waiter
    ensures RestoreOk(ExecSem(sem, mid, mover), id, ExecOther(sem, mover, id, th))
  {
  }

  /** ... and about every other thread, given that no two threads are loud at once. */
  lemma OtherKeepsOk(cfg: Config, sem: Sem, mid: int, mover: Thread, id: int, th: Thread)
    requires id != mid && mid > 0 && id >= 0
    requires ThreadOk(cfg, sem, Window(mover.pc), mid, mover) && ThreadOk(cfg, sem, Window(mover.pc), id, th)
    requires sem.owner == NONE ==> sem.count == 0
    requires sem.owner != 0
    requires !(Loud(cfg, sem, mid, mover) && Loud(cfg, sem, id, th))
    requires !mover.pc.User? && !mover.pc.FindWaiter? && !AtYield(mover.pc)
    requires mover.pc.HandOver? || mover.pc.ResumeWaiter? ==>
               mover.frame.waiter > 0 && (id == mover.frame.waiter ==> Parked(th.pc))
    requires mover.pc.ResumeWaiter? ==> sem.owner == mover.frame.waiter
    ensures ThreadOk(cfg, ExecSem(sem, mid, mover), Window(ExecThread(cfg, sem, mid, mover).pc), id,
                     ExecOther(sem, mover, id, th))
  {
    OtherKeepsOwnership(cfg, sem, mid, mover, id, th);
    OtherKeepsSleep(cfg, sem, mid, mover, id, th);
    OtherKeepsPriority(cfg, sem, mid, mover, id, th);
    OtherKeepsRestore(cfg, sem, mid, mover, id, th);
  }

  /** A thread becomes loud only by its own statement. */
  lemma OtherStaysQuiet(cfg: Config, sem: Sem, mid: int, mover: Thread, id: int, th: Thread)
    requires id != mid && mid >= 0 && id >= 0
    requires ThreadOk(cfg, sem, Window(mover.pc), mid, mover) && ThreadOk(cfg, sem, Window(mover.pc), id, th)
    requires mover.pc.HandOver? || mover.pc.ResumeWaiter? ==> (id == mover.frame.waiter ==> Parked(th.pc))
    requires mover.pc.ResumeWaiter? ==> sem.owner == mover.frame.waiter
    requires Loud(cfg, ExecSem(sem, mid, mover), id, ExecOther(sem, mover, id, th))
    ensures Loud(cfg, sem, id, th)
  {
  }

  // ------------------------------------------------------------------ every step keeps the invariant

  /** With a loud thread around, only threads at the ceiling can be chosen. */
  lemma PickedWithLoud(cfg: Config, s: State, a: int, t: int)
    requires ShapeOk(cfg, s) && ThreadsOk(cfg, s) && OneLoud(cfg, s)
    requires InRange(s, a) && Loud(cfg, s.sem, a, s.threads[a])
    requires Picks(s, t)
    ensures Active(s.threads[t])
    ensures t == a || Quiet(cfg, s.sem, t, s.threads[t])
  {
    assert ThreadOk(cfg, s.sem, WindowOpen(s), a, s.threads[a]);
    assert ThreadOk(cfg, s.sem, WindowOpen(s), t, s.threads[t]);
  }

  lemma ExecKeepsShape(cfg: Config, s: State)
    requires Inv(cfg, s) && Enabled(cfg, s, Exec)
    ensures ShapeOk(cfg, ExecState(cfg, s))
  {
    var me := s.threads[s.current];
    assert ThreadOk(cfg, s.sem, WindowOpen(s), s.current, me) && HandsOver(cfg, s, s.current);
    MoverKeepsOk(cfg, s.sem, s.current, me);
  }

  lemma ExecKeepsThread(cfg: Config, s: State, t: int)
    requires Inv(cfg, s) && Enabled(cfg, s, Exec) && InRange(s, t)
    ensures var s' := ExecState(cfg, s); ThreadOk(cfg, s'.sem, WindowOpen(s'), t, s'.threads[t])
  {
    var me := s.threads[s.current];
    assert ThreadOk(cfg, s.sem, WindowOpen(s), s.current, me) && HandsOver(cfg, s, s.current);
    if t == s.current {
      MoverKeepsOk(cfg, s.sem, s.current, me);
    } else {
      assert ThreadOk(cfg, s.sem, WindowOpen(s), t, s.threads[t]);
      OtherKeepsOk(cfg, s.sem, s.current, me, t, s.threads[t]);
    }
  }

  /** The running thread becomes loud only when nobody else is. */
  lemma MoverLoudAlone(cfg: Config, s: State, a: int)
    requires Inv(cfg, s) && Enabled(cfg, s, Exec)
    requires InRange(s, a) && a != s.current && Loud(cfg, s.sem, a, s.threads[a])
    ensures var me := s.threads[s.current];
            var me' := ExecThread(cfg, s.sem, s.current, me);
            var sem' := ExecSem(s.sem, s.current, me);
            !Loud(cfg, sem', s.current, me') && cfg.roundRobin && Finishing(sem', s.current, me')
  {
    var me := s.threads[s.current];
    assert ThreadOk(cfg, s.sem, WindowOpen(s), s.current, me);
  }

  lemma ExecKeepsLoud(cfg: Config, s: State)
    requires Inv(cfg, s) && Enabled(cfg, s, Exec)
    ensures OneLoud(cfg, ExecState(cfg, s))
  {
    var me := s.threads[s.current];
    var s' := ExecState(cfg, s);
    forall a | 0 <= a < |s'.threads| && a != s.current && Loud(cfg, s'.sem, a, s'.threads[a])
      ensures Loud(cfg, s.sem, a, s.threads[a])
      ensures !Loud(cfg, s'.sem, s'.current, s'.threads[s.current])
      ensures cfg.roundRobin && Finishing(s'.sem, s'.current, s'.threads[s'.current])
    {
      assert ThreadOk(cfg, s.sem, WindowOpen(s), s.current, me) && HandsOver(cfg, s, s.current);
      assert ThreadOk(cfg, s.sem, WindowOpen(s), a, s.threads[a]);
      OtherStaysQuiet(cfg, s.sem, s.current, me, a, s.threads[a]);
      MoverLoudAlone(cfg, s, a);
    }
  }

  /** The thread that hands over runs: the only one that could have interrupted it is still asleep. */
  lemma HandingOverRuns(cfg: Config, s: State, t: int)
    requires Good(cfg) && Inv(cfg, s) && InRange(s, t)
    requires s.threads[t].pc.HandOver? || s.threads[t].pc.ResumeWaiter?
    ensures t == s.current
  {
    assert HandsOver(cfg, s, t);
    assert ThreadOk(cfg, s.sem, WindowOpen(s), t, s.threads[t]);
    assert Loud(cfg, s.sem, t, s.threads[t]);
  }

  /** No statement but the search for a waiter leads into the hand-over. */
  lemma NotIntoHandOver(cfg: Config, sem: Sem, id: int, th: Thread)
    requires !th.pc.HandOver? && !th.pc.FindWaiter?
    ensures !ExecThread(cfg, sem, id, th).pc.HandOver? && (th.pc.ResumeWaiter? || !ExecThread(cfg, sem, id, th).pc.ResumeWaiter?)
  {
  }

  lemma ExecKeepsHandOver(cfg: Config, s: State, t: int)
    requires Good(cfg) && Inv(cfg, s) && Enabled(cfg, s, Exec) && InRange(s, t)
    ensures HandsOver(cfg, ExecState(cfg, s), t)
  {
    var me := s.threads[s.current];
    assert HandsOver(cfg, s, t);
    if s.threads[t].pc.HandOver? || s.threads[t].pc.ResumeWaiter? {
      HandingOverRuns(cfg, s, t);
    } else if t == s.current {
      NotIntoHandOver(cfg, s.sem, t, me);
    }
  }

  lemma ExecKeepsInv(cfg: Config, s: State)
    requires Good(cfg) && Inv(cfg, s) && Enabled(cfg, s, Exec)
    ensures Inv(cfg, ExecState(cfg, s))
  {
    ExecKeepsShape(cfg, s);
    ExecKeepsLoud(cfg, s);
    forall t | 0 <= t < |s.threads|
      ensures var s' := ExecState(cfg, s);
              ThreadOk(cfg, s'.sem, WindowOpen(s'), t, s'.threads[t]) && HandsOver(cfg, s', t)
    {
      ExecKeepsThread(cfg, s, t);
      ExecKeepsHandOver(cfg, s, t);
    }
  }

  /** A thread outside the scopes, or one that was loud already, changes its record and nothing else. */
  lemma RecordChangeKeepsInv(cfg: Config, s: State, t: int, th: Thread)
    requires Good(cfg) && Inv(cfg, s) && InRange(s, t)
    requires var s' := s.(threads := s.threads[t := th]);
             && RunningOk(s'.threads[s.current])
             && ThreadOk(cfg, s.sem, WindowOpen(s'), t, th)
             && HandsOver(cfg, s', t)
             && (WindowOpen(s) ==> WindowOpen(s') || forall u | 0 <= u < |s.threads| :: !s.threads[u].waiting)
    requires Loud(cfg, s.sem, t, th) ==> Loud(cfg, s.sem, t, s.threads[t])
    requires t == s.current ==>
               Finishing(s.sem, t, th) || forall a | 0 <= a < |s.threads| && Loud(cfg, s.sem, a, s.threads[a]) :: a == t
    requires Parked(s.threads[t].pc) ==> Parked(th.pc) && (!cfg.spurious && s.threads[t].asleep ==> th.asleep)
    ensures Inv(cfg, s.(threads := s.threads[t := th]))
  {
    var s' := s.(threads := s.threads[t := th]);
    forall u | 0 <= u < |s.threads|
      ensures ThreadOk(cfg, s'.sem, WindowOpen(s'), u, s'.threads[u])
    {
      assert ThreadOk(cfg, s.sem, WindowOpen(s), u, s.threads[u]);
    }
    forall u | 0 <= u < |s.threads|
      ensures HandsOver(cfg, s', u)
    {
      assert HandsOver(cfg, s, u);
    }
  }

  /** When findNextWaitingFor finds nobody, nobody waits: waiters are at the ceiling, above idle. */
  lemma NobodyFound(cfg: Config, s: State)
    requires Inv(cfg, s) && Finds(s, NONE)
    ensures forall u | 0 <= u < |s.threads| :: !s.threads[u].waiting
  {
    forall u | 0 <= u < |s.threads|
      ensures !s.threads[u].waiting
    {
      assert ThreadOk(cfg, s.sem, WindowOpen(s), u, s.threads[u]);
      assert ThreadOk(cfg, s.sem, WindowOpen(s), 0, s.threads[0]);
    }
  }

  lemma SearchedOk(cfg: Config, sem: Sem, id: int, th: Thread, w: int)
    requires ThreadOk(cfg, sem, true, id, th) && th.pc.FindWaiter? && id != 0
    ensures ThreadOk(cfg, sem, w != NONE, id, Searched(th, w)) && RunningOk(Searched(th, w)) && Loud(cfg, sem, id, th)
  {
  }

  lemma FindFits(cfg: Config, s: State, w: int)
    requires Good(cfg) && Inv(cfg, s) && Enabled(cfg, s, Find(w))
    ensures var s' := s.(threads := s.threads[s.current := Searched(s.threads[s.current], w)]);
            HandsOver(cfg, s', s.current) && (w == NONE ==> forall u | 0 <= u < |s.threads| :: !s.threads[u].waiting)
  {
    assert ThreadOk(cfg, s.sem, WindowOpen(s), s.current, s.threads[s.current]);
    if w == NONE {
      NobodyFound(cfg, s);
    } else {
      assert ThreadOk(cfg, s.sem, WindowOpen(s), w, s.threads[w]);
    }
  }

  lemma FindKeepsInv(cfg: Config, s: State, w: int)
    requires Good(cfg) && Inv(cfg, s) && Enabled(cfg, s, Find(w))
    ensures Inv(cfg, Next(cfg, s, Find(w)))
  {
    var me := s.threads[s.current];
    assert ThreadOk(cfg, s.sem, WindowOpen(s), s.current, me);
    SearchedOk(cfg, s.sem, s.current, me, w);
    FindFits(cfg, s, w);
    LoudIsRunning(cfg, s);
    RecordChangeKeepsInv(cfg, s, s.current, Searched(me, w));
  }

  lemma UserKeepsInv(cfg: Config, s: State, c: Choice)
    requires Good(cfg) && Inv(cfg, s) && Enabled(cfg, s, c) && (c.CallEnter? || c.CallLeave? || c.Sleep?)
    ensures Inv(cfg, Next(cfg, s, c))
  {
    var me := s.threads[s.current];
    assert ThreadOk(cfg, s.sem, WindowOpen(s), s.current, me);
    var th := Next(cfg, s, c).threads[s.current];
    LoudIsRunning(cfg, s);
    RecordChangeKeepsInv(cfg, s, s.current, th);
  }

  lemma WokenOk(cfg: Config, sem: Sem, window: bool, id: int, th: Thread)
    requires ThreadOk(cfg, sem, window, id, th)
    requires th.waiting ==> cfg.spurious && (cfg.atSleep || !th.pc.FallAsleep?)
    ensures ThreadOk(cfg, sem, window, id, Woken(th))
    ensures Good(cfg) && Loud(cfg, sem, id, Woken(th)) ==> Loud(cfg, sem, id, th)
    ensures Finishing(sem, id, th) ==> Finishing(sem, id, Woken(th))
  {
  }

  lemma AfterYieldOk(cfg: Config, sem: Sem, window: bool, id: int, th: Thread)
    requires ThreadOk(cfg, sem, window, id, th) && AtYield(th.pc) && id != 0
    ensures ThreadOk(cfg, sem, window, id, AfterYield(th))
    ensures Loud(cfg, sem, id, AfterYield(th)) ==> Loud(cfg, sem, id, th)
  {
  }

  lemma WakeKeepsInv(cfg: Config, s: State, c: Choice)
    requires Good(cfg) && Inv(cfg, s) && Enabled(cfg, s, c) && (c.Wake? || c.Resume?)
    ensures Inv(cfg, Next(cfg, s, c))
  {
    var t := c.thread;
    var th := s.threads[t];
    assert ThreadOk(cfg, s.sem, WindowOpen(s), t, th) && HandsOver(cfg, s, t);
    WokenOk(cfg, s.sem, WindowOpen(s), t, th);
    assert Next(cfg, s, c) == s.(threads := s.threads[t := Woken(th)]);
    if t == s.current && !Finishing(s.sem, t, th) {
      LoudIsRunning(cfg, s);
    }
    RecordChangeKeepsInv(cfg, s, t, Woken(th));
  }

  /** A thread that is running outside enter's scope and is not about to yield sees no loud thread but itself. */
  lemma LoudIsRunning(cfg: Config, s: State)
    requires ShapeOk(cfg, s) && ThreadsOk(cfg, s) && OneLoud(cfg, s)
    requires !Finishing(s.sem, s.current, s.threads[s.current])
    ensures forall a | 0 <= a < |s.threads| && Loud(cfg, s.sem, a, s.threads[a]) :: a == s.current
  {
  }

  /** Changing only which thread runs. */
  lemma SwitchKeepsInv(cfg: Config, s: State, t: int)
    requires Good(cfg) && Inv(cfg, s) && Picks(s, t)
    requires cfg.roundRobin || t == s.current || !Loud(cfg, s.sem, s.current, s.threads[s.current])
    ensures Inv(cfg, s.(current := t))
  {
    var s' := s.(current := t);
    var me := s.threads[s.current];
    assert ThreadOk(cfg, s.sem, WindowOpen(s), s.current, me);
    forall a | 0 <= a < |s.threads| && Loud(cfg, s.sem, a, s.threads[a])
      ensures a == t || (cfg.roundRobin && Finishing(s.sem, t, s.threads[t]))
      ensures WindowOpen(s) ==> t == s.current
    {
      PickedWithLoud(cfg, s, a, t);
    }
    assert WindowOpen(s) ==> Loud(cfg, s.sem, s.current, me);
    forall u | 0 <= u < |s.threads|
      ensures ThreadOk(cfg, s'.sem, WindowOpen(s'), u, s'.threads[u]) && HandsOver(cfg, s', u)
    {
      assert ThreadOk(cfg, s.sem, WindowOpen(s), u, s.threads[u]) && HandsOver(cfg, s, u);
    }
  }

  /** The end of the call of yield, in a thread's record. */
  lemma AfterYieldPoints(th: Thread)
    requires AtYield(th.pc)
    ensures var th' := AfterYield(th);
            && !Window(th.pc) && !Window(th'.pc) && !th'.pc.HandOver? && !th'.pc.ResumeWaiter?
            && th'.asleep == th.asleep && (Parked(th.pc) ==> Parked(th'.pc))
  {
  }

  /** What a thread that returns from yield has to satisfy. */
  lemma ReturnFits(cfg: Config, s: State, o: int)
    requires Good(cfg) && Inv(cfg, s) && InRange(s, o) && AtYield(s.threads[o].pc)
    requires !s.threads[s.current].asleep
    ensures var th := AfterYield(s.threads[o]);
            && ThreadOk(cfg, s.sem, WindowOpen(s), o, th)
            && (Loud(cfg, s.sem, o, th) ==> Loud(cfg, s.sem, o, s.threads[o]))
  {
    assert ThreadOk(cfg, s.sem, WindowOpen(s), o, s.threads[o]);
    AfterYieldOk(cfg, s.sem, WindowOpen(s), o, s.threads[o]);
  }

  /** The call of yield is over for thread o, whether or not it is the one that runs now. */
  lemma ReturnKeepsInv(cfg: Config, s: State, o: int)
    requires Good(cfg) && Inv(cfg, s) && InRange(s, o) && AtYield(s.threads[o].pc)
    requires !s.threads[s.current].asleep
    requires o == s.current ==> forall a | 0 <= a < |s.threads| && Loud(cfg, s.sem, a, s.threads[a]) ::
                                  a == o || Finishing(s.sem, o, AfterYield(s.threads[o]))
    ensures Inv(cfg, s.(threads := s.threads[o := AfterYield(s.threads[o])]))
  {
    ReturnFits(cfg, s, o);
    AfterYieldPoints(s.threads[o]);
    RecordChangeKeepsInv(cfg, s, o, AfterYield(s.threads[o]));
  }

  lemma YieldKeepsInv(cfg: Config, s: State, t: int)
    requires Good(cfg) && Inv(cfg, s) && Enabled(cfg, s, Yield(t))
    ensures Inv(cfg, Next(cfg, s, Yield(t)))
  {
    assert ThreadOk(cfg, s.sem, WindowOpen(s), s.current, s.threads[s.current]);
    SwitchKeepsInv(cfg, s, t);
    if t == s.current {
      forall a | 0 <= a < |s.threads| && Loud(cfg, s.sem, a, s.threads[a])
        ensures a == t || Finishing(s.sem, t, AfterYield(s.threads[t]))
      {
        PickedWithLoud(cfg, s, a, t);
      }
    }
    ReturnKeepsInv(cfg, s.(current := t), s.current);
  }

  lemma StepKeepsInv(cfg: Config, s: State, c: Choice)
    requires Good(cfg) && Inv(cfg, s) && Enabled(cfg, s, c)
    ensures Inv(cfg, Next(cfg, s, c))
  {
    match c
    case Exec => ExecKeepsInv(cfg, s);
    case Find(w) => FindKeepsInv(cfg, s, w);
    case CallEnter | CallLeave | Sleep => UserKeepsInv(cfg, s, c);
    case Wake(_) | Resume(_) => WakeKeepsInv(cfg, s, c);
    case Switch(t) =>
      assert ThreadOk(cfg, s.sem, WindowOpen(s), s.current, s.threads[s.current]);
      SwitchKeepsInv(cfg, s, t);
    case Yield(t) => YieldKeepsInv(cfg, s, t);
  }

  lemma {:induction false} RunKeepsInv(cfg: Config, s: State, run: seq<Choice>)
    requires Good(cfg) && Inv(cfg, s) && Legal(cfg, s, run)
    ensures Inv(cfg, Run(cfg, s, run))
    decreases |run|
  {
    if run != [] {
      StepKeepsInv(cfg, s, run[0]);
      RunKeepsInv(cfg, Next(cfg, s, run[0]), run[1..]);
    }
  }

  lemma InitialInv(cfg: Config, s: State)
    requires Initial(cfg, s)
    ensures Inv(cfg, s)
  {
    forall t | 0 <= t < |s.threads|
      ensures ThreadOk(cfg, s.sem, WindowOpen(s), t, s.threads[t]) && HandsOver(cfg, s, t)
    {
      assert InitialThread(cfg, s.threads[t]);
    }
  }
}
