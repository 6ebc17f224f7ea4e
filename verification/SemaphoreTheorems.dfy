/**
  What the semaphore guarantees, and exactly under which surroundings.

  Mutual exclusion and the nesting count hold in all runs if and only if it is not the case that
  ticks switch between threads at the ceiling priority and, at the same time, waiting threads may be
  resumed by others.  That no thread stays asleep on a free semaphore needs, in addition, that no such
  resume lands between the two stores of suspendCallerUntil.
*/
module SemaphoreTheorems {
  import opened Semaphore
  import opened SemaphoreInvariant
  import opened SemaphoreTrio

  /** Is thread t between a returned enter and the matching leave? */
  predicate Inside(s: State, t: int)
    requires InRange(s, t)
  {
    s.threads[t].depth > 0
  }

  predicate MutuallyExclusive(s: State) {
    forall a, b | 0 <= a < |s.threads| && 0 <= b < |s.threads| && Inside(s, a) && Inside(s, b) :: a == b
  }

  /** Outside enter and leave, ownerEnterCnt is the owner's nesting depth. */
  predicate Counted(s: State) {
    forall t | 0 <= t < |s.threads| && Inside(s, t) && s.threads[t].pc.User? ::
      s.sem.owner == t && s.sem.count == s.threads[t].depth
  }

  /** Whoever leave resumes owns the semaphore already. */
  predicate ResumesTheOwner(s: State) {
    forall t | 0 <= t < |s.threads| && s.threads[t].pc.ResumeWaiter? :: s.sem.owner == s.threads[t].frame.waiter
  }

  predicate Safe(s: State) {
    MutuallyExclusive(s) && Counted(s) && ResumesTheOwner(s)
  }

  /** On a free semaphore nobody sleeps inside enter. */
  predicate NobodyStranded(s: State) {
    Free(s) ==> forall t | 0 <= t < |s.threads| :: !(s.threads[t].asleep && Parked(s.threads[t].pc))
  }

  ghost predicate AlwaysSafe(cfg: Config) {
    forall s, run | Initial(cfg, s) && Legal(cfg, s, run) :: Safe(Run(cfg, s, run))
  }

  ghost predicate NeverStrands(cfg: Config) {
    forall s, run | Initial(cfg, s) && Legal(cfg, s, run) :: NobodyStranded(Run(cfg, s, run))
  }

  lemma InvSafe(cfg: Config, s: State)
    requires Inv(cfg, s)
    ensures Safe(s)
  {
    forall t | 0 <= t < |s.threads|
      ensures s.threads[t].depth > 0 ==> s.sem.owner == t
      ensures s.threads[t].depth > 0 && s.threads[t].pc.User? ==> s.sem.count == s.threads[t].depth
      ensures s.threads[t].pc.ResumeWaiter? ==> s.sem.owner == s.threads[t].frame.waiter
    {
      assert ThreadOk(cfg, s.sem, WindowOpen(s), t, s.threads[t]) && HandsOver(cfg, s, t);
    }
  }

  lemma InvNobodyStranded(cfg: Config, s: State)
    requires Inv(cfg, s) && !(cfg.spurious && cfg.atSleep)
    ensures NobodyStranded(s)
  {
    if Free(s) {
      forall t | 0 <= t < |s.threads|
        ensures !(s.threads[t].asleep && Parked(s.threads[t].pc))
      {
        assert ThreadOk(cfg, s.sem, WindowOpen(s), t, s.threads[t]);
      }
    }
  }

  /** Mutual exclusion, the nesting count and the hand-off hold in every run, exactly in good surroundings. */
  lemma SafeExactlyWhenGood(cfg: Config)
    requires cfg.ceiling > 0
    ensures AlwaysSafe(cfg) <==> !(cfg.roundRobin && cfg.spurious)
  {
    if Good(cfg) {
      forall s, run | Initial(cfg, s) && Legal(cfg, s, run)
        ensures Safe(Run(cfg, s, run))
      {
        InitialInv(cfg, s);
        RunKeepsInv(cfg, s, run);
        InvSafe(cfg, Run(cfg, s, run));
      }
    } else {
      var s := TwoInside(cfg);
      var run :| Legal(cfg, Start(), run) && Run(cfg, Start(), run) == s;
      assert Inside(s, 1) && Inside(s, 2);
      assert !Safe(Run(cfg, Start(), run));
    }
  }

  /** No thread is ever left asleep on a free semaphore, exactly in these surroundings. */
  lemma NeverStrandsExactlyWhen(cfg: Config)
    requires cfg.ceiling > 0
    ensures NeverStrands(cfg) <==> !cfg.spurious || (!cfg.roundRobin && !cfg.atSleep)
  {
    if !cfg.spurious || (!cfg.roundRobin && !cfg.atSleep) {
      forall s, run | Initial(cfg, s) && Legal(cfg, s, run)
        ensures NobodyStranded(Run(cfg, s, run))
      {
        InitialInv(cfg, s);
        RunKeepsInv(cfg, s, run);
        InvNobodyStranded(cfg, Run(cfg, s, run));
      }
    } else {
      var s;
      if cfg.atSleep {
        s := StrandedByLateResume(cfg);
      } else {
        s := StrandedByPreemption(cfg);
      }
      var run :| Legal(cfg, Start(), run) && Run(cfg, Start(), run) == s;
      assert s.threads[2].asleep && Parked(s.threads[2].pc);
      assert !NobodyStranded(Run(cfg, Start(), run));
    }
  }

  /**
    Priority restoration: out of the semaphore a thread has the priority that its latest enter read,
    so it has the priority of its outermost enter exactly when that latest enter was not a re-entry
    at another (boosted) priority.
  */
  lemma PriorityRestored(cfg: Config, s: State, run: seq<Choice>, t: int)
    requires Good(cfg) && Initial(cfg, s) && Legal(cfg, s, run)
    requires var e := Run(cfg, s, run); InRange(e, t) && e.threads[t].pc.User? && !Inside(e, t)
    ensures var th := Run(cfg, s, run).threads[t];
            && th.priority == th.frame.callerPriority
            && (th.priority == th.base <==> !th.spoiled)
  {
    InitialInv(cfg, s);
    RunKeepsInv(cfg, s, run);
    var e := Run(cfg, s, run);
    assert ThreadOk(cfg, e.sem, WindowOpen(e), t, e.threads[t]);
  }

  /**
    The header says that the next owner is selected by priority.  It is not: all waiters sleep at the
    ceiling, so whenever leave looks for the next owner their priorities are equal.
  */
  lemma WaitersTie(cfg: Config, s: State, run: seq<Choice>, a: int, b: int)
    requires Good(cfg) && Initial(cfg, s) && Legal(cfg, s, run)
    requires var e := Run(cfg, s, run);
             InRange(e, a) && InRange(e, b) && e.threads[a].waiting && e.threads[b].waiting
    ensures var e := Run(cfg, s, run); e.threads[a].priority == e.threads[b].priority == cfg.ceiling
  {
    InitialInv(cfg, s);
    RunKeepsInv(cfg, s, run);
    var e := Run(cfg, s, run);
    assert ThreadOk(cfg, e.sem, WindowOpen(e), a, e.threads[a]);
    assert ThreadOk(cfg, e.sem, WindowOpen(e), b, e.threads[b]);
  }
}
