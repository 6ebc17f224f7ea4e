/**
  Who gets the semaphore next.

  The semaphore model is completed by the activation stamps that schedule() leaves on threads: the
  scheduler and leave choose among threads of equal priority by them, as in Selection.
*/
module SemaphoreOrder {
  import opened TimeModel
  import opened Selection
  import opened Semaphore
  import opened SemaphoreInvariant
  import opened SemaphoreTheorems

  /** stamps[t] is thread t's lastActivation. */
  datatype Stamped = Stamped(s: State, stamps: seq<int>, counter: int)

  function TcbOf(th: Thread, stamp: int): Tcb {
    Tcb(th.priority, if th.asleep then END_OF_TIME else 0, stamp, if th.waiting then 1 else 0)
  }

  /** The threads as findNextToRun and findNextWaitingFor see them; the semaphore is signaler 1. */
  function View(x: Stamped): (v: seq<Tcb>)
    requires |x.stamps| == |x.s.threads|
    ensures |v| == |x.s.threads|
  {
    seq(|x.stamps|, i requires 0 <= i < |x.stamps| => TcbOf(x.s.threads[i], x.stamps[i]))
  }

  /** What findNextWaitingFor may answer. */
  predicate Found(v: seq<Tcb>, w: int) {
    if w == NONE then forall i | 0 < i < |v| && v[i].waitingFor == 1 :: Precedes(v, 0, 0, i)
    else IsBestWaiter(v, 0, 1, w)
  }

  predicate StampedEnabled(cfg: Config, x: Stamped, c: Choice) {
    && |x.stamps| == |x.s.threads| > 0
    && Enabled(cfg, x.s, c)
    && match c
       case Switch(t) => t == Pick(View(x), 0, 1)
       case Yield(t) => t == Pick(View(x), 0, 1)
       case Find(w) => Found(View(x), w)
       case _ => true
  }

  /** A tick that switches calls schedule(); a yield does so only if another thread is to run. */
  function StampedNext(cfg: Config, x: Stamped, c: Choice): Stamped
    requires StampedEnabled(cfg, x, c)
  {
    var s := Next(cfg, x.s, c);
    if (c.Switch? || (c.Yield? && c.next != x.s.current)) && 0 <= c.next < |x.stamps| then
      Stamped(s, x.stamps[c.next := x.counter + 1], x.counter + 1)
    else Stamped(s, x.stamps, x.counter)
  }

  predicate StampedLegal(cfg: Config, x: Stamped, run: seq<Choice>)
    decreases |run|
  {
    run == [] || (StampedEnabled(cfg, x, run[0]) && StampedLegal(cfg, StampedNext(cfg, x, run[0]), run[1..]))
  }

  function StampedRun(cfg: Config, x: Stamped, run: seq<Choice>): Stamped
    requires StampedLegal(cfg, x, run)
    decreases |run|
  {
    if run == [] then x else StampedRun(cfg, StampedNext(cfg, x, run[0]), run[1..])
  }

  /** Every run with stamps is a run of the semaphore. */
  lemma {:induction false} Forget(cfg: Config, x: Stamped, run: seq<Choice>)
    requires StampedLegal(cfg, x, run)
    ensures Legal(cfg, x.s, run) && StampedRun(cfg, x, run).s == Run(cfg, x.s, run)
    decreases |run|
  {
    if run != [] {
      Forget(cfg, StampedNext(cfg, x, run[0]), run[1..]);
    }
  }

  /** The scheduler's choice is one that the semaphore model allows, whenever idle is ready. */
  lemma SchedulerPicks(x: Stamped)
    requires 0 < |x.stamps| == |x.s.threads| && !x.s.threads[0].asleep
    ensures Picks(x.s, Pick(View(x), 0, 1))
  {
    var v := View(x);
    var w := Pick(v, 0, 1);
    PickIsTheBest(v, 0, 1, w);
    forall u | 0 <= u < |x.stamps| && !x.s.threads[u].asleep
      ensures x.s.threads[u].priority <= x.s.threads[w].priority
    {
      assert Ready(v[u], 1);
      assert u != w ==> Precedes(v, 0, w, u);
    }
  }

  /** So is the answer of leave's search, when idle does not wait. */
  lemma SearchFinds(x: Stamped, w: int)
    requires 0 < |x.stamps| == |x.s.threads| && !x.s.threads[0].waiting && Found(View(x), w)
    ensures Finds(x.s, w)
  {
    var v := View(x);
    assert w != NONE ==> Precedes(v, 0, w, 0) && v[w].waitingFor == 1;
    forall u | 0 < u < |x.stamps| && x.s.threads[u].waiting
      ensures x.s.threads[u].priority <= x.s.threads[if w == NONE then 0 else w].priority
    {
      assert v[u].waitingFor == 1;
    }
  }

  // ------------------------------------------------------------------ who is next

  /** w waits, and every other waiter was activated later, or at the same count and stands behind it. */
  predicate LongestWaiting(x: Stamped, w: int) {
    && |x.stamps| == |x.s.threads| && 0 < w < |x.stamps| && x.s.threads[w].waiting
    && forall u | 0 < u < |x.stamps| && u != w && x.s.threads[u].waiting :: Earlier(0, w, x.stamps[w], u, x.stamps[u])
  }

  /** No waiter entered with a higher priority than w. */
  predicate MostImportant(s: State, w: int) {
    && 0 <= w < |s.threads|
    && forall u | 0 < u < |s.threads| && s.threads[u].waiting ::
         s.threads[u].frame.callerPriority <= s.threads[w].frame.callerPriority
  }

  lemma FoundIsLongest(cfg: Config, x: Stamped, w: int)
    requires Inv(cfg, x.s) && |x.stamps| == |x.s.threads| && Found(View(x), w) && w != NONE
    ensures LongestWaiting(x, w)
  {
    var v := View(x);
    assert v[w].waitingFor == 1;
    forall u | 0 < u < |x.stamps| && u != w && x.s.threads[u].waiting
      ensures Earlier(0, w, x.stamps[w], u, x.stamps[u])
    {
      assert v[u].waitingFor == 1 && Precedes(v, 0, w, u);
      assert ThreadOk(cfg, x.s.sem, WindowOpen(x.s), w, x.s.threads[w]);
      assert ThreadOk(cfg, x.s.sem, WindowOpen(x.s), u, x.s.threads[u]);
    }
  }

  lemma OneLongest(x: Stamped, v: int, w: int)
    requires LongestWaiting(x, v) && LongestWaiting(x, w)
    ensures v == w
  {
  }

  // ------------------------------------------------------------------ in which order they fell asleep

  /** The log of threads going to sleep in enter's loop, after one more step. */
  function SleptAfter(x: Stamped, c: Choice, log: seq<int>): seq<int> {
    if InRange(x.s, x.s.current) && c.Exec? && x.s.threads[x.s.current].pc.FallAsleep? then log + [x.s.current] else log
  }

  function Slept(cfg: Config, x: Stamped, run: seq<Choice>, log: seq<int>): seq<int>
    requires StampedLegal(cfg, x, run)
    decreases |run|
  {
    if run == [] then log else Slept(cfg, StampedNext(cfg, x, run[0]), run[1..], SleptAfter(x, run[0], log))
  }

  /** Where t stands in the log for the last time. */
  function LastIn(log: seq<int>, t: int): (k: int)
    ensures -1 <= k < |log| && (k >= 0 ==> log[k] == t)
    ensures forall i | k < i < |log| :: log[i] != t
  {
    if log == [] then -1 else if log[|log| - 1] == t then |log| - 1 else LastIn(log[..|log| - 1], t)
  }

  lemma LastInSnoc(log: seq<int>, v: int, t: int)
    ensures LastIn(log + [v], t) == if v == t then |log| else LastIn(log, t)
  {
    assert (log + [v])[..|log|] == log;
  }

  predicate Queued(th: Thread) {
    th.waiting && Parked(th.pc)
  }

  /** Of two sleeping waiters the one that fell asleep first has the smaller stamp; the running thread has the greatest. */
  predicate InOrder(x: Stamped, log: seq<int>) {
    && |x.stamps| == |x.s.threads| && InRange(x.s, x.s.current)
    && (forall u | 0 <= u < |x.stamps| :: x.stamps[u] <= x.counter)
    && (forall u | 0 <= u < |x.stamps| && u != x.s.current && !x.s.threads[u].pc.User? ::
          x.stamps[u] < x.stamps[x.s.current])
    && (forall u | 0 <= u < |x.stamps| && Queued(x.s.threads[u]) :: LastIn(log, u) >= 0)
    && (forall u, v | 0 <= u < |x.stamps| && 0 <= v < |x.stamps| && Queued(x.s.threads[u]) && Queued(x.s.threads[v])
                      && LastIn(log, u) < LastIn(log, v) :: x.stamps[u] < x.stamps[v])
  }

  lemma SleepKeepsOrder(cfg: Config, x: Stamped, log: seq<int>)
    requires Inv(cfg, x.s) && StampedEnabled(cfg, x, Exec) && InOrder(x, log) && x.s.threads[x.s.current].pc.FallAsleep?
    ensures InOrder(StampedNext(cfg, x, Exec), SleptAfter(x, Exec, log))
  {
    var y, log' := StampedNext(cfg, x, Exec), log + [x.s.current];
    forall u | 0 <= u < |x.stamps|
      ensures LastIn(log', u) == (if u == x.s.current then |log| else LastIn(log, u))
      ensures u != x.s.current ==> y.s.threads[u] == x.s.threads[u]
    {
      LastInSnoc(log, x.s.current, u);
    }
  }

  lemma OwnStepQueuesNobody(cfg: Config, sem: Sem, id: int, th: Thread)
    requires !th.pc.FallAsleep? && Queued(ExecThread(cfg, sem, id, th))
    ensures Queued(th)
  {
  }

  lemma ExecQueuesNobody(cfg: Config, s: State, u: int)
    requires InRange(s, s.current) && !s.threads[s.current].pc.FallAsleep? && 0 <= u < |s.threads|
    requires Queued(ExecState(cfg, s).threads[u])
    ensures Queued(s.threads[u])
  {
    if u == s.current {
      OwnStepQueuesNobody(cfg, s.sem, u, s.threads[u]);
    }
  }

  /** A sleeping waiter is not ready. */
  lemma QueuedSleeps(cfg: Config, s: State, t: int)
    requires Inv(cfg, s) && Picks(s, t)
    ensures !Queued(s.threads[t])
  {
    assert ThreadOk(cfg, s.sem, WindowOpen(s), t, s.threads[t]);
  }

  lemma SchedulingQueuesNobody(cfg: Config, x: Stamped, c: Choice, u: int)
    requires Inv(cfg, x.s) && StampedEnabled(cfg, x, c) && 0 <= u < |x.stamps| && (c.Switch? || c.Yield?)
    ensures var y := StampedNext(cfg, x, c);
            && |y.stamps| == |y.s.threads| == |x.stamps|
            && (Queued(y.s.threads[u]) ==> Queued(x.s.threads[u]) && y.stamps[u] == x.stamps[u])
  {
    QueuedSleeps(cfg, x.s, c.next);
  }

  /** Any step but going to sleep queues nobody, and no sleeper is activated. */
  lemma OtherStepsQueueNobody(cfg: Config, x: Stamped, c: Choice, u: int)
    requires Inv(cfg, x.s) && StampedEnabled(cfg, x, c) && 0 <= u < |x.stamps|
    requires !(c.Exec? && x.s.threads[x.s.current].pc.FallAsleep?)
    ensures var y := StampedNext(cfg, x, c);
            && |y.stamps| == |y.s.threads| == |x.stamps|
            && (Queued(y.s.threads[u]) ==> Queued(x.s.threads[u]) && y.stamps[u] == x.stamps[u])
  {
    match c
    case Exec =>
      if Queued(ExecState(cfg, x.s).threads[u]) {
        ExecQueuesNobody(cfg, x.s, u);
      }
    case Switch(_) => SchedulingQueuesNobody(cfg, x, c, u);
    case Yield(_) => SchedulingQueuesNobody(cfg, x, c, u);
    case _ =>
  }

  lemma StepKeepsStamps(cfg: Config, x: Stamped, c: Choice, log: seq<int>)
    requires Inv(cfg, x.s) && StampedEnabled(cfg, x, c) && InOrder(x, log)
    ensures var y := StampedNext(cfg, x, c);
            && |y.stamps| == |y.s.threads| == |x.stamps| && InRange(y.s, y.s.current)
            && (forall u | 0 <= u < |y.stamps| :: y.stamps[u] <= y.counter)
            && (forall u | 0 <= u < |y.stamps| && u != y.s.current && !y.s.threads[u].pc.User? ::
                  y.stamps[u] < y.stamps[y.s.current])
  {
  }

  lemma StepKeepsOrder(cfg: Config, x: Stamped, c: Choice, log: seq<int>)
    requires Inv(cfg, x.s) && StampedEnabled(cfg, x, c) && InOrder(x, log)
    ensures InOrder(StampedNext(cfg, x, c), SleptAfter(x, c, log))
  {
    if c.Exec? && x.s.threads[x.s.current].pc.FallAsleep? {
      SleepKeepsOrder(cfg, x, log);
    } else {
      StepKeepsStamps(cfg, x, c, log);
      forall u | 0 <= u < |x.stamps|
        ensures var y := StampedNext(cfg, x, c);
                Queued(y.s.threads[u]) ==> Queued(x.s.threads[u]) && y.stamps[u] == x.stamps[u]
      {
        OtherStepsQueueNobody(cfg, x, c, u);
      }
    }
  }

  lemma {:induction false} RunKeepsOrder(cfg: Config, x: Stamped, run: seq<Choice>, log: seq<int>)
    requires Good(cfg) && Inv(cfg, x.s) && StampedLegal(cfg, x, run) && InOrder(x, log)
    ensures InOrder(StampedRun(cfg, x, run), Slept(cfg, x, run, log))
    decreases |run|
  {
    if run != [] {
      StepKeepsInv(cfg, x.s, run[0]);
      StepKeepsOrder(cfg, x, run[0], log);
      RunKeepsOrder(cfg, StampedNext(cfg, x, run[0]), run[1..], SleptAfter(x, run[0], log));
    }
  }

  /** No stamp lies ahead of the counter. */
  predicate StampsPast(x: Stamped) {
    |x.stamps| == |x.s.threads| && forall u | 0 <= u < |x.stamps| :: x.stamps[u] <= x.counter
  }

  /** While leave searches, every waiter is asleep. */
  lemma WaitersAreQueued(cfg: Config, s: State, u: int)
    requires Inv(cfg, s) && s.threads[s.current].pc.FindWaiter? && 0 <= u < |s.threads| && s.threads[u].waiting
    ensures Queued(s.threads[u])
  {
    assert ThreadOk(cfg, s.sem, WindowOpen(s), u, s.threads[u]);
    assert ThreadOk(cfg, s.sem, WindowOpen(s), s.current, s.threads[s.current]);
  }

  /** w waits, and every other waiter went to sleep after it. */
  predicate FirstAsleep(s: State, log: seq<int>, w: int) {
    && 0 < w < |s.threads| && s.threads[w].waiting
    && forall u | 0 < u < |s.threads| && u != w && s.threads[u].waiting :: 0 <= LastIn(log, w) < LastIn(log, u)
  }

  /**
    First come, first served: leave hands the semaphore to the waiter that has gone without activation
    for longest, and that is the one that fell asleep in the loop before all others.  So the header's
    promise, "selected according to priorities", plays no part in it.
  */
  lemma HandsOverToLongestWaiting(cfg: Config, x: Stamped, run: seq<Choice>, w: int)
    requires Good(cfg) && Initial(cfg, x.s) && StampsPast(x) && StampedLegal(cfg, x, run)
    requires StampedEnabled(cfg, StampedRun(cfg, x, run), Find(w)) && w != NONE
    ensures var e := StampedRun(cfg, x, run);
            && (forall v :: LongestWaiting(e, v) <==> v == w)
            && (forall v :: FirstAsleep(e.s, Slept(cfg, x, run, []), v) <==> v == w)
  {
    ReachesOrder(cfg, x, run);
    var e := StampedRun(cfg, x, run);
    FoundIsLongest(cfg, e, w);
    LongestIsFirst(cfg, e, Slept(cfg, x, run, []), w);
    forall v | LongestWaiting(e, v)
      ensures v == w
    {
      OneLongest(e, v, w);
    }
  }

  lemma ReachesOrder(cfg: Config, x: Stamped, run: seq<Choice>)
    requires Good(cfg) && Initial(cfg, x.s) && StampsPast(x) && StampedLegal(cfg, x, run)
    ensures Inv(cfg, StampedRun(cfg, x, run).s) && InOrder(StampedRun(cfg, x, run), Slept(cfg, x, run, []))
  {
    Forget(cfg, x, run);
    InitialInv(cfg, x.s);
    RunKeepsInv(cfg, x.s, run);
    StartsInOrder(cfg, x);
    RunKeepsOrder(cfg, x, run, []);
  }

  lemma StartsInOrder(cfg: Config, x: Stamped)
    requires Initial(cfg, x.s) && StampsPast(x)
    ensures InOrder(x, [])
  {
  }

  lemma LongestIsFirst(cfg: Config, x: Stamped, log: seq<int>, w: int)
    requires Inv(cfg, x.s) && x.s.threads[x.s.current].pc.FindWaiter? && InOrder(x, log) && LongestWaiting(x, w)
    ensures forall v :: FirstAsleep(x.s, log, v) <==> v == w
  {
    WaitersAreQueued(cfg, x.s, w);
    forall u | 0 < u < |x.s.threads| && u != w && x.s.threads[u].waiting
      ensures 0 <= LastIn(log, w) < LastIn(log, u)
    {
      WaitersAreQueued(cfg, x.s, u);
      assert Earlier(0, w, x.stamps[w], u, x.stamps[u]);
    }
  }
}
