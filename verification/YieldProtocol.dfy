/**
  Thread::yield against the timer tick (src/bare-metal-generic/thread_on_hw.cpp and scheduler.cpp).

  yield walks the thread list without any lock, and hands its choice to the scheduler as a
  "preselection" if it believes that no scheduling event came in between.  Here every statement of
  yield, and every iteration of its list walk, is a step; ticks, resumes from interrupts and the
  passing of time fall between any two steps.  The scheduler itself is one step: it runs with
  interrupts off.
*/
module YieldProtocol {
  import opened TimeModel
  import opened Selection
  import opened BoundedWaiting

  const NOBODY := -1

  /** The statement of yield that a thread executes next. */
  datatype Pc =
    | User              // not in yield
    | ResetTime         // timeToTryAgainToSchedule.store(0)
    | ReadCounter       // startScheduleCounter = getScheduleCounter()
    | StartWalk         // entry of findNextToRun: candidate, bound and the time
    | Walking           // one list element of findNextToRun
    | CheckCounter      // if(startScheduleCounter != currentScheduleCounter) return
    | CheckSelf         // if(preselection == getCurrentThread()) return
    | TakeLock          // yieldSchedulingLock = true
    | StopTimer         // Timer::stop()
    | Recheck           // if(startScheduleCounter == getScheduleCounter())
    | StoreChoice       // preSelectedNextToRun = preselection
    | StoreBound        // preSelectedEarliestSuspendedUntil = selectedEarliestSuspendedUntil
    | CallScheduler     // __asmSaveContextAndCallScheduler()

  /** A thread's locals in yield; `seen` (what the walk has read) and `reset` (the counter at ResetTime) are history. */
  datatype Local = Local(pc: Pc, reset: int, start: int, walk: Walk, walkNow: int, seen: seq<Tcb>)

  datatype Kernel = Kernel(threads: seq<Tcb>, counter: int, now: int, tryAgain: int)

  /** The scheduler's preselection; source, epoch and id are history. */
  datatype Preselection = Preselection(choice: int, bound: int, source: Event, epoch: int, id: int)

  /** Every call of schedule() so far, the preselections they used, and how many were ever stored. */
  datatype History = History(initial: seq<int>, events: seq<Event>, used: seq<int>, stored: int)

  datatype State = State(
    idle: int,
    k: Kernel,
    current: int,
    lock: bool,
    pre: Preselection,
    locals: seq<Local>,
    h: History)

  datatype Choice =
    | Exec                                  // the running thread executes its next statement of yield
    | CallYield
    | Suspend(until: int)                   // the running thread sets its own wake-up time
    | SetPriority(thread: int, priority: int) // the running thread changes a priority
    | Resume(thread: int)                   // from anywhere, also from an interrupt
    | Advance(time: int)                    // time passes
    | Tick

  predicate Locked(pc: Pc) {
    pc.StopTimer? || pc.Recheck? || pc.StoreChoice? || pc.StoreBound? || pc.CallScheduler?
  }

  predicate ShapeOk(s: State) {
    && |s.k.threads| == |s.locals|
    && 0 <= s.idle < |s.locals|
    && 0 <= s.current < |s.locals|
    && 0 < s.k.now <= END_OF_TIME
    && s.k.counter >= 0
    && (s.pre.choice == NOBODY || 0 <= s.pre.choice < |s.locals|)
    && forall t | 0 <= t < |s.k.threads| :: s.k.threads[t].lastActivation <= s.k.counter
  }

  // ------------------------------------------------------------------ steps

  /** What schedule() selects, and the bound that goes with it. */
  function Selected(s: State): Walk
    requires ShapeOk(s)
  {
    if s.pre.choice != NOBODY then Walk(s.pre.choice, s.pre.bound)
    else Walked(s.k.threads, s.idle, s.k.now, |s.k.threads|)
  }

  /** The walk that the selection came from. */
  function SourceOf(s: State): Event {
    if s.pre.choice != NOBODY then s.pre.source else Event(s.k.threads, s.k.now)
  }

  /** Scheduler::schedule. */
  function Schedule(s: State): State
    requires ShapeOk(s)
  {
    var sel := Selected(s);
    var n := s.k.counter + 1;
    s.(k := Kernel(s.k.threads[sel.candidate := s.k.threads[sel.candidate].(lastActivation := n)], n, s.k.now,
                   Min(sel.earliest, TIME_SLICE_FOR_SAME_PRIORITY + s.k.now)),
       current := sel.candidate,
       pre := s.pre.(choice := NOBODY),
       h := s.h.(events := s.h.events + [SourceOf(s)],
                 used := if s.pre.choice != NOBODY then s.h.used + [s.pre.id] else s.h.used))
  }

  /** schedulerWrapper up to and including Thread::activate, which releases the lock. */
  function Wrapper(s: State): State
    requires ShapeOk(s)
  {
    (if s.k.now < s.k.tryAgain then s else Schedule(s)).(lock := false)
  }

  function WithLocal(s: State, l: Local): State
    requires 0 <= s.current < |s.locals|
  {
    s.(locals := s.locals[s.current := l])
  }

  /** The running thread's locals after one statement that touches nothing else. */
  function LocalStep(s: State, l: Local): Local
    requires ShapeOk(s)
  {
    match l.pc
    case ReadCounter => l.(pc := StartWalk, start := s.k.counter)
    case StartWalk => l.(pc := Walking, walk := Walk(s.idle, END_OF_TIME), walkNow := s.k.now, seen := [])
    case Walking =>
      if |l.seen| >= |s.k.threads| then l.(pc := CheckCounter)
      else if 0 <= l.walk.candidate < |s.k.threads| then
        l.(walk := WalkOne(l.walk, |l.seen|, s.k.threads[|l.seen|], s.k.threads[l.walk.candidate], l.walkNow),
           seen := l.seen + [s.k.threads[|l.seen|]])
      else l
    case CheckCounter => l.(pc := if l.start != s.k.counter then User else CheckSelf)
    case CheckSelf => l.(pc := if l.walk.candidate == s.current then User else TakeLock)
    case StopTimer => l.(pc := Recheck)
    case Recheck => l.(pc := if l.start == s.k.counter then StoreChoice else CallScheduler)
    case _ => l
  }

  predicate Enabled(s: State, c: Choice) {
    ShapeOk(s) &&
    var l := s.locals[s.current];
    match c
    case Exec => true
    case CallYield => l.pc.User?
    case Suspend(_) => l.pc.User?
    case SetPriority(t, _) => l.pc.User? && 0 <= t < |s.locals|
    case Resume(t) => 0 <= t < |s.locals|
    case Advance(time) => s.k.now <= time <= END_OF_TIME
    case Tick => true
  }

  function WithTcb(s: State, t: int, tcb: Tcb): State
    requires 0 <= t < |s.k.threads|
  {
    s.(k := s.k.(threads := s.k.threads[t := tcb]))
  }

  function ExecYield(s: State): State
    requires ShapeOk(s)
  {
    var l := s.locals[s.current];
    match l.pc
    case ResetTime => WithLocal(s, l.(pc := ReadCounter, reset := s.k.counter)).(k := s.k.(tryAgain := 0))
    case TakeLock => WithLocal(s, l.(pc := StopTimer)).(lock := true)
    case StoreChoice =>
      WithLocal(s, l.(pc := StoreBound))
        .(pre := s.pre.(choice := l.walk.candidate, source := Event(l.seen, l.walkNow),
                        epoch := l.start, id := s.h.stored + 1),
          h := s.h.(stored := s.h.stored + 1))
    case StoreBound => WithLocal(s, l.(pc := CallScheduler)).(pre := s.pre.(bound := l.walk.earliest))
    case CallScheduler => Wrapper(WithLocal(s, l.(pc := User)))
    case _ => WithLocal(s, LocalStep(s, l))
  }

  function Next(s: State, c: Choice): State
    requires Enabled(s, c)
  {
    match c
    case Exec => ExecYield(s)
    case CallYield => WithLocal(s, s.locals[s.current].(pc := ResetTime))
    case Suspend(until) => WithTcb(s, s.current, s.k.threads[s.current].(suspendedUntil := until))
    case SetPriority(t, p) => WithTcb(s, t, s.k.threads[t].(priority := p))
    case Resume(t) =>
      s.(k := s.k.(threads := s.k.threads[t := s.k.threads[t].(suspendedUntil := 0, waitingFor := 0)], tryAgain := 0))
    case Advance(time) => s.(k := s.k.(now := time))
    case Tick => if s.lock then s else Wrapper(s)
  }

  predicate Legal(s: State, run: seq<Choice>)
    decreases |run|
  {
    run == [] || (Enabled(s, run[0]) && Legal(Next(s, run[0]), run[1..]))
  }

  function Run(s: State, run: seq<Choice>): State
    requires Legal(s, run)
    decreases |run|
  {
    if run == [] then s else Run(Next(s, run[0]), run[1..])
  }

  function Lasts(threads: seq<Tcb>): (r: seq<int>)
    ensures |r| == |threads| && forall i | 0 <= i < |r| :: r[i] == threads[i].lastActivation
  {
    seq(|threads|, i requires 0 <= i < |threads| => threads[i].lastActivation)
  }

  /** The system as it starts: nobody in yield, nothing preselected, no call of schedule() yet. */
  predicate Initial(s: State) {
    && ShapeOk(s)
    && s.k.counter == 0 && s.k.tryAgain == 0
    && !s.lock
    && s.pre.choice == NOBODY
    && s.h == History(Lasts(s.k.threads), [], [], 0)
    && forall t | 0 <= t < |s.locals| :: s.locals[t].pc.User? && s.locals[t].reset < 0
  }

  // ------------------------------------------------------------------ invariant

  /** From reading the counter on. */
  predicate HasStart(pc: Pc) {
    !pc.User? && !pc.ResetTime? && !pc.ReadCounter?
  }

  predicate HasWalk(pc: Pc) {
    HasStart(pc) && !pc.StartWalk?
  }

  /** What has been read still tells priority and activation of every thread read. */
  predicate SeenOk(threads: seq<Tcb>, seen: seq<Tcb>) {
    && |seen| <= |threads|
    && forall j | 0 <= j < |seen| ::
         seen[j].priority == threads[j].priority && seen[j].lastActivation == threads[j].lastActivation
  }

  /** The walk so far is the walk over what was read, completed by what is still to be read. */
  predicate WalkOk(k: Kernel, idle: int, l: Local)
    requires 0 <= idle < |k.threads|
  {
    && SeenOk(k.threads, l.seen)
    && (forall j | 0 <= j < |l.seen| :: Ready(l.seen[j], l.walkNow) ==> Ready(k.threads[j], l.walkNow))
    && 0 < l.walkNow <= k.now
    && l.walk == Walked(l.seen + k.threads[|l.seen|..], idle, l.walkNow, |l.seen|)
  }

  /** A thread in yield whose counter is still current is the running thread, and its walk is good. */
  predicate LocalOk(k: Kernel, idle: int, current: int, t: int, l: Local)
    requires 0 <= idle < |k.threads|
  {
    && (HasStart(l.pc) ==> l.start <= k.counter)
    && (HasStart(l.pc) && l.start == k.counter ==>
          && t == current
          && (HasWalk(l.pc) ==> WalkOk(k, idle, l))
          && (HasWalk(l.pc) && !l.pc.Walking? ==> |l.seen| == |k.threads|)
          && (l.pc.TakeLock? || Locked(l.pc) ==> l.walk.candidate != t))
    && (l.pc.Walking? ==> 0 <= l.walk.candidate < |k.threads|)
    && (l.pc.StoreChoice? || l.pc.StoreBound? ==> l.start == k.counter)
    && (Locked(l.pc) ==> t == current)
    && l.reset <= k.counter
    && (!l.pc.User? && !l.pc.ResetTime? && l.reset == k.counter ==> k.tryAgain == 0)
  }

  predicate LocalsOk(s: State)
    requires ShapeOk(s)
  {
    forall t | 0 <= t < |s.locals| :: LocalOk(s.k, s.idle, s.current, t, s.locals[t])
  }

  predicate PreOk(s: State)
    requires ShapeOk(s)
  {
    s.pre.choice != NOBODY ==>
      && s.pre.epoch == s.k.counter
      && Matches(s.pre.source.view, Lasts(s.k.threads))
      && 0 < s.pre.source.now <= s.k.now
      && s.pre.choice == Pick(s.pre.source.view, s.idle, s.pre.source.now)
      && s.pre.choice != s.current
      && (s.pre.choice == s.idle || Ready(s.k.threads[s.pre.choice], s.pre.source.now))
      && (if s.locals[s.current].pc.StoreBound? then
            s.pre.source == Event(s.locals[s.current].seen, s.locals[s.current].walkNow)
          else
            s.pre.bound == Walked(s.pre.source.view, s.idle, s.pre.source.now, |s.pre.source.view|).earliest)
  }

  predicate UsedOk(s: State) {
    && (forall i, j | 0 <= i < j < |s.h.used| :: s.h.used[i] < s.h.used[j])
    && (forall i | 0 <= i < |s.h.used| ::
          s.h.used[i] <= s.h.stored && (s.pre.choice != NOBODY ==> s.h.used[i] < s.pre.id))
    && (s.pre.choice != NOBODY ==> s.pre.id <= s.h.stored)
  }

  /** The activation stamps after a series of calls of schedule(). */
  function Replay(lasts: seq<int>, counter: int, idle: int, es: seq<Event>): seq<int>
    decreases |es|
  {
    if es == [] then lasts else Replay(Stamp(lasts, counter, idle, es[0]), counter + 1, idle, es[1..])
  }

  predicate EventsOk(s: State) {
    && |s.h.events| == s.k.counter
    && Consecutive(s.h.initial, 0, s.idle, s.h.events)
    && Replay(s.h.initial, 0, s.idle, s.h.events) == Lasts(s.k.threads)
  }

  predicate LockOk(s: State)
    requires ShapeOk(s)
  {
    s.lock <==> Locked(s.locals[s.current].pc)
  }

  predicate Inv(s: State) {
    ShapeOk(s) && LockOk(s) && LocalsOk(s) && PreOk(s) && UsedOk(s) && EventsOk(s)
  }

  // ------------------------------------------------------------------ every step keeps the invariant

  lemma {:induction false} ConsecutiveSnoc(lasts: seq<int>, counter: int, idle: int, es: seq<Event>, e: Event)
    requires Consecutive(lasts, counter, idle, es) && Matches(e.view, Replay(lasts, counter, idle, es))
    ensures Consecutive(lasts, counter, idle, es + [e])
    ensures Replay(lasts, counter, idle, es + [e]) ==
            Stamp(Replay(lasts, counter, idle, es), counter + |es|, idle, e)
    decreases |es|
  {
    if es == [] {
      assert es + [e] == [e];
      assert [e][1..] == [];
    } else {
      assert (es + [e])[1..] == es[1..] + [e];
      ConsecutiveSnoc(Stamp(lasts, counter, idle, es[0]), counter + 1, idle, es[1..], e);
    }
  }

  /** Threads may have been resumed, and time may have passed. */
  predicate LaterTimes(k: Kernel, k': Kernel) {
    && |k'.threads| == |k.threads| && k'.counter == k.counter && k.now <= k'.now
    && SeenOk(k'.threads, k.threads)
    && (forall j | 0 <= j < |k.threads| ::
          k'.threads[j].suspendedUntil == k.threads[j].suspendedUntil || k'.threads[j].suspendedUntil == 0)
    && (k.tryAgain == 0 ==> k'.tryAgain == 0)
  }

  /** Resumes and the passing of time disturb no walk. */
  lemma TimesKeepLocal(k: Kernel, k': Kernel, idle: int, current: int, t: int, l: Local)
    requires 0 <= idle < |k.threads| && LocalOk(k, idle, current, t, l)
    requires LaterTimes(k, k')
    ensures LocalOk(k', idle, current, t, l)
  {
    if HasWalk(l.pc) && l.start == k.counter {
      var a := l.seen + k.threads[|l.seen|..];
      var b := l.seen + k'.threads[|l.seen|..];
      assert a[..|l.seen|] == l.seen == b[..|l.seen|];
      WalkedFrame(a, b, idle, l.walkNow, |l.seen|);
    }
  }

  lemma TimesKeepInv(s: State, k': Kernel)
    requires Inv(s)
    requires LaterTimes(s.k, k') && k'.now <= END_OF_TIME
    ensures Inv(s.(k := k'))
  {
    assert Lasts(k'.threads) == Lasts(s.k.threads);
    forall t | 0 <= t < |s.locals|
      ensures LocalOk(k', s.idle, s.current, t, s.locals[t])
    {
      TimesKeepLocal(s.k, k', s.idle, s.current, t, s.locals[t]);
    }
  }

  /** schedule() starts a new epoch: every counter read before is out of date, and the preselection is gone. */
  lemma ScheduleKeepsInv(s: State)
    requires ShapeOk(s) && LocalsOk(s) && PreOk(s) && UsedOk(s) && EventsOk(s)
    requires forall t | 0 <= t < |s.locals| :: !Locked(s.locals[t].pc)
    ensures Inv(Schedule(s).(lock := false))
  {
    var s' := Schedule(s).(lock := false);
    var e := SourceOf(s);
    ConsecutiveSnoc(s.h.initial, 0, s.idle, s.h.events, e);
    assert Chosen(e, s.idle) == Selected(s).candidate;
    assert Lasts(s'.k.threads) == Stamp(Lasts(s.k.threads), s.k.counter, s.idle, e);
    forall t | 0 <= t < |s.locals|
      ensures LocalOk(s'.k, s'.idle, s'.current, t, s'.locals[t])
    {
      assert LocalOk(s.k, s.idle, s.current, t, s.locals[t]);
    }
  }

  lemma WrapperKeepsInv(s: State)
    requires ShapeOk(s) && LocalsOk(s) && PreOk(s) && UsedOk(s) && EventsOk(s)
    requires forall t | 0 <= t < |s.locals| :: !Locked(s.locals[t].pc)
    ensures Inv(Wrapper(s))
  {
    if s.k.now >= s.k.tryAgain {
      ScheduleKeepsInv(s);
    }
  }

  /** Only the running thread's locals change. */
  lemma LocalChangeKeepsInv(s: State, l: Local)
    requires ShapeOk(s) && LocalsOk(s) && PreOk(s) && UsedOk(s) && EventsOk(s)
    requires LocalOk(s.k, s.idle, s.current, s.current, l)
    requires !s.locals[s.current].pc.StoreBound? && !l.pc.StoreBound?
    ensures var s' := WithLocal(s, l); ShapeOk(s') && LocalsOk(s') && PreOk(s') && UsedOk(s') && EventsOk(s')
  {
    forall t | 0 <= t < |s.locals|
      ensures LocalOk(s.k, s.idle, s.current, t, WithLocal(s, l).locals[t])
    {
      assert LocalOk(s.k, s.idle, s.current, t, s.locals[t]);
    }
  }

  lemma SameCandidate(threads: seq<Tcb>, seen: seq<Tcb>, a: seq<Tcb>, c: int)
    requires SeenOk(threads, seen) && |seen| < |threads| && a == seen + threads[|seen|..] && 0 <= c < |threads|
    ensures |a| == |threads| && a[|seen|] == threads[|seen|]
    ensures a[c].priority == threads[c].priority && a[c].lastActivation == threads[c].lastActivation
  {
  }

  /** Reading one more element extends the walk. */
  lemma WalkExtends(k: Kernel, idle: int, l: Local)
    requires 0 <= idle < |k.threads| && WalkOk(k, idle, l) && |l.seen| < |k.threads|
    requires 0 <= l.walk.candidate < |k.threads|
    ensures var t := k.threads[|l.seen|];
            var l' := l.(walk := WalkOne(l.walk, |l.seen|, t, k.threads[l.walk.candidate], l.walkNow), seen := l.seen + [t]);
            WalkOk(k, idle, l') && 0 <= l'.walk.candidate < |k.threads|
  {
    var n := |l.seen|;
    var a := l.seen + k.threads[n..];
    assert a == (l.seen + [k.threads[n]]) + k.threads[n + 1..];
    SameCandidate(k.threads, l.seen, a, l.walk.candidate);
    assert Walked(a, idle, l.walkNow, n + 1) == WalkOne(l.walk, n, a[n], a[l.walk.candidate], l.walkNow);
  }

  lemma WalkingKeepsLocal(s: State)
    requires Inv(s) && s.locals[s.current].pc.Walking?
    ensures LocalOk(s.k, s.idle, s.current, s.current, LocalStep(s, s.locals[s.current]))
  {
    var l := s.locals[s.current];
    assert LocalOk(s.k, s.idle, s.current, s.current, l);
    if |l.seen| < |s.k.threads| && l.start == s.k.counter {
      WalkExtends(s.k, s.idle, l);
    }
  }

  lemma StartKeepsLocal(s: State)
    requires Inv(s) && s.locals[s.current].pc.StartWalk?
    ensures LocalOk(s.k, s.idle, s.current, s.current, LocalStep(s, s.locals[s.current]))
  {
    assert LocalOk(s.k, s.idle, s.current, s.current, s.locals[s.current]);
    assert [] + s.k.threads[0..] == s.k.threads;
  }

  /** The tests of yield move on only when they still hold. */
  lemma TestKeepsLocal(s: State)
    requires Inv(s)
    requires var pc := s.locals[s.current].pc;
             pc.User? || pc.ReadCounter? || pc.CheckCounter? || pc.CheckSelf? || pc.StopTimer? || pc.Recheck?
    ensures LocalOk(s.k, s.idle, s.current, s.current, LocalStep(s, s.locals[s.current]))
  {
    var l := s.locals[s.current];
    assert LocalOk(s.k, s.idle, s.current, s.current, l);
    var l' := LocalStep(s, l);
    assert l'.seen == l.seen && l'.walk == l.walk && l'.walkNow == l.walkNow && l'.reset == l.reset;
    assert WalkOk(s.k, s.idle, l) ==> WalkOk(s.k, s.idle, l');
  }

  /** Nobody but the running thread is in the locked part of yield. */
  lemma OnlyRunningLocked(s: State)
    requires ShapeOk(s) && LocalsOk(s)
    ensures forall t | 0 <= t < |s.locals| && t != s.current :: !Locked(s.locals[t].pc)
  {
    forall t | 0 <= t < |s.locals| && t != s.current
      ensures !Locked(s.locals[t].pc)
    {
      assert LocalOk(s.k, s.idle, s.current, t, s.locals[t]);
    }
  }

  lemma ResetKeepsInv(s: State)
    requires Inv(s) && s.locals[s.current].pc.ResetTime?
    ensures Inv(ExecYield(s))
  {
    var l := s.locals[s.current];
    var k' := s.k.(tryAgain := 0);
    TimesKeepInv(s, k');
    assert LocalOk(s.k, s.idle, s.current, s.current, l);
    LocalChangeKeepsInv(s.(k := k'), l.(pc := ReadCounter, reset := s.k.counter));
  }

  /** What the walk of a thread about to store its choice amounts to. */
  lemma FinishedWalk(s: State)
    requires Inv(s)
    requires var l := s.locals[s.current];
             HasWalk(l.pc) && !l.pc.Walking? && l.start == s.k.counter
    ensures var l := s.locals[s.current];
            && |l.seen| == |s.k.threads|
            && Matches(l.seen, Lasts(s.k.threads))
            && l.walk == Walked(l.seen, s.idle, l.walkNow, |l.seen|)
  {
    var l := s.locals[s.current];
    assert LocalOk(s.k, s.idle, s.current, s.current, l);
    assert l.seen + s.k.threads[|l.seen|..] == l.seen;
  }

  predicate OwnStep(pc: Pc) {
    !pc.ResetTime? && !pc.TakeLock? && !pc.StoreChoice? && !pc.StoreBound? && !pc.CallScheduler?
  }

  lemma OwnStepKeepsLocal(s: State)
    requires Inv(s) && OwnStep(s.locals[s.current].pc)
    ensures LocalOk(s.k, s.idle, s.current, s.current, LocalStep(s, s.locals[s.current]))
  {
    var l := s.locals[s.current];
    if l.pc.Walking? {
      WalkingKeepsLocal(s);
    } else if l.pc.StartWalk? {
      StartKeepsLocal(s);
    } else {
      TestKeepsLocal(s);
    }
  }

  lemma OwnStepKeepsLock(s: State)
    requires ShapeOk(s) && OwnStep(s.locals[s.current].pc)
    ensures var l := s.locals[s.current];
            (Locked(l.pc) <==> Locked(LocalStep(s, l).pc)) && !LocalStep(s, l).pc.StoreBound?
  {
  }

  lemma LocalStepKeepsInv(s: State)
    requires Inv(s) && OwnStep(s.locals[s.current].pc)
    ensures Inv(ExecYield(s))
  {
    var l := LocalStep(s, s.locals[s.current]);
    OwnStepKeepsLocal(s);
    OwnStepKeepsLock(s);
    LocalChangeKeepsInv(s, l);
    assert ExecYield(s) == WithLocal(s, l);
  }

  lemma LockKeepsInv(s: State)
    requires Inv(s) && s.locals[s.current].pc.TakeLock?
    ensures Inv(ExecYield(s))
  {
    var l := s.locals[s.current];
    assert LocalOk(s.k, s.idle, s.current, s.current, l);
    LocalChangeKeepsInv(s, l.(pc := StopTimer));
  }

  lemma StoreChoiceKeepsInv(s: State)
    requires Inv(s) && s.locals[s.current].pc.StoreChoice?
    ensures Inv(ExecYield(s))
  {
    var l := s.locals[s.current];
    assert LocalOk(s.k, s.idle, s.current, s.current, l);
    FinishedWalk(s);
    PickIsTheBest(l.seen, s.idle, l.walkNow, l.walk.candidate);
    var s' := ExecYield(s);
    forall t | 0 <= t < |s.locals|
      ensures LocalOk(s'.k, s'.idle, s'.current, t, s'.locals[t])
    {
      assert LocalOk(s.k, s.idle, s.current, t, s.locals[t]);
    }
  }

  lemma StoreBoundKeepsInv(s: State)
    requires Inv(s) && s.locals[s.current].pc.StoreBound?
    ensures Inv(ExecYield(s))
  {
    var l := s.locals[s.current];
    assert LocalOk(s.k, s.idle, s.current, s.current, l);
    FinishedWalk(s);
    var s' := ExecYield(s);
    forall t | 0 <= t < |s.locals|
      ensures LocalOk(s'.k, s'.idle, s'.current, t, s'.locals[t])
    {
      assert LocalOk(s.k, s.idle, s.current, t, s.locals[t]);
    }
  }

  lemma CallKeepsInv(s: State)
    requires Inv(s) && s.locals[s.current].pc.CallScheduler?
    ensures Inv(ExecYield(s))
  {
    var l := s.locals[s.current];
    assert LocalOk(s.k, s.idle, s.current, s.current, l);
    LocalChangeKeepsInv(s, l.(pc := User));
    OnlyRunningLocked(s);
    WrapperKeepsInv(WithLocal(s, l.(pc := User)));
  }

  lemma ExecKeepsInv(s: State)
    requires Inv(s)
    ensures Inv(ExecYield(s))
  {
    match s.locals[s.current].pc
    case ResetTime => ResetKeepsInv(s);
    case TakeLock => LockKeepsInv(s);
    case StoreChoice => StoreChoiceKeepsInv(s);
    case StoreBound => StoreBoundKeepsInv(s);
    case CallScheduler => CallKeepsInv(s);
    case _ => LocalStepKeepsInv(s);
  }

  /** A thread in its own code may change times and priorities: no walk with a current counter exists. */
  lemma UserKeepsInv(s: State, t: int, tcb: Tcb)
    requires Inv(s) && s.locals[s.current].pc.User? && 0 <= t < |s.locals|
    requires tcb.lastActivation == s.k.threads[t].lastActivation
    requires t != s.current ==> tcb.suspendedUntil == s.k.threads[t].suspendedUntil
    ensures Inv(WithTcb(s, t, tcb))
  {
    var s' := WithTcb(s, t, tcb);
    assert Lasts(s'.k.threads) == Lasts(s.k.threads);
    forall u | 0 <= u < |s.locals|
      ensures LocalOk(s'.k, s'.idle, s'.current, u, s'.locals[u])
    {
      assert LocalOk(s.k, s.idle, s.current, u, s.locals[u]);
    }
  }

  lemma StepKeepsInv(s: State, c: Choice)
    requires Inv(s) && Enabled(s, c)
    ensures Inv(Next(s, c))
  {
    match c
    case Exec => ExecKeepsInv(s);
    case CallYield =>
      assert LocalOk(s.k, s.idle, s.current, s.current, s.locals[s.current]);
      LocalChangeKeepsInv(s, s.locals[s.current].(pc := ResetTime));
    case Suspend(until) => UserKeepsInv(s, s.current, s.k.threads[s.current].(suspendedUntil := until));
    case SetPriority(t, p) => UserKeepsInv(s, t, s.k.threads[t].(priority := p));
    case Resume(_) => TimesKeepInv(s, Next(s, c).k);
    case Advance(_) => TimesKeepInv(s, Next(s, c).k);
    case Tick =>
      OnlyRunningLocked(s);
      if !s.lock {
        WrapperKeepsInv(s);
      }
  }

  lemma {:induction false} RunKeepsInv(s: State, run: seq<Choice>)
    requires Inv(s) && Legal(s, run)
    ensures Inv(Run(s, run))
    decreases |run|
  {
    if run != [] {
      StepKeepsInv(s, run[0]);
      RunKeepsInv(Next(s, run[0]), run[1..]);
    }
  }

  lemma ReachableInv(s: State, run: seq<Choice>)
    requires Initial(s) && Legal(s, run)
    ensures Inv(Run(s, run))
  {
    RunKeepsInv(s, run);
  }
}
