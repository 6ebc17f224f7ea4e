/**
  The re-entrant semaphore of src/bare-metal-generic/rodos-semaphore.cpp, statement by
  statement, for any number of threads of which one runs at a time.

  The running thread changes only when the scheduler is entered: by a timer tick (`Switch`,
  possible between any two statements) or by a call of yield (`Yield`).  Either way a ready
  thread of the highest priority is chosen.  Priority-ceiling scopes are not locks: they raise
  the priority of the caller, and a thread that sleeps inside the scope keeps that priority.
  Resuming a thread never switches to it at once.
*/
module Semaphore {

  /** The statement a thread executes next. */
  datatype Pc =
    | User                  // the thread's own code
    // Semaphore::enter
    | ReadPriority          // callerPriority = caller->getPriority()
    | EnterCeiling          // PRIORITY_CEILER_IN_SCOPE(): remember the priority, raise it
    | TestOccupied          // if((owner != 0) && (owner != caller))
    | Boost                 // raise the owner's priority to the caller's
    | LoopTest              // while(owner != 0 && owner != caller)
    | ResetCount            // ownerEnterCnt = 0
    | TakeOwner             // owner = caller
    | StorePriority         // ownerPriority = callerPriority
    | CountUp               // ownerEnterCnt = ownerEnterCnt + 1
    | EnterRestore          // end of the ceiling scope
    | EnterYield            // caller->yield()
    // Thread::suspendCallerUntil(END_OF_TIME, this), called from the loop
    | SuspendCeiling        // PRIORITY_CEILER_IN_SCOPE()
    | SetWaiting            // caller->waitingFor = signaler
    | FallAsleep            // caller->suspendedUntil = END_OF_TIME
    | SuspendRestore        // end of the inner ceiling scope
    | SuspendYield          // yield()
    | ClearWaiting          // caller->waitingFor = nullptr
    // Semaphore::leave
    | LeaveTest             // if(owner != caller) return
    | CountDown             // ownerEnterCnt = ownerEnterCnt - 1
    | TestNested            // if(ownerEnterCnt > 0) return
    | LeaveCeiling          // PRIORITY_CEILER_IN_SCOPE()
    | DropOwner             // owner = 0
    | SavePriority          // currentOwnerPriority = ownerPriority
    | ClearPriority         // ownerPriority = 0
    | FindWaiter            // waiter = Thread::findNextWaitingFor(this)
    | HandOver              // owner = waiter
    | ResumeWaiter          // waiter->resume()
    | LeaveRestore          // end of the ceiling scope
    | SetPriority           // setPrioCurrentRunner(currentOwnerPriority)
    | TestYield             // if((waiter != 0) && (ownerPriority == 0))
    | LeaveYield            // caller->yield()

  const NONE := -1

  /** The locals of enter, suspendCallerUntil and leave. */
  datatype Frame = Frame(
    callerPriority: int,
    previous: int,            // saved by the ceiling scope of enter or leave
    suspendPrevious: int,     // saved by the ceiling scope of suspendCallerUntil
    restoring: int,           // currentOwnerPriority
    waiter: int)

  /**
    A thread.  `depth` counts enters that have returned and have not been left, `base` is the
    priority at the outermost enter, and `spoiled` says that the latest enter was a re-entry
    at a different priority; these three are history.
  */
  datatype Thread = Thread(
    pc: Pc,
    priority: int,
    asleep: bool,             // suspendedUntil == END_OF_TIME
    waiting: bool,            // waitingFor == this semaphore
    frame: Frame,
    depth: int,
    base: int,
    spoiled: bool)

  datatype Sem = Sem(owner: int, count: int, ownerPriority: int)

  datatype State = State(current: int, threads: seq<Thread>, sem: Sem)

  /**
    What the surroundings may do.
    roundRobin: a tick may switch between two ready threads that are both at the ceiling.
    spurious:   resume() may be called on a thread that is waiting for the semaphore.
    atSleep:    ... even between the two stores of suspendCallerUntil.
  */
  datatype Config = Config(ceiling: int, roundRobin: bool, spurious: bool, atSleep: bool)

  datatype Choice =
    | Exec                  // the running thread executes its next statement
    | Find(waiter: int)     // ... which is findNextWaitingFor, with this result
    | CallEnter
    | CallLeave
    | Sleep                 // the running thread suspends itself for reasons of its own
    | Wake(thread: int)     // ... until its time is reached
    | Resume(thread: int)   // somebody calls resume() on a thread
    | Switch(next: int)     // timer tick
    | Yield(next: int)      // the running thread executes its call of yield

  // ------------------------------------------------------------------ program points

  predicate EnterScope(pc: Pc) {
    match pc
    case TestOccupied | Boost | LoopTest | ResetCount | TakeOwner | StorePriority | CountUp | EnterRestore
       | SuspendCeiling | SetWaiting | FallAsleep | SuspendRestore | SuspendYield | ClearWaiting => true
    case _ => false
  }

  predicate LeaveScope(pc: Pc) {
    match pc
    case DropOwner | SavePriority | ClearPriority | FindWaiter | HandOver | ResumeWaiter | LeaveRestore => true
    case _ => false
  }

  /** Inside a priority-ceiling scope. */
  predicate InScope(pc: Pc) {
    EnterScope(pc) || LeaveScope(pc)
  }

  /** Past the store that puts the thread to sleep, before the loop looks at the owner again. */
  predicate Parked(pc: Pc) {
    pc.SuspendRestore? || pc.SuspendYield? || pc.ClearWaiting?
  }

  /** leave has dropped ownership and not yet handed it over. */
  predicate Window(pc: Pc) {
    pc.SavePriority? || pc.ClearPriority? || pc.FindWaiter? || pc.HandOver?
  }

  predicate AtYield(pc: Pc) {
    pc.EnterYield? || pc.SuspendYield? || pc.LeaveYield?
  }

  /** Statements that touch only the running thread and the semaphore. */
  predicate Plain(pc: Pc) {
    !pc.User? && !pc.FindWaiter? && !AtYield(pc) && !pc.Boost? && !pc.ResumeWaiter?
  }

  // ------------------------------------------------------------------ steps

  /** The running thread's own record after one statement of enter. */
  function ExecEnter(cfg: Config, sem: Sem, id: int, th: Thread): Thread {
    match th.pc
    case ReadPriority =>
      th.(pc := EnterCeiling, frame := th.frame.(callerPriority := th.priority),
          base := if th.depth == 0 then th.priority else th.base,
          spoiled := th.depth != 0 && th.priority != th.base)
    case EnterCeiling =>
      th.(pc := TestOccupied, frame := th.frame.(previous := th.priority), priority := cfg.ceiling)
    case TestOccupied => th.(pc := if sem.owner != NONE && sem.owner != id then Boost else TakeOwner)
    case Boost => th.(pc := LoopTest)
    case LoopTest => th.(pc := if sem.owner != NONE && sem.owner != id then SuspendCeiling else ResetCount)
    case ResetCount => th.(pc := TakeOwner)
    case TakeOwner => th.(pc := StorePriority)
    case StorePriority => th.(pc := CountUp)
    case CountUp => th.(pc := EnterRestore)
    case EnterRestore => th.(pc := EnterYield, priority := th.frame.previous)
    case SuspendCeiling =>
      th.(pc := SetWaiting, frame := th.frame.(suspendPrevious := th.priority), priority := cfg.ceiling)
    case SetWaiting => th.(pc := FallAsleep, waiting := true)
    case FallAsleep => th.(pc := SuspendRestore, asleep := true)
    case SuspendRestore => th.(pc := SuspendYield, priority := th.frame.suspendPrevious)
    case ClearWaiting => th.(pc := LoopTest, waiting := false)
    case _ => th
  }

  /** ... the statements of leave. */
  function ExecLeave(cfg: Config, sem: Sem, id: int, th: Thread): Thread {
    match th.pc
    case LeaveTest => th.(pc := if sem.owner != id then User else CountDown)
    case CountDown => th.(pc := TestNested)
    case TestNested => th.(pc := if sem.count > 0 then User else LeaveCeiling)
    case LeaveCeiling =>
      th.(pc := DropOwner, frame := th.frame.(previous := th.priority), priority := cfg.ceiling)
    case DropOwner => th.(pc := SavePriority)
    case SavePriority => th.(pc := ClearPriority, frame := th.frame.(restoring := sem.ownerPriority))
    case ClearPriority => th.(pc := FindWaiter)
    case HandOver => th.(pc := ResumeWaiter)
    case ResumeWaiter => th.(pc := LeaveRestore)
    case LeaveRestore => th.(pc := SetPriority, priority := th.frame.previous)
    case SetPriority => th.(pc := TestYield, priority := th.frame.restoring)
    case TestYield => th.(pc := if th.frame.waiter != NONE && sem.ownerPriority == 0 then LeaveYield else User)
    case _ => th
  }

  predicate InLeave(pc: Pc) {
    LeaveScope(pc) || pc.LeaveTest? || pc.CountDown? || pc.TestNested? || pc.LeaveCeiling?
    || pc.SetPriority? || pc.TestYield? || pc.LeaveYield?
  }

  /** The running thread's own record after one statement. */
  function ExecThread(cfg: Config, sem: Sem, id: int, th: Thread): Thread {
    if InLeave(th.pc) then ExecLeave(cfg, sem, id, th) else ExecEnter(cfg, sem, id, th)
  }

  /** The semaphore's fields after one statement of the running thread. */
  function ExecSem(sem: Sem, id: int, th: Thread): Sem {
    match th.pc
    case ResetCount => sem.(count := 0)
    case TakeOwner => sem.(owner := id)
    case StorePriority => sem.(ownerPriority := th.frame.callerPriority)
    case CountUp => sem.(count := sem.count + 1)
    case CountDown => sem.(count := sem.count - 1)
    case DropOwner => sem.(owner := NONE)
    case ClearPriority => sem.(ownerPriority := 0)
    case HandOver => sem.(owner := th.frame.waiter)
    case _ => sem
  }

  function Woken(th: Thread): Thread {
    th.(waiting := false, asleep := false)
  }

  /** The other thread that a statement may touch: the boosted owner or the resumed waiter. */
  function ExecOther(sem: Sem, mover: Thread, id: int, th: Thread): Thread {
    if mover.pc.Boost? && id == sem.owner && mover.frame.callerPriority > th.priority then
      th.(priority := mover.frame.callerPriority)
    else if mover.pc.ResumeWaiter? && id == mover.frame.waiter then Woken(th)
    else th
  }

  /** The leaver's record when its search is over. */
  function Searched(th: Thread, w: int): Thread {
    th.(pc := if w != NONE then HandOver else LeaveRestore, frame := th.frame.(waiter := w))
  }

  predicate InRange(s: State, t: int) {
    0 <= t < |s.threads|
  }

  /** A ready thread of the highest priority. */
  predicate Picks(s: State, t: int) {
    && InRange(s, t) && !s.threads[t].asleep
    && forall u | 0 <= u < |s.threads| && !s.threads[u].asleep :: s.threads[u].priority <= s.threads[t].priority
  }

  /** findNextWaitingFor: a waiter of the highest priority, or nobody when no waiter is above idle. */
  predicate Finds(s: State, w: int) {
    if w == NONE then
      forall u | 0 < u < |s.threads| && s.threads[u].waiting :: s.threads[u].priority <= s.threads[0].priority
    else
      && 0 < w < |s.threads| && s.threads[w].waiting && s.threads[w].priority >= s.threads[0].priority
      && forall u | 0 <= u < |s.threads| && s.threads[u].waiting :: s.threads[u].priority <= s.threads[w].priority
  }

  /** Nobody owns the semaphore and no leave is about to hand it over. */
  predicate Free(s: State) {
    s.sem.owner == NONE && forall t | 0 <= t < |s.threads| :: !Window(s.threads[t].pc)
  }

  predicate Enabled(cfg: Config, s: State, c: Choice) {
    InRange(s, s.current) &&
    var th := s.threads[s.current];
    match c
    case Exec => !th.pc.User? && !th.pc.FindWaiter? && !AtYield(th.pc)
    case Find(w) => th.pc.FindWaiter? && Finds(s, w)
    case CallEnter | CallLeave | Sleep => th.pc.User? && !th.asleep && s.current != 0
    case Wake(t) => InRange(s, t) && s.threads[t].pc.User? && s.threads[t].asleep
    case Resume(t) =>
      && 0 < t < |s.threads|
      && (s.threads[t].waiting ==> cfg.spurious && (cfg.atSleep || !s.threads[t].pc.FallAsleep?))
    case Switch(t) =>
      && Picks(s, t)
      && (cfg.roundRobin || t == s.current || th.asleep || th.priority < cfg.ceiling)
    case Yield(t) => AtYield(th.pc) && Picks(s, t)
  }

  function WithCurrent(s: State, th: Thread): State
    requires InRange(s, s.current)
  {
    s.(threads := s.threads[s.current := th])
  }

  function ExecState(cfg: Config, s: State): State
    requires InRange(s, s.current)
  {
    var me := s.threads[s.current];
    State(s.current,
          seq(|s.threads|, t requires 0 <= t < |s.threads| =>
            if t == s.current then ExecThread(cfg, s.sem, t, me) else ExecOther(s.sem, me, t, s.threads[t])),
          ExecSem(s.sem, s.current, me))
  }

  /** After yield returns. */
  function AfterYield(th: Thread): Thread {
    match th.pc
    case EnterYield => th.(pc := User, depth := th.depth + 1)
    case SuspendYield => th.(pc := ClearWaiting)
    case LeaveYield => th.(pc := User)
    case _ => th
  }

  function Next(cfg: Config, s: State, c: Choice): State
    requires Enabled(cfg, s, c)
  {
    var th := s.threads[s.current];
    match c
    case Exec => ExecState(cfg, s)
    case Find(w) =>
      WithCurrent(s, Searched(th, w))
    case CallEnter => WithCurrent(s, th.(pc := ReadPriority))
    case CallLeave => WithCurrent(s, th.(pc := LeaveTest, depth := if th.depth > 0 then th.depth - 1 else 0))
    case Sleep => WithCurrent(s, th.(asleep := true))
    case Wake(t) => s.(threads := s.threads[t := s.threads[t].(asleep := false)])
    case Resume(t) => s.(threads := s.threads[t := Woken(s.threads[t])])
    case Switch(t) => s.(current := t)
    case Yield(t) => WithCurrent(s, AfterYield(th)).(current := t)
  }

  predicate Legal(cfg: Config, s: State, run: seq<Choice>)
    decreases |run|
  {
    run == [] || (Enabled(cfg, s, run[0]) && Legal(cfg, Next(cfg, s, run[0]), run[1..]))
  }

  function Run(cfg: Config, s: State, run: seq<Choice>): State
    requires Legal(cfg, s, run)
    decreases |run|
  {
    if run == [] then s else Run(cfg, Next(cfg, s, run[0]), run[1..])
  }

  /** All threads in their own code, below the ceiling, the semaphore free; thread 0 is the idle thread. */
  predicate Initial(cfg: Config, s: State) {
    && cfg.ceiling > 0
    && InRange(s, s.current)
    && s.sem == Sem(NONE, 0, 0)
    && s.threads[0].priority == 0
    && forall t | 0 <= t < |s.threads| :: InitialThread(cfg, s.threads[t])
  }

  predicate InitialThread(cfg: Config, th: Thread) {
    && th.pc.User? && th.priority < cfg.ceiling && !th.waiting
    && th.depth == 0 && th.base == th.priority && !th.spoiled
    && th.frame == Frame(th.priority, th.priority, th.priority, th.priority, NONE)
  }

  // ------------------------------------------------------------------ invariant

  /** The surroundings under which the ceiling scopes really are atomic for this semaphore. */
  predicate Good(cfg: Config) {
    !(cfg.roundRobin && cfg.spurious)
  }

  /** Enters counted by ownerEnterCnt but not by `depth`, which changes at the call of leave and the return of enter. */
  function Uncounted(pc: Pc): int {
    match pc
    case EnterRestore | EnterYield | LeaveTest | CountDown => 1
    case _ => 0
  }

  predicate PriorityOk(cfg: Config, sem: Sem, id: int, th: Thread) {
    && (if InScope(th.pc) then th.priority == cfg.ceiling else th.priority < cfg.ceiling)
    && th.frame.callerPriority < cfg.ceiling
    && th.frame.previous < cfg.ceiling
    && th.frame.restoring < cfg.ceiling
    && (th.pc.SetWaiting? || th.pc.FallAsleep? || th.pc.SuspendRestore? ==> th.frame.suspendPrevious == cfg.ceiling)
  }

  predicate OwnershipOk(sem: Sem, id: int, th: Thread) {
    && th.depth >= 0
    && (if sem.owner == id then
          && sem.count == th.depth + Uncounted(th.pc)
          && (match th.pc
              case User | ReadPriority | EnterCeiling | TestOccupied => th.depth > 0
              case LoopTest | ResetCount | SuspendRestore | SuspendYield | ClearWaiting
                 | LeaveCeiling | DropOwner => th.depth == 0
              case TakeOwner | StorePriority | CountUp | EnterRestore | EnterYield
                 | LeaveTest | CountDown | TestNested => true
              case _ => false)
        else
          && th.depth == 0
          && (match th.pc
              case ResetCount | TakeOwner | SavePriority | ClearPriority | FindWaiter | HandOver => sem.owner == NONE
              case Boost | SuspendCeiling | SetWaiting | FallAsleep => sem.owner != NONE
              case StorePriority | CountUp | EnterRestore | EnterYield
                 | CountDown | TestNested | LeaveCeiling | DropOwner => false
              case _ => true))
  }

  predicate SleepOk(cfg: Config, sem: Sem, window: bool, id: int, th: Thread) {
    && (th.asleep ==> th.pc.User? || Parked(th.pc))
    && (th.waiting ==> th.pc.FallAsleep? || (Parked(th.pc) && th.asleep))
    && (!(cfg.spurious && cfg.atSleep) && (th.pc.FallAsleep? || (Parked(th.pc) && th.asleep)) ==> th.waiting)
    && (th.waiting && Parked(th.pc) ==> sem.owner != NONE || window)
    && (!cfg.spurious && Parked(th.pc) && !th.asleep ==> sem.owner == id)
  }

  /** What a thread will have, or has, when it is out of the semaphore: the priority its last enter read. */
  predicate RestoreOk(sem: Sem, id: int, th: Thread) {
    && (th.frame.callerPriority == th.base <==> !th.spoiled)
    && (match th.pc
        case User | ReadPriority | LeaveTest =>
          if sem.owner == id then sem.ownerPriority == th.frame.callerPriority
          else th.priority == th.frame.callerPriority
        case CountUp | EnterRestore | EnterYield | CountDown | TestNested | LeaveCeiling | DropOwner | SavePriority =>
          sem.ownerPriority == th.frame.callerPriority
        case ClearPriority | FindWaiter | HandOver | ResumeWaiter | LeaveRestore | SetPriority =>
          th.frame.restoring == th.frame.callerPriority
        case TestYield | LeaveYield => th.priority == th.frame.callerPriority
        case _ => true)
  }

  predicate ThreadOk(cfg: Config, sem: Sem, window: bool, id: int, th: Thread) {
    && PriorityOk(cfg, sem, id, th)
    && OwnershipOk(sem, id, th)
    && SleepOk(cfg, sem, window, id, th)
    && RestoreOk(sem, id, th)
    && (id == 0 ==> th.pc.User? && th.priority == 0)
  }

  /** Ready inside a ceiling scope: only such threads can run while one of them exists. */
  predicate Active(th: Thread) {
    InScope(th.pc) && !th.asleep
  }

  /** Ready inside the scope, but unable to interfere: it owns the semaphore, or will look at the owner afresh. */
  predicate Quiet(cfg: Config, sem: Sem, id: int, th: Thread) {
    (sem.owner == id && EnterScope(th.pc)) || (!cfg.roundRobin && Parked(th.pc))
  }

  predicate Loud(cfg: Config, sem: Sem, id: int, th: Thread) {
    Active(th) && !Quiet(cfg, sem, id, th)
  }

  /** A running thread that has just gone to sleep is on its way into yield. */
  predicate RunningOk(th: Thread) {
    th.asleep ==> !th.pc.ClearWaiting?
  }

  predicate ShapeOk(cfg: Config, s: State) {
    && cfg.ceiling > 0
    && InRange(s, s.current)
    && RunningOk(s.threads[s.current])
    && -1 <= s.sem.owner < |s.threads|
    && s.sem.owner != 0
    && s.sem.ownerPriority < cfg.ceiling
    && (s.sem.owner == NONE ==> s.sem.count == 0)
  }

  predicate WindowOpen(s: State)
    requires InRange(s, s.current)
  {
    Window(s.threads[s.current].pc)
  }

  predicate ThreadsOk(cfg: Config, s: State)
    requires InRange(s, s.current)
  {
    forall t | 0 <= t < |s.threads| :: ThreadOk(cfg, s.sem, WindowOpen(s), t, s.threads[t])
  }

  /** The owner, inside enter's scope or just out of it and about to yield. */
  predicate Finishing(sem: Sem, id: int, th: Thread) {
    sem.owner == id && ((Active(th) && EnterScope(th.pc)) || th.pc.EnterYield?)
  }

  /** At most one loud thread; it runs, or the owner interrupted it at equal priority. */
  predicate OneLoud(cfg: Config, s: State)
    requires InRange(s, s.current)
  {
    && (forall a, b | 0 <= a < |s.threads| && 0 <= b < |s.threads| ::
          Loud(cfg, s.sem, a, s.threads[a]) && Loud(cfg, s.sem, b, s.threads[b]) ==> a == b)
    && (forall a | 0 <= a < |s.threads| && Loud(cfg, s.sem, a, s.threads[a]) ::
          a == s.current
          || (cfg.roundRobin && Finishing(s.sem, s.current, s.threads[s.current])))
  }

  /** The thread that leave is handing the semaphore to stays parked until it is resumed. */
  predicate HandsOver(cfg: Config, s: State, t: int)
    requires InRange(s, t)
  {
    s.threads[t].pc.HandOver? || s.threads[t].pc.ResumeWaiter? ==>
      var w := s.threads[t].frame.waiter;
      && 0 < w < |s.threads| && w != t && Parked(s.threads[w].pc)
      && (!cfg.spurious ==> s.threads[w].asleep)
      && (s.threads[t].pc.ResumeWaiter? ==> s.sem.owner == w)
  }

  predicate HandOverOk(cfg: Config, s: State) {
    forall t | 0 <= t < |s.threads| :: HandsOver(cfg, s, t)
  }

  predicate Inv(cfg: Config, s: State) {
    ShapeOk(cfg, s) && ThreadsOk(cfg, s) && OneLoud(cfg, s) && HandOverOk(cfg, s)
  }
}
