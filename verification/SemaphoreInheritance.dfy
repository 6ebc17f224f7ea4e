/**
  Priority inheritance: "Avoid priority inversion" (src/bare-metal-generic/rodos-semaphore.cpp:53-56).

  A contender raises the owner once, before it waits; nobody raises the thread that leave hands the
  semaphore to.  So, if ticks do not switch at the ceiling and only leave resumes waiters, the owner
  runs at no less than the priority of every waiter as long as each hand-over goes to a foremost
  waiter, and stops doing so at the first one that does not.  In all other surroundings it can run
  below a waiter even so (SemaphoreInheriting).
*/
module SemaphoreInheritance {
  import opened Semaphore
  import opened SemaphoreInvariant
  import opened SemaphoreTheorems

  /** Ticks do not switch at the ceiling, and only leave resumes waiters. */
  predicate Strict(cfg: Config) {
    !cfg.roundRobin && !cfg.spurious
  }

  /** Waiting in the loop of enter. */
  predicate InLoop(pc: Pc) {
    pc.LoopTest? || pc.SuspendCeiling? || pc.SetWaiting? || pc.FallAsleep? || Parked(pc)
  }

  /** The priority of a thread in its own code: its priority now, or the one its ceiling scope gives back. */
  function Own(th: Thread): int {
    if InScope(th.pc) then th.frame.previous else th.priority
  }

  /** The owner runs at no less than what any waiter entered with. */
  predicate Inherits(s: State) {
    InRange(s, s.sem.owner) ==>
      forall u | 0 <= u < |s.threads| && u != s.sem.owner && InLoop(s.threads[u].pc) ::
        s.threads[u].frame.callerPriority <= Own(s.threads[s.sem.owner])
  }

  /** Outside re-entry, the ceiling scope of enter gives back the priority that enter has read. */
  predicate FrameOk(th: Thread) {
    && (th.depth == 0 && th.pc.EnterCeiling? ==> th.priority == th.frame.callerPriority)
    && (th.depth == 0 && EnterScope(th.pc) ==> th.frame.previous == th.frame.callerPriority)
  }

  predicate FramesOk(s: State) {
    forall t | 0 <= t < |s.threads| :: FrameOk(s.threads[t])
  }

  /** From waking the next owner to the yield that lets it run. */
  predicate Tail(pc: Pc) {
    pc.ResumeWaiter? || pc.LeaveRestore? || pc.SetPriority? || pc.TestYield? || pc.LeaveYield?
  }

  /** An owner that is in a scope without running is the one that the running leave has just chosen. */
  predicate HandedOk(s: State) {
    InRange(s, s.current) ==>
      var me := s.threads[s.current];
      && (me.pc.FindWaiter? || me.pc.HandOver? ==> s.sem.ownerPriority == 0)
      && (Parked(me.pc) && me.asleep ==> s.sem.owner != s.current)
      && (InRange(s, s.sem.owner) && s.sem.owner != s.current && InScope(s.threads[s.sem.owner].pc) ==>
            && Tail(me.pc) && me.frame.waiter == s.sem.owner && s.sem.ownerPriority == 0
            && (s.threads[s.sem.owner].asleep ==> me.pc.ResumeWaiter?))
  }

  /** w entered with the highest priority of all that wait. */
  predicate Foremost(s: State, w: int) {
    InRange(s, w) && forall u | 0 <= u < |s.threads| && InLoop(s.threads[u].pc) ::
      s.threads[u].frame.callerPriority <= s.threads[w].frame.callerPriority
  }

  predicate Full(cfg: Config, s: State) {
    Inv(cfg, s) && FramesOk(s) && HandedOk(s)
  }

  // ------------------------------------------------------------------ frames

  lemma MoverKeepsFrame(cfg: Config, sem: Sem, id: int, th: Thread)
    requires FrameOk(th) && OwnershipOk(sem, id, th) && !th.pc.User? && !th.pc.FindWaiter? && !AtYield(th.pc)
    ensures FrameOk(ExecThread(cfg, sem, id, th))
  {
    if InLeave(th.pc) {
      LeaverHasNoFrame(cfg, sem, id, th);
    }
  }

  lemma LeaverHasNoFrame(cfg: Config, sem: Sem, id: int, th: Thread)
    requires InLeave(th.pc) && !th.pc.FindWaiter? && !AtYield(th.pc)
    ensures var pc := ExecThread(cfg, sem, id, th).pc; !EnterScope(pc) && !pc.EnterCeiling?
  {
  }

  lemma OtherKeepsFrame(sem: Sem, mover: Thread, id: int, th: Thread)
    requires FrameOk(th) && OwnershipOk(sem, id, th)
    ensures FrameOk(ExecOther(sem, mover, id, th))
  {
  }

  lemma ExecKeepsFrames(cfg: Config, s: State)
    requires Inv(cfg, s) && FramesOk(s) && Enabled(cfg, s, Exec)
    ensures FramesOk(ExecState(cfg, s))
  {
    var me := s.threads[s.current];
    forall t | 0 <= t < |s.threads|
      ensures FrameOk(ExecState(cfg, s).threads[t])
    {
      assert ThreadOk(cfg, s.sem, WindowOpen(s), t, s.threads[t]);
      if t == s.current {
        MoverKeepsFrame(cfg, s.sem, t, me);
      } else {
        OtherKeepsFrame(s.sem, me, t, s.threads[t]);
      }
    }
  }

  lemma StepKeepsFrames(cfg: Config, s: State, c: Choice)
    requires Inv(cfg, s) && FramesOk(s) && Enabled(cfg, s, c)
    ensures FramesOk(Next(cfg, s, c))
  {
    if c.Exec? {
      ExecKeepsFrames(cfg, s);
    }
  }

  // ------------------------------------------------------------------ the chosen owner runs next

  /** The leave that has chosen the next owner goes on. */
  lemma LeaverKeepsHanded(cfg: Config, s: State)
    requires Strict(cfg) && Full(cfg, s) && Enabled(cfg, s, Exec)
    requires var pc := s.threads[s.current].pc; Tail(pc) || pc.HandOver? || pc.ClearPriority?
    ensures HandedOk(ExecState(cfg, s))
  {
    assert ThreadOk(cfg, s.sem, WindowOpen(s), s.current, s.threads[s.current]) && HandsOver(cfg, s, s.current);
  }

  /** Any other statement: no owner but the running thread is in a scope. */
  lemma OthersKeepHanded(cfg: Config, s: State)
    requires Strict(cfg) && Full(cfg, s) && Enabled(cfg, s, Exec)
    requires var pc := s.threads[s.current].pc; !Tail(pc) && !pc.HandOver? && !pc.ClearPriority?
    ensures HandedOk(ExecState(cfg, s))
  {
    assert ThreadOk(cfg, s.sem, WindowOpen(s), s.current, s.threads[s.current]);
  }

  lemma ExecKeepsHanded(cfg: Config, s: State)
    requires Strict(cfg) && Full(cfg, s) && Enabled(cfg, s, Exec)
    ensures HandedOk(ExecState(cfg, s))
  {
    var pc := s.threads[s.current].pc;
    if Tail(pc) || pc.HandOver? || pc.ClearPriority? {
      LeaverKeepsHanded(cfg, s);
    } else {
      OthersKeepHanded(cfg, s);
    }
  }

  /** With the chosen owner awake at the ceiling, it is the one that is picked. */
  lemma ChosenIsPicked(cfg: Config, s: State, t: int)
    requires Strict(cfg) && Full(cfg, s) && Picks(s, t)
    requires var o := s.sem.owner;
             InRange(s, o) && o != s.current && InScope(s.threads[o].pc) && !s.threads[o].asleep
    requires !Loud(cfg, s.sem, s.current, s.threads[s.current])
    ensures t == s.sem.owner
  {
    var o := s.sem.owner;
    assert ThreadOk(cfg, s.sem, WindowOpen(s), o, s.threads[o]);
    assert ThreadOk(cfg, s.sem, WindowOpen(s), t, s.threads[t]);
  }

  /** The running thread is in no scope, or asleep: nobody but the one picked can be an owner in a scope. */
  lemma PickKeepsHanded(cfg: Config, s: State, t: int)
    requires Strict(cfg) && Full(cfg, s) && Picks(s, t)
    requires var me := s.threads[s.current]; !InScope(me.pc) || me.asleep
    ensures HandedOk(s.(current := t))
  {
    var me := s.threads[s.current];
    assert ThreadOk(cfg, s.sem, WindowOpen(s), s.current, me);
    assert ThreadOk(cfg, s.sem, WindowOpen(s), t, s.threads[t]);
    var o := s.sem.owner;
    if InRange(s, o) && o != s.current && InScope(s.threads[o].pc) {
      assert ThreadOk(cfg, s.sem, WindowOpen(s), o, s.threads[o]);
      ChosenIsPicked(cfg, s, t);
    }
    if s.threads[t].pc.FindWaiter? || s.threads[t].pc.HandOver? {
      assert Loud(cfg, s.sem, t, s.threads[t]);
    }
  }

  lemma SwitchKeepsHanded(cfg: Config, s: State, t: int)
    requires Strict(cfg) && Full(cfg, s) && Enabled(cfg, s, Switch(t))
    ensures HandedOk(s.(current := t))
  {
    if t != s.current {
      assert ThreadOk(cfg, s.sem, WindowOpen(s), s.current, s.threads[s.current]);
      PickKeepsHanded(cfg, s, t);
    }
  }

  lemma YieldKeepsHanded(cfg: Config, s: State, t: int)
    requires Strict(cfg) && Full(cfg, s) && Enabled(cfg, s, Yield(t))
    ensures HandedOk(Next(cfg, s, Yield(t)))
  {
    var me := s.threads[s.current];
    assert ThreadOk(cfg, s.sem, WindowOpen(s), s.current, me);
    if InScope(me.pc) && !me.asleep {
      WokenBeforeYield(cfg, s, t);
    } else {
      PickKeepsHanded(cfg, s, t);
    }
  }

  /** In the yield of the waiting loop, awake: under strict surroundings it has been chosen. */
  lemma WokenBeforeYield(cfg: Config, s: State, t: int)
    requires Strict(cfg) && Full(cfg, s) && Enabled(cfg, s, Yield(t))
    requires var me := s.threads[s.current]; InScope(me.pc) && !me.asleep
    ensures HandedOk(Next(cfg, s, Yield(t)))
  {
    var me := s.threads[s.current];
    assert ThreadOk(cfg, s.sem, WindowOpen(s), s.current, me);
    assert s.sem.owner == s.current;
    assert ThreadOk(cfg, s.sem, WindowOpen(s), t, s.threads[t]);
  }

  lemma StepKeepsHanded(cfg: Config, s: State, c: Choice)
    requires Strict(cfg) && Full(cfg, s) && Enabled(cfg, s, c)
    ensures HandedOk(Next(cfg, s, c))
  {
    match c
    case Exec => ExecKeepsHanded(cfg, s);
    case Find(_) =>
    case CallEnter =>
    case CallLeave =>
    case Sleep =>
    case Wake(_) =>
    case Resume(_) =>
    case Switch(t) => SwitchKeepsHanded(cfg, s, t);
    case Yield(t) => YieldKeepsHanded(cfg, s, t);
  }

  // ------------------------------------------------------------------ inheritance

  /** The hand-over is the one statement that can break inheritance, and it does so exactly when it passes over somebody. */
  lemma HandOverInheritsExactlyWhen(cfg: Config, s: State)
    requires Good(cfg) && Full(cfg, s) && s.threads[s.current].pc.HandOver?
    ensures Inherits(ExecState(cfg, s)) <==> Foremost(s, s.threads[s.current].frame.waiter)
  {
    var w := s.threads[s.current].frame.waiter;
    assert HandsOver(cfg, s, s.current);
    assert ThreadOk(cfg, s.sem, WindowOpen(s), w, s.threads[w]) && FrameOk(s.threads[w]);
    var e := ExecState(cfg, s);
    assert e.sem.owner == w && e.threads[w] == s.threads[w];
    assert Own(e.threads[w]) == s.threads[w].frame.callerPriority;
    forall u | 0 <= u < |s.threads|
      ensures InLoop(e.threads[u].pc) <==> InLoop(s.threads[u].pc)
      ensures e.threads[u].frame.callerPriority == s.threads[u].frame.callerPriority
    {
    }
  }

  /** Taking a free semaphore: nobody is in the loop. */
  lemma NobodyInLoop(cfg: Config, s: State, u: int)
    requires Strict(cfg) && Inv(cfg, s) && s.threads[s.current].pc.TakeOwner? && s.sem.owner == NONE
    requires InRange(s, u) && u != s.current
    ensures !InLoop(s.threads[u].pc)
  {
    assert ThreadOk(cfg, s.sem, WindowOpen(s), s.current, s.threads[s.current]);
    assert ThreadOk(cfg, s.sem, WindowOpen(s), u, s.threads[u]);
  }

  /** A statement of the owner itself does not change what it runs at outside the scopes. */
  lemma OwnerKeepsOwn(cfg: Config, sem: Sem, id: int, th: Thread)
    requires OwnershipOk(sem, id, th) && sem.owner == id && !th.pc.User? && !th.pc.FindWaiter? && !AtYield(th.pc)
    ensures ExecSem(sem, id, th).owner == id ==> Own(ExecThread(cfg, sem, id, th)) == Own(th)
  {
  }

  /** A thread gets into the loop only by the statement that raises the owner. */
  lemma IntoLoop(cfg: Config, sem: Sem, id: int, th: Thread)
    requires !th.pc.User? && !th.pc.FindWaiter? && !AtYield(th.pc)
    requires InLoop(ExecThread(cfg, sem, id, th).pc)
    ensures InLoop(th.pc) || th.pc.Boost?
    ensures ExecThread(cfg, sem, id, th).frame.callerPriority == th.frame.callerPriority
  {
    if InLeave(th.pc) {
      LeaveIsNoLoop(cfg, sem, id, th);
    }
  }

  lemma LeaveIsNoLoop(cfg: Config, sem: Sem, id: int, th: Thread)
    requires InLeave(th.pc)
    ensures !InLoop(ExecLeave(cfg, sem, id, th).pc)
  {
  }

  lemma OtherStays(sem: Sem, mover: Thread, id: int, th: Thread)
    ensures var th' := ExecOther(sem, mover, id, th);
            && th'.pc == th.pc && th'.frame == th.frame
            && (Own(th') == Own(th) || (mover.pc.Boost? && Own(th') > Own(th)))
            && (mover.pc.Boost? && id == sem.owner && !InScope(th.pc) ==> Own(th') >= mover.frame.callerPriority)
  {
  }

  /** One waiter and the owner, over a statement that does not change the owner. */
  lemma PairKeeps(cfg: Config, s: State, u: int)
    requires Strict(cfg) && Full(cfg, s) && Inherits(s) && Enabled(cfg, s, Exec)
    requires InRange(s, s.sem.owner) && ExecSem(s.sem, s.current, s.threads[s.current]).owner == s.sem.owner
    requires InRange(s, u) && u != s.sem.owner
    ensures var e := ExecState(cfg, s);
            InLoop(e.threads[u].pc) ==> e.threads[u].frame.callerPriority <= Own(e.threads[s.sem.owner])
  {
    var o, me := s.sem.owner, s.threads[s.current];
    assert ThreadOk(cfg, s.sem, WindowOpen(s), o, s.threads[o]);
    OtherStays(s.sem, me, u, s.threads[u]);
    OtherStays(s.sem, me, o, s.threads[o]);
    if o == s.current {
      OwnerKeepsOwn(cfg, s.sem, o, me);
    }
    if u == s.current && InLoop(ExecState(cfg, s).threads[u].pc) {
      IntoLoop(cfg, s.sem, u, me);
    }
  }

  lemma ExecKeepsInherits(cfg: Config, s: State)
    requires Strict(cfg) && Full(cfg, s) && Inherits(s) && Enabled(cfg, s, Exec)
    requires s.threads[s.current].pc.HandOver? ==> Foremost(s, s.threads[s.current].frame.waiter)
    ensures Inherits(ExecState(cfg, s))
  {
    var me := s.threads[s.current];
    assert ThreadOk(cfg, s.sem, WindowOpen(s), s.current, me);
    var e := ExecState(cfg, s);
    if me.pc.HandOver? {
      HandOverInheritsExactlyWhen(cfg, s);
    } else if InRange(e, e.sem.owner) {
      forall u | 0 <= u < |e.threads| && u != e.sem.owner && InLoop(e.threads[u].pc)
        ensures e.threads[u].frame.callerPriority <= Own(e.threads[e.sem.owner])
      {
        if e.sem.owner == s.sem.owner {
          PairKeeps(cfg, s, u);
        } else {
          OtherStays(s.sem, me, u, s.threads[u]);
          NobodyInLoop(cfg, s, u);
        }
      }
    }
  }

  /** One record changes and neither the semaphore nor, for inheritance, the thread. */
  lemma RecordKeepsInherits(s: State, t: int, th: Thread)
    requires Inherits(s) && InRange(s, t)
    requires InLoop(th.pc) ==> InLoop(s.threads[t].pc) && th.frame.callerPriority == s.threads[t].frame.callerPriority
    requires s.sem.owner == t ==> Own(th) >= Own(s.threads[t])
    ensures Inherits(s.(threads := s.threads[t := th]))
  {
  }

  lemma CallKeepsInherits(cfg: Config, s: State, c: Choice)
    requires Inv(cfg, s) && Inherits(s) && Enabled(cfg, s, c) && (c.Find? || c.CallEnter? || c.CallLeave? || c.Sleep?)
    ensures Inherits(Next(cfg, s, c))
  {
    assert ThreadOk(cfg, s.sem, WindowOpen(s), s.current, s.threads[s.current]);
    RecordKeepsInherits(s, s.current, Next(cfg, s, c).threads[s.current]);
  }

  lemma WakeKeepsInherits(cfg: Config, s: State, c: Choice)
    requires Inherits(s) && Enabled(cfg, s, c) && (c.Wake? || c.Resume?)
    ensures Inherits(Next(cfg, s, c))
  {
    RecordKeepsInherits(s, c.thread, Next(cfg, s, c).threads[c.thread]);
  }

  lemma YieldKeepsInherits(cfg: Config, s: State, t: int)
    requires Inherits(s) && Enabled(cfg, s, Yield(t))
    ensures Inherits(Next(cfg, s, Yield(t)))
  {
    RecordKeepsInherits(s, s.current, AfterYield(s.threads[s.current]));
  }

  lemma StepKeepsInherits(cfg: Config, s: State, c: Choice)
    requires Strict(cfg) && Full(cfg, s) && Inherits(s) && Enabled(cfg, s, c)
    requires c.Exec? && s.threads[s.current].pc.HandOver? ==> Foremost(s, s.threads[s.current].frame.waiter)
    ensures Inherits(Next(cfg, s, c))
  {
    match c
    case Exec => ExecKeepsInherits(cfg, s);
    case Find(_) => CallKeepsInherits(cfg, s, c);
    case CallEnter => CallKeepsInherits(cfg, s, c);
    case CallLeave => CallKeepsInherits(cfg, s, c);
    case Sleep => CallKeepsInherits(cfg, s, c);
    case Wake(_) => WakeKeepsInherits(cfg, s, c);
    case Resume(_) => WakeKeepsInherits(cfg, s, c);
    case Switch(_) =>
    case Yield(t) => YieldKeepsInherits(cfg, s, t);
  }

  /** Every hand-over of the run goes to a foremost waiter. */
  predicate Ordered(cfg: Config, s: State, run: seq<Choice>)
    requires Legal(cfg, s, run)
    decreases |run|
  {
    run == [] ||
    (&& (run[0].Exec? && s.threads[s.current].pc.HandOver? ==> Foremost(s, s.threads[s.current].frame.waiter))
     && Ordered(cfg, Next(cfg, s, run[0]), run[1..]))
  }

  lemma {:induction false} RunKeepsInherits(cfg: Config, s: State, run: seq<Choice>)
    requires Strict(cfg) && Full(cfg, s) && Inherits(s) && Legal(cfg, s, run) && Ordered(cfg, s, run)
    ensures Inherits(Run(cfg, s, run))
    decreases |run|
  {
    if run != [] {
      StepKeepsInv(cfg, s, run[0]);
      StepKeepsFrames(cfg, s, run[0]);
      StepKeepsHanded(cfg, s, run[0]);
      StepKeepsInherits(cfg, s, run[0]);
      RunKeepsInherits(cfg, Next(cfg, s, run[0]), run[1..]);
    }
  }

  /**
    In strict surroundings, as long as every hand-over goes to a foremost waiter, the owner always runs
    at no less than the priority that any waiter entered with.
  */
  lemma OwnerInherits(cfg: Config, s: State, run: seq<Choice>)
    requires Strict(cfg) && Initial(cfg, s) && Legal(cfg, s, run) && Ordered(cfg, s, run)
    ensures Inherits(Run(cfg, s, run))
  {
    InitialInv(cfg, s);
    RunKeepsInherits(cfg, s, run);
  }
}
