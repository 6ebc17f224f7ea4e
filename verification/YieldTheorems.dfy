/** What every run of the yield/tick protocol guarantees, and one thing that it does not. */
module YieldTheorems {
  import opened TimeModel
  import opened Selection
  import opened BoundedWaiting
  import opened YieldProtocol

  /**
    A preselection that schedule() finds was computed in the current epoch: its walk began after the
    most recent schedule(), and every activation stamp it compared is still the thread's stamp.
  */
  lemma PreselectionIsFresh(s: State, run: seq<Choice>)
    requires Initial(s) && Legal(s, run)
    ensures var e := Run(s, run);
            e.pre.choice != NOBODY ==>
              e.pre.epoch == e.k.counter && Matches(e.pre.source.view, Lasts(e.k.threads))
  {
    ReachableInv(s, run);
  }

  /** No preselection is used twice, and none that was never stored. */
  lemma PreselectionUsedOnce(s: State, run: seq<Choice>, i: int, j: int)
    requires Initial(s) && Legal(s, run)
    requires 0 <= i < j < |Run(s, run).h.used|
    ensures var e := Run(s, run); e.h.used[i] < e.h.used[j] <= e.h.stored
  {
    ReachableInv(s, run);
  }

  /** The lock is held exactly while the running thread is between taking it and its scheduler call. */
  lemma LockBelongsToYield(s: State, run: seq<Choice>)
    requires Initial(s) && Legal(s, run)
    ensures var e := Run(s, run);
            && 0 <= e.current < |e.locals|
            && (e.lock <==> Locked(e.locals[e.current].pc))
            && forall t | 0 <= t < |e.locals| && t != e.current :: !Locked(e.locals[t].pc)
  {
    ReachableInv(s, run);
    OnlyRunningLocked(Run(s, run));
  }

  /**
    Whatever schedule() would select now is the best thread of one list walk of this epoch, is ready
    now (or is idle), and comes with a wake-up bound for everything that walk saw asleep.
  */
  lemma SelectionIsSound(s: State, run: seq<Choice>)
    requires Initial(s) && Legal(s, run)
    requires var e := Run(s, run); ShapeOk(e) && !e.locals[e.current].pc.StoreBound?
    ensures var e := Run(s, run);
            var view := SourceOf(e);
            var sel := Selected(e);
            && IsBest(view.view, e.idle, view.now, sel.candidate)
            && Matches(view.view, Lasts(e.k.threads))
            && 0 <= sel.candidate < |e.k.threads|
            && (sel.candidate == e.idle || Ready(e.k.threads[sel.candidate], e.k.now))
            && IsWakeBound(view.view, view.now, sel.candidate, sel.earliest)
  {
    ReachableInv(s, run);
    var e := Run(s, run);
    var view := SourceOf(e);
    PickIsTheBest(view.view, e.idle, view.now, Selected(e).candidate);
    EarliestIsWakeBound(view.view, e.idle, view.now);
  }

  /** A yield during which no schedule() falls, from its first statement on, schedules when it calls the scheduler. */
  lemma UndisturbedYieldSchedules(s: State, run: seq<Choice>)
    requires Initial(s) && Legal(s, run)
    requires var e := Run(s, run);
             ShapeOk(e) && e.locals[e.current].pc.CallScheduler? && e.locals[e.current].reset == e.k.counter
    ensures var e := Run(s, run);
            var f := ExecYield(e);
            f.k.counter == e.k.counter + 1 && f.current == Selected(e).candidate
  {
    ReachableInv(s, run);
    var e := Run(s, run);
    assert LocalOk(e.k, e.idle, e.current, e.current, e.locals[e.current]);
    assert Selected(WithLocal(e, e.locals[e.current].(pc := User))) == Selected(e);
  }

  lemma StampBound(lasts: seq<int>, counter: int, idle: int, e: Event)
    requires forall k | 0 <= k < |lasts| :: lasts[k] <= counter
    ensures var next := Stamp(lasts, counter, idle, e);
            |next| == |lasts| && forall k | 0 <= k < |next| :: next[k] <= counter + 1
  {
  }

  /** The calls after the first i start with the stamps that those i left. */
  lemma {:induction false} ReplaySplit(lasts: seq<int>, counter: int, idle: int, es: seq<Event>, i: nat)
    returns (mid: seq<int>)
    requires i <= |es| && Consecutive(lasts, counter, idle, es)
    requires forall k | 0 <= k < |lasts| :: lasts[k] <= counter
    ensures |mid| == |lasts|
    ensures forall k | 0 <= k < |mid| :: mid[k] <= counter + i
    ensures Consecutive(mid, counter + i, idle, es[i..])
    decreases i
  {
    if i == 0 {
      assert es[0..] == es;
      mid := lasts;
    } else {
      StampBound(lasts, counter, idle, es[0]);
      var tail := es[1..];
      mid := ReplaySplit(Stamp(lasts, counter, idle, es[0]), counter + 1, idle, tail, i - 1);
      assert es[i..] == tail[i - 1..];
    }
  }

  /** Bounded waiting in a window of a series of calls. */
  lemma WindowSelects(initial: seq<int>, idle: int, es: seq<Event>, i: nat, t: int, peers: set<int>)
    requires Consecutive(initial, 0, idle, es) && forall k | 0 <= k < |initial| :: initial[k] <= 0
    requires 0 <= t < |initial| && t in peers && i + |peers| <= |es|
    requires forall k | i <= k < i + |peers| :: Contends(es[k], idle, t, peers)
    ensures exists k | i <= k < i + |peers| :: Chosen(es[k], idle) == t
  {
    var mid := ReplaySplit(initial, 0, idle, es, i);
    var rest := es[i..];
    ConsecutivePrefix(mid, i, idle, rest, |peers|);
    var window := rest[..|peers|];
    forall k | 0 <= k < |window|
      ensures Contends(window[k], idle, t, peers)
    {
      assert window[k] == es[i + k];
    }
    SelectedInTime(mid, i, idle, window, t, peers);
    var k :| 0 <= k < |peers| && Chosen(window[k], idle) == t;
    assert window[k] == es[i + k];
  }

  /**
    Bounded waiting in every run: in any window of as many calls of schedule() as t has peers, in whose
    walks t was ready and nobody above it was, t is selected, however yields, ticks and preselections
    are interleaved and whatever the peers do.
  */
  lemma KernelBoundedWaiting(s: State, run: seq<Choice>, i: nat, t: int, peers: set<int>)
    requires Initial(s) && Legal(s, run)
    requires 0 <= t < |s.locals| && t in peers
    requires var es := Run(s, run).h.events;
             && i + |peers| <= |es|
             && forall k | i <= k < i + |peers| :: Contends(es[k], s.idle, t, peers)
    ensures var es := Run(s, run).h.events;
            exists k | i <= k < i + |peers| :: Chosen(es[k], s.idle) == t
  {
    ReachableInv(s, run);
    RunKeepsConstants(s, run);
    WindowSelects(s.h.initial, s.idle, Run(s, run).h.events, i, t, peers);
  }

  lemma {:induction false} RunKeepsConstants(s: State, run: seq<Choice>)
    requires Legal(s, run)
    ensures var e := Run(s, run); e.idle == s.idle && e.h.initial == s.h.initial && |e.locals| == |s.locals|
    decreases |run|
  {
    if run != [] {
      RunKeepsConstants(Next(s, run[0]), run[1..]);
    }
  }

  // ------------------------------------------------------------------ what the protocol does not guarantee

  /** The running thread executes one statement of yield. */
  function Do(s: State): State {
    if ShapeOk(s) then ExecYield(s) else s
  }

  function Thrice(s: State): State {
    Do(Do(Do(s)))
  }

  /** ... n statements, undisturbed. */
  function DoN(s: State, n: nat): State {
    if n == 0 then s else Do(DoN(s, n - 1))
  }

  function Mine(s: State): Local
    requires ShapeOk(s)
  {
    s.locals[s.current]
  }

  /** A statement that touches only the thread's own locals. */
  lemma OwnStepIs(s: State)
    requires ShapeOk(s) && OwnStep(Mine(s).pc)
    ensures Do(s) == WithLocal(s, LocalStep(s, Mine(s))) && ShapeOk(Do(s))
  {
  }

  /** e is s with the running thread's walk advanced over the first n threads. */
  predicate WalkedTo(s: State, e: State, n: int)
    requires ShapeOk(s) && 0 <= n <= |s.k.threads|
  {
    && ShapeOk(e) && e == WithLocal(s, Mine(e))
    && Mine(e).pc.Walking? && Mine(e).seen == s.k.threads[..n]
    && Mine(e) == Mine(s).(seen := Mine(e).seen, walk := Mine(e).walk)
    && 0 <= Mine(e).walk.candidate < |s.k.threads|
  }

  /** One more element of the walk. */
  lemma WalkFurther(s: State, e: State, n: nat)
    requires ShapeOk(s) && n < |s.k.threads| && WalkedTo(s, e, n)
    ensures WalkedTo(s, Do(e), n + 1)
  {
    OwnStepIs(e);
    assert s.k.threads[..n] + [s.k.threads[n]] == s.k.threads[..n + 1];
  }

  /** A whole undisturbed walk reads every thread. */
  lemma {:induction false} WalkOn(s: State, n: nat)
    requires ShapeOk(s) && n <= |s.k.threads| && WalkedTo(s, s, 0)
    ensures WalkedTo(s, DoN(s, n), n)
    decreases n
  {
    if n > 0 {
      WalkOn(s, n - 1);
      WalkFurther(s, DoN(s, n - 1), n - 1);
    }
  }

  /** The end of the walk and the two tests, when another thread is to run. */
  lemma PassTests(s: State)
    requires ShapeOk(s) && Mine(s).pc.Walking? && |Mine(s).seen| == |s.k.threads|
    requires Mine(s).start == s.k.counter && Mine(s).walk.candidate != s.current
    ensures Thrice(s) == WithLocal(s, Mine(s).(pc := TakeLock))
  {
    var l := Mine(s);
    OwnStepIs(s);
    var e1 := WithLocal(s, l.(pc := CheckCounter));
    assert Do(s) == e1;
    OwnStepIs(e1);
    var e2 := WithLocal(s, l.(pc := CheckSelf));
    assert Do(e1) == e2;
    OwnStepIs(e2);
  }

  /** Taking the lock and testing again. */
  lemma PassLock(s: State)
    requires ShapeOk(s) && Mine(s).pc.TakeLock? && Mine(s).start == s.k.counter
    ensures Thrice(s) == WithLocal(s, Mine(s).(pc := StoreChoice)).(lock := true)
  {
    var l := Mine(s);
    var e1 := WithLocal(s, l.(pc := StopTimer)).(lock := true);
    assert Do(s) == e1;
    OwnStepIs(e1);
    var e2 := WithLocal(s, l.(pc := Recheck)).(lock := true);
    assert Do(e1) == e2;
    OwnStepIs(e2);
  }

  /** The state in which a thread that committed itself to another thread calls the scheduler. */
  predicate Calls(s: State, e: State)
    requires ShapeOk(s)
  {
    && ShapeOk(e) && e.k == s.k && e.current == s.current && e.idle == s.idle
    && e.locals == s.locals[s.current := Mine(s).(pc := CallScheduler)]
    && e.pre.choice == Mine(s).walk.candidate && e.pre.bound == Mine(s).walk.earliest
  }

  lemma Stores(s: State)
    requires ShapeOk(s) && Mine(s).pc.StoreChoice? && 0 <= Mine(s).walk.candidate < |s.k.threads|
    ensures Calls(s, Do(Do(s)))
  {
    var l := Mine(s);
    var e1 := Do(s);
    assert ShapeOk(e1) && Mine(e1) == l.(pc := StoreBound) && e1.k == s.k && e1.current == s.current;
    assert Do(e1) == WithLocal(e1, l.(pc := CallScheduler)).(pre := e1.pre.(bound := l.walk.earliest));
  }

  /** The scheduler call, when it is not yet time to schedule. */
  lemma CallReturns(s: State, e: State)
    requires ShapeOk(s) && Calls(s, e) && s.k.now < s.k.tryAgain
    ensures var f := Do(e);
            && f.k == s.k && f.current == s.current && !f.lock
            && f.locals == s.locals[s.current := Mine(s).(pc := User)]
            && f.pre.choice == Mine(s).walk.candidate && f.pre.bound == Mine(s).walk.earliest && f.idle == s.idle
  {
    assert Do(e) == Wrapper(WithLocal(e, Mine(e).(pc := User)));
  }

  /** ... and when it is. */
  lemma CallSchedules(s: State, e: State)
    requires ShapeOk(s) && Calls(s, e) && s.k.now >= s.k.tryAgain
    requires 0 <= Mine(s).walk.candidate < |s.k.threads|
    ensures var f := Do(e);
            var c := Mine(s).walk.candidate;
            && f.current == c && f.pre.choice == NOBODY && f.k.now == s.k.now && f.k.counter == s.k.counter + 1
            && f.k.tryAgain == Min(Mine(s).walk.earliest, TIME_SLICE_FOR_SAME_PRIORITY + s.k.now)
            && f.k.threads == s.k.threads[c := s.k.threads[c].(lastActivation := s.k.counter + 1)]
  {
    var w := WithLocal(e, Mine(e).(pc := User));
    assert Do(e) == Wrapper(w);
    assert Selected(w) == Walk(e.pre.choice, e.pre.bound);
  }

  /** From the end of the walk to just before the stores. */
  lemma Commit(s: State)
    requires ShapeOk(s) && Mine(s).pc.Walking? && |Mine(s).seen| == |s.k.threads|
    requires Mine(s).start == s.k.counter && Mine(s).walk.candidate != s.current
    ensures Thrice(Thrice(s)) == WithLocal(s, Mine(s).(pc := StoreChoice)).(lock := true)
  {
    PassTests(s);
    PassLock(WithLocal(s, Mine(s).(pc := TakeLock)));
  }

  /** An undisturbed yield from its second statement on: two statements, the walk, nine statements. */
  function RestOfYield(s: State): State {
    Thrice(Thrice(Thrice(DoN(Do(Do(s)), |s.k.threads|))))
  }

  lemma FirstTwo(s: State)
    requires ShapeOk(s) && Mine(s).pc.ReadCounter?
    ensures var e := Do(Do(s));
            && ShapeOk(e)
            && e == WithLocal(s, Mine(s).(pc := Walking, start := s.k.counter, walk := Walk(s.idle, END_OF_TIME),
                                          walkNow := s.k.now, seen := []))
  {
    OwnStepIs(s);
    var e1 := WithLocal(s, Mine(s).(pc := StartWalk, start := s.k.counter));
    assert Do(s) == e1;
    OwnStepIs(e1);
  }

  lemma {:induction false} DoNKeepsInv(s: State, n: nat)
    requires Inv(s)
    ensures Inv(DoN(s, n))
    decreases n
  {
    if n > 0 {
      DoNKeepsInv(s, n - 1);
      ExecKeepsInv(DoN(s, n - 1));
    }
  }

  /** A walk that has read everything, unchanged since, has found what findNextToRun finds. */
  lemma FinishedWalkHere(e: State)
    requires Inv(e) && Mine(e).pc.Walking? && Mine(e).start == e.k.counter && Mine(e).seen == e.k.threads
    ensures Mine(e).walk == Walked(e.k.threads, e.idle, Mine(e).walkNow, |e.k.threads|)
  {
    assert LocalOk(e.k, e.idle, e.current, e.current, Mine(e));
    assert e.k.threads + e.k.threads[|e.k.threads|..] == e.k.threads;
  }

  lemma WalkInv(s: State)
    requires Inv(s)
    ensures Inv(DoN(Do(Do(s)), |s.k.threads|))
  {
    DoNKeepsInv(s, 1);
    assert DoN(s, 1) == Do(DoN(s, 0));
    DoNKeepsInv(Do(s), 1);
    assert DoN(Do(s), 1) == Do(DoN(Do(s), 0));
    DoNKeepsInv(Do(Do(s)), |s.k.threads|);
  }

  /** An undisturbed walk, from reading the counter to the last element. */
  lemma UndisturbedWalk(s: State)
    requires Inv(s) && Mine(s).pc.ReadCounter?
    ensures var e := DoN(Do(Do(s)), |s.k.threads|);
            && ShapeOk(e) && e == WithLocal(s, Mine(e))
            && Mine(e).pc.Walking? && Mine(e).start == s.k.counter && Mine(e).seen == s.k.threads
            && Mine(e).walk == Walked(s.k.threads, s.idle, s.k.now, |s.k.threads|)
  {
    WalkInv(s);
    FirstTwo(s);
    var e2 := Do(Do(s));
    WalkOn(e2, |s.k.threads|);
    assert s.k.threads[..|s.k.threads|] == s.k.threads;
    FinishedWalkHere(DoN(e2, |s.k.threads|));
  }

  /**
    If a schedule() fell between the first two statements of yield, so that the next scheduling
    time lies ahead, and another thread is to run, then the yield of any thread ends without
    scheduling, and its preselection stays behind.
  */
  lemma EarlyReturnLeavesPreselection(s: State)
    requires Inv(s) && Mine(s).pc.ReadCounter? && s.k.now < s.k.tryAgain
    requires Pick(s.k.threads, s.idle, s.k.now) != s.current
    ensures var e := RestOfYield(s);
            && e.k == s.k && e.current == s.current && !e.lock
            && e.pre.choice == Pick(s.k.threads, s.idle, s.k.now) && e.idle == s.idle
            && e.pre.bound == Walked(s.k.threads, s.idle, s.k.now, |s.k.threads|).earliest
            && |e.locals| == |s.locals| && e.locals[s.current].pc.User?
  {
    UndisturbedWalk(s);
    var e3 := DoN(Do(Do(s)), |s.k.threads|);
    Commit(e3);
    var e4 := WithLocal(e3, Mine(e3).(pc := StoreChoice)).(lock := true);
    Stores(e4);
    CallReturns(e4, Do(Do(e4)));
  }

  /** The last nine statements of a yield that ends in a call of schedule(). */
  lemma LastNine(s: State)
    requires ShapeOk(s) && Mine(s).pc.Walking? && |Mine(s).seen| == |s.k.threads| && Mine(s).start == s.k.counter
    requires Mine(s).walk.candidate != s.current && 0 <= Mine(s).walk.candidate < |s.k.threads|
    requires s.k.now >= s.k.tryAgain
    ensures var e := Thrice(Thrice(Thrice(s)));
            var c := Mine(s).walk.candidate;
            && e.current == c && e.k.now == s.k.now && e.k.counter == s.k.counter + 1 && e.pre.choice == NOBODY
            && e.k.tryAgain == Min(Mine(s).walk.earliest, TIME_SLICE_FOR_SAME_PRIORITY + s.k.now)
            && e.k.threads == s.k.threads[c := s.k.threads[c].(lastActivation := s.k.counter + 1)]
  {
    Commit(s);
    var e := WithLocal(s, Mine(s).(pc := StoreChoice)).(lock := true);
    Stores(e);
    CallSchedules(e, Do(Do(e)));
  }

  lemma Resumed(s: State, d: int)
    requires ShapeOk(s) && 0 <= d < |s.k.threads|
    ensures var r := Next(s, Resume(d));
            && ShapeOk(r) && Mine(r) == Mine(s) && r.current == s.current
            && r.k.counter == s.k.counter && r.k.now == s.k.now && r.k.tryAgain == 0
            && r.k.threads == s.k.threads[d := s.k.threads[d].(suspendedUntil := 0, waitingFor := 0)]
  {
  }

  /**
    A sleeping thread that is resumed after the walk of a yield has passed it is overlooked, whatever
    its priority: the call of schedule() takes the preselection, and puts the next scheduling time,
    which resume() had set to "at once", back to the walk's bound or the end of the time slice.
  */
  lemma ResumeDuringYieldIsLost(s: State, d: int)
    requires Inv(s) && Mine(s).pc.Walking? && |Mine(s).seen| == |s.k.threads| && Mine(s).start == s.k.counter
    requires Mine(s).walk.candidate != s.current
    requires 0 <= d < |s.k.threads| && !Ready(s.k.threads[d], s.k.now)
    requires 0 <= Mine(s).walk.candidate < |s.k.threads|
    requires s.k.threads[d].priority > s.k.threads[Mine(s).walk.candidate].priority
    ensures var e := Thrice(Thrice(Thrice(Next(s, Resume(d)))));
            && e.current == Mine(s).walk.candidate && e.k.now == s.k.now && |e.k.threads| == |s.k.threads|
            && Ready(e.k.threads[d], e.k.now)
            && e.k.threads[d].priority > e.k.threads[e.current].priority
            && e.k.tryAgain == Min(Mine(s).walk.earliest, TIME_SLICE_FOR_SAME_PRIORITY + e.k.now)
  {
    Resumed(s, d);
    LastNine(Next(s, Resume(d)));
  }

  /** Two equal threads and idle; the first one runs. */
  function Pair(): State {
    var t := Tcb(1, 0, 0, 0);
    var l := Local(User, -1, 0, Walk(2, 0), 0, []);
    State(2, Kernel([t, t, t.(priority := 0)], 0, 1, 0), 0, false,
          Preselection(NOBODY, 0, Event([], 0), 0, 0), [l, l, l], History([0, 0, 0], [], [], 0))
  }

  lemma PairIsInitial()
    ensures Initial(Pair())
  {
    assert Lasts(Pair().k.threads) == [0, 0, 0];
  }

  /** The running thread has executed the first statement of yield. */
  lemma PairYields()
    ensures ShapeOk(Pair()) && Enabled(Pair(), CallYield)
    ensures var s := Next(Pair(), CallYield);
            && ShapeOk(s) && Enabled(s, Exec)
            && var e := Next(s, Exec);
               ShapeOk(e) && e.k == Pair().k && e.pre == Pair().pre && e.idle == 2 && e.current == 0 && !e.lock
               && e.locals[0].pc.ReadCounter?
  {
  }

  /** A tick then: the same thread again, as both were never activated. */
  lemma PairTicks(s: State)
    requires ShapeOk(s) && s.k == Pair().k && s.pre == Pair().pre && s.idle == 2 && s.current == 0 && !s.lock
    requires s.locals[0].pc.ReadCounter?
    ensures var e := Next(s, Tick);
            && ShapeOk(e) && Mine(e).pc.ReadCounter? && e.k.now < e.k.tryAgain
            && Pick(e.k.threads, e.idle, e.k.now) != e.current
  {
    var ts := s.k.threads;
    assert IsBest(ts, 2, 1, 0);
    PickIsTheBest(ts, 2, 1, 0);
    EarliestIsWakeBound(ts, 2, 1);
    var ts' := [ts[0].(lastActivation := 1), ts[1], ts[2]];
    assert Next(s, Tick).k.threads == ts';
    assert IsBest(ts', 2, 1, 1);
    PickIsTheBest(ts', 2, 1, 1);
  }

  lemma RunFirst(s: State, c: Choice, rest: seq<Choice>)
    requires Enabled(s, c) && Legal(Next(s, c), rest)
    ensures Legal(s, [c] + rest) && Run(s, [c] + rest) == Run(Next(s, c), rest)
  {
    assert ([c] + rest)[1..] == rest;
  }

  lemma RunThree(s: State, a: Choice, b: Choice, c: Choice)
    requires Enabled(s, a) && Enabled(Next(s, a), b) && Enabled(Next(Next(s, a), b), c)
    ensures Legal(s, [a, b, c]) && Run(s, [a, b, c]) == Next(Next(Next(s, a), b), c)
  {
    RunFirst(Next(Next(s, a), b), c, []);
    assert [c] + [] == [c] && [b] + [c] == [b, c] && [a] + [b, c] == [a, b, c];
    RunFirst(Next(s, a), b, [c]);
    RunFirst(s, a, [b, c]);
  }

  /** The situation of EarlyReturnLeavesPreselection arises: one tick between the two statements is enough. */
  lemma EarlyReturnHappens()
    ensures Initial(Pair()) && Legal(Pair(), [CallYield, Exec, Tick])
    ensures var s := Run(Pair(), [CallYield, Exec, Tick]);
            && ShapeOk(s) && Mine(s).pc.ReadCounter? && s.k.now < s.k.tryAgain
            && Pick(s.k.threads, s.idle, s.k.now) != s.current
  {
    PairIsInitial();
    PairYields();
    var s := Next(Next(Pair(), CallYield), Exec);
    PairTicks(s);
    RunThree(Pair(), CallYield, Exec, Tick);
  }
}
