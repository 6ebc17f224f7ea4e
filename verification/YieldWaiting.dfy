/**
  Bounded waiting, told of the threads as they are when schedule() is called: a thread that competes in
  enough calls is selected, however yields, ticks, resumes and preselections are interleaved.
*/
module YieldWaiting {
  import opened TimeModel
  import opened Selection
  import opened BoundedWaiting
  import opened YieldProtocol
  import opened YieldTheorems
  import opened YieldLimits

  /** This step calls schedule(). */
  predicate Schedules(s: State, c: Choice) {
    && Enabled(s, c) && s.k.tryAgain <= s.k.now
    && ((c.Tick? && !s.lock) || (c.Exec? && Mine(s).pc.CallScheduler?))
  }

  /** The states in which a run calls schedule(). */
  function ScheduleCalls(s: State, run: seq<Choice>): seq<State>
    requires Legal(s, run)
    decreases |run|
  {
    if run == [] then []
    else if Schedules(s, run[0]) then [s] + ScheduleCalls(Next(s, run[0]), run[1..])
    else ScheduleCalls(Next(s, run[0]), run[1..])
  }

  predicate Selects(e: State, t: int) {
    ShapeOk(e) && Selected(e).candidate == t
  }

  /**
    Thread t is ready now, no ready thread is above it, and its equals are among the peers.  The running
    thread has changed no priority between a walk and a tick that uses its preselection.
  */
  predicate Competes(e: State, t: int, peers: set<int>) {
    && ShapeOk(e) && 0 <= t < |e.k.threads| && (t == e.idle || Ready(e.k.threads[t], e.k.now))
    && (forall i | 0 <= i < |e.k.threads| && (i == e.idle || Ready(e.k.threads[i], e.k.now)) ::
          && e.k.threads[i].priority <= e.k.threads[t].priority
          && (e.k.threads[i].priority == e.k.threads[t].priority ==> i in peers))
    && (e.pre.choice != NOBODY && !Mine(e).pc.CallScheduler? ==> PrioritiesKept(e))
  }

  /** The walk behind the preselection read t asleep. */
  predicate Overlooks(e: State, t: int) {
    && e.pre.choice != NOBODY && t != e.idle
    && 0 <= t < |e.pre.source.view| && !Ready(e.pre.source.view[t], e.pre.source.now)
  }

  /** t does not run, is ready, and is ready for every walk that can still decide. */
  predicate Considered(s: State, t: int) {
    && ShapeOk(s) && 0 <= t < |s.k.threads| && t != s.current
    && (t != s.idle ==>
          && Ready(s.k.threads[t], s.k.now)
          && (HasWalk(Mine(s).pc) && Mine(s).start == s.k.counter ==>
                && Ready(s.k.threads[t], Mine(s).walkNow)
                && (t < |Mine(s).seen| ==> Ready(Mine(s).seen[t], Mine(s).walkNow)))
          && !Overlooks(s, t))
  }

  /** What holds of every reachable state. */
  predicate Sane(s: State) {
    Inv(s) && StoredOk(s)
  }

  // ------------------------------------------------------------------ steps without a call

  lemma WalkKeepsConsidered(s: State, t: int)
    requires Inv(s) && Considered(s, t) && Mine(s).pc.Walking?
    ensures Considered(WithLocal(s, LocalStep(s, Mine(s))), t)
  {
    assert LocalOk(s.k, s.idle, s.current, s.current, Mine(s));
  }

  lemma LocalStepKeepsConsidered(s: State, t: int)
    requires Inv(s) && Considered(s, t) && OwnStep(Mine(s).pc)
    ensures Considered(WithLocal(s, LocalStep(s, Mine(s))), t)
  {
    if Mine(s).pc.Walking? {
      WalkKeepsConsidered(s, t);
    }
  }

  lemma StoreKeepsConsidered(s: State, t: int)
    requires Inv(s) && Considered(s, t) && Mine(s).pc.StoreChoice?
    ensures Considered(ExecYield(s), t)
  {
    assert LocalOk(s.k, s.idle, s.current, s.current, Mine(s));
    FinishedWalk(s);
    StoreIs(s);
  }

  lemma StoreIs(s: State)
    requires ShapeOk(s) && Mine(s).pc.StoreChoice?
    ensures var e := ExecYield(s);
            && e.k == s.k && e.current == s.current && e.idle == s.idle && |e.locals| == |s.locals|
            && e.locals[s.current] == Mine(s).(pc := StoreBound) && e.pre.source == Event(Mine(s).seen, Mine(s).walkNow)
  {
  }

  lemma ExecKeepsConsidered(s: State, t: int)
    requires Inv(s) && Considered(s, t) && !Schedules(s, Exec)
    ensures Considered(ExecYield(s), t)
  {
    match Mine(s).pc
    case StoreChoice => StoreKeepsConsidered(s, t);
    case ResetTime =>
    case TakeLock =>
    case StoreBound =>
    case CallScheduler =>
    case _ => LocalStepKeepsConsidered(s, t);
  }

  lemma QuietKeepsConsidered(s: State, c: Choice, t: int)
    requires Inv(s) && Considered(s, t) && Enabled(s, c) && !Schedules(s, c)
    ensures Considered(Next(s, c), t)
  {
    match c
    case Exec => ExecKeepsConsidered(s, t);
    case CallYield =>
    case Suspend(_) =>
    case SetPriority(_, _) =>
    case Resume(_) =>
    case Advance(_) =>
    case Tick =>
  }

  lemma QuietKeepsStamps(s: State, c: Choice)
    requires Enabled(s, c) && !Schedules(s, c)
    ensures Lasts(Next(s, c).k.threads) == Lasts(s.k.threads) && Next(s, c).idle == s.idle
  {
  }

  lemma StepKeepsSane(s: State, c: Choice)
    requires Sane(s) && Enabled(s, c)
    ensures Sane(Next(s, c))
  {
    StepKeepsInv(s, c);
    StepKeepsStored(s, c);
  }

  // ------------------------------------------------------------------ calls

  lemma CallIs(s: State, c: Choice)
    requires Schedules(s, c)
    ensures var e, f := Next(s, c), Schedule(s);
            e.k == f.k && e.current == f.current && e.pre == f.pre && e.idle == f.idle && |e.locals| == |f.locals|
    ensures forall u | 0 <= u < |s.locals| :: Next(s, c).locals[u] == s.locals[u] || Next(s, c).locals[u].pc.User?
  {
    if c.Exec? {
      assert Selected(WithLocal(s, Mine(s).(pc := User))) == Selected(s);
    }
  }

  /** Whoever is selected in place of a competing thread that was not overlooked has waited longer. */
  lemma PassesOver(s: State, c: Choice, t: int, peers: set<int>)
    requires Sane(s) && Schedules(s, c) && Competes(s, t, peers) && !Overlooks(s, t) && !Selects(s, t)
    ensures Selected(s).candidate in AheadOf(Lasts(s.k.threads), s.idle, t, peers)
  {
    var w := Selected(s).candidate;
    var v := SourceOf(s);
    PickIsTheBest(v.view, s.idle, v.now, w);
    if s.pre.choice != NOBODY {
      assert LocalOk(s.k, s.idle, s.current, s.current, Mine(s));
      assert PrioritiesKept(s);
    }
  }

  /** ... and is behind t after the call. */
  lemma CallMoves(s: State, c: Choice, t: int, peers: set<int>)
    requires Sane(s) && Schedules(s, c) && 0 <= t < |s.k.threads| && !Selects(s, t)
    ensures var e := Next(s, c);
            && |e.k.threads| == |s.k.threads|
            && AheadOf(Lasts(e.k.threads), e.idle, t, peers) ==
               AheadOf(Lasts(s.k.threads), s.idle, t, peers) - {Selected(s).candidate}
  {
    CallIs(s, c);
    SelectedIsThere(s);
    var w := Selected(s).candidate;
    assert Lasts(Next(s, c).k.threads) == Lasts(s.k.threads)[w := s.k.counter + 1];
    StampMoves(Lasts(s.k.threads), s.k.counter, s.idle, w, t, peers);
  }

  lemma SelectedIsThere(s: State)
    requires Inv(s)
    ensures 0 <= Selected(s).candidate < |s.k.threads|
  {
    PickIsTheBest(s.k.threads, s.idle, s.k.now, Pick(s.k.threads, s.idle, s.k.now));
  }

  lemma StampMoves(lasts: seq<int>, counter: int, idle: int, w: int, t: int, peers: set<int>)
    requires 0 <= t < |lasts| && 0 <= w < |lasts| && w != t && forall i | 0 <= i < |lasts| :: lasts[i] <= counter
    ensures AheadOf(lasts[w := counter + 1], idle, t, peers) == AheadOf(lasts, idle, t, peers) - {w}
  {
  }

  /** After a call that selects somebody else, every walk starts anew. */
  lemma CallConsiders(s: State, c: Choice, t: int, peers: set<int>)
    requires Sane(s) && Schedules(s, c) && Competes(s, t, peers) && !Selects(s, t)
    ensures Considered(Next(s, c), t)
  {
    CallIs(s, c);
    SelectedIsThere(s);
    var w := Selected(s).candidate;
    assert LocalOk(s.k, s.idle, s.current, w, s.locals[w]);
  }

  // ------------------------------------------------------------------ series of calls

  /** A considered thread is selected within as many calls as it has peers that have waited longer, and one. */
  lemma {:induction false} ConsideredIsSelected(s: State, run: seq<Choice>, t: int, peers: set<int>, m: int)
    requires Sane(s) && Legal(s, run) && Considered(s, t)
    requires |AheadOf(Lasts(s.k.threads), s.idle, t, peers)| < m <= |ScheduleCalls(s, run)|
    requires forall k | 0 <= k < m :: Competes(ScheduleCalls(s, run)[k], t, peers)
    ensures exists k | 0 <= k < m :: Selects(ScheduleCalls(s, run)[k], t)
    decreases |run|
  {
    var c, calls := run[0], ScheduleCalls(s, run);
    StepKeepsSane(s, c);
    if !Schedules(s, c) {
      QuietKeepsConsidered(s, c, t);
      QuietKeepsStamps(s, c);
      ConsideredIsSelected(Next(s, c), run[1..], t, peers, m);
    } else if !Selects(calls[0], t) {
      assert Competes(calls[0], t, peers);
      PassesOver(s, c, t, peers);
      CallMoves(s, c, t, peers);
      CallConsiders(s, c, t, peers);
      LaterCalls(s, c, run, t, peers, m);
      ConsideredIsSelected(Next(s, c), run[1..], t, peers, m - 1);
      SelectedLater(s, c, run, t, m);
    }
  }

  lemma LaterCalls(s: State, c: Choice, run: seq<Choice>, t: int, peers: set<int>, m: int)
    requires Legal(s, run) && run != [] && c == run[0] && Schedules(s, c) && m <= |ScheduleCalls(s, run)|
    requires forall k | 0 <= k < m :: Competes(ScheduleCalls(s, run)[k], t, peers)
    ensures ScheduleCalls(s, run) == [s] + ScheduleCalls(Next(s, c), run[1..])
    ensures forall k | 0 <= k < m - 1 :: Competes(ScheduleCalls(Next(s, c), run[1..])[k], t, peers)
  {
    var calls, rest := ScheduleCalls(s, run), ScheduleCalls(Next(s, c), run[1..]);
    assert calls == [s] + rest;
    forall k | 0 <= k < m - 1
      ensures Competes(rest[k], t, peers)
    {
      assert rest[k] == calls[k + 1];
    }
  }

  lemma SelectedLater(s: State, c: Choice, run: seq<Choice>, t: int, m: int)
    requires Legal(s, run) && run != [] && c == run[0] && Schedules(s, c) && m <= |ScheduleCalls(s, run)|
    requires exists k | 0 <= k < m - 1 :: Selects(ScheduleCalls(Next(s, c), run[1..])[k], t)
    ensures exists k | 0 <= k < m :: Selects(ScheduleCalls(s, run)[k], t)
  {
    var k :| 0 <= k < m - 1 && Selects(ScheduleCalls(Next(s, c), run[1..])[k], t);
    assert ScheduleCalls(s, run)[k + 1] == ScheduleCalls(Next(s, c), run[1..])[k];
  }

  /** One call more if the first one uses a preselection whose walk read t asleep. */
  function Extra(calls: seq<State>, t: int): int {
    if calls != [] && Overlooks(calls[0], t) then 1 else 0
  }

  lemma {:induction false} SelectedFromFirst(s: State, run: seq<Choice>, t: int, peers: set<int>, m: int)
    requires Sane(s) && Legal(s, run) && t in peers
    requires m == |peers| + Extra(ScheduleCalls(s, run), t) <= |ScheduleCalls(s, run)|
    requires forall k | 0 <= k < m :: Competes(ScheduleCalls(s, run)[k], t, peers)
    ensures exists k | 0 <= k < m :: Selects(ScheduleCalls(s, run)[k], t)
    decreases |run|
  {
    var c, calls := run[0], ScheduleCalls(s, run);
    StepKeepsSane(s, c);
    if !Schedules(s, c) {
      SelectedFromFirst(Next(s, c), run[1..], t, peers, m);
    } else if !Selects(calls[0], t) {
      assert Competes(calls[0], t, peers);
      FewerAhead(Lasts(s.k.threads), s.idle, t, peers);
      if !Overlooks(s, t) {
        PassesOver(s, c, t, peers);
      }
      CallMoves(s, c, t, peers);
      CallConsiders(s, c, t, peers);
      LaterCalls(s, c, run, t, peers, m);
      ConsideredIsSelected(Next(s, c), run[1..], t, peers, m - 1);
      SelectedLater(s, c, run, t, m);
    }
  }

  /**
    From any point of any run on: a thread that competes in as many calls of schedule() as it has peers,
    itself included, is selected in one of them; in one call more, if the first of them uses a
    preselection whose walk read the thread asleep.
  */
  lemma CompetingThreadIsSelected(start: State, before: seq<Choice>, run: seq<Choice>, t: int, peers: set<int>)
    requires Initial(start) && Legal(start, before) && Legal(Run(start, before), run) && t in peers
    requires var calls := ScheduleCalls(Run(start, before), run);
             && |peers| + Extra(calls, t) <= |calls|
             && forall k | 0 <= k < |peers| + Extra(calls, t) :: Competes(calls[k], t, peers)
    ensures var calls := ScheduleCalls(Run(start, before), run);
            exists k | 0 <= k < |peers| + Extra(calls, t) :: Selects(calls[k], t)
  {
    ReachableInv(start, before);
    RunKeepsStored(start, before);
    var e := Run(start, before);
    SelectedFromFirst(e, run, t, peers, |peers| + Extra(ScheduleCalls(e, run), t));
  }

  // ------------------------------------------------------------------ the extra call is needed

  /** A walk that has read everything, up to the call of the scheduler, undisturbed. */
  lemma YieldEnds(r: State) returns (e: State)
    requires Reachable(r) && ShapeOk(r) && Mine(r).pc.Walking? && |Mine(r).seen| == |r.k.threads|
    requires Mine(r).start == r.k.counter && Mine(r).walk.candidate != r.current
    requires 0 <= Mine(r).walk.candidate < |r.k.threads|
    ensures Reachable(e) && ShapeOk(e) && Mine(e).pc.CallScheduler?
    ensures e.k == r.k && e.current == r.current && e.idle == r.idle && e.pre.choice == Mine(r).walk.candidate
  {
    Commit(r);
    GoThrice(r);
    GoThrice(Thrice(r));
    var c := Thrice(Thrice(r));
    Stores(c);
    GoOn(c);
    GoOn(Do(c));
    e := Do(Do(c));
  }

  /** idle was chosen, but thread 1 is the only one ready. */
  lemma OnlyOneCompetes(e: State)
    requires Inv(e) && Mine(e).pc.CallScheduler? && e.pre.choice == e.idle == 2 && e.k.tryAgain <= e.k.now
    requires |e.k.threads| == 3 && !Ready(e.k.threads[0], e.k.now) && Ready(e.k.threads[1], e.k.now)
    requires e.k.threads[1].priority > e.k.threads[2].priority
    ensures Schedules(e, Exec) && Competes(e, 1, {1}) && !Selects(e, 1)
  {
    assert Enabled(e, Exec);
  }

  lemma ChoiceOverlooks(e: State)
    requires Inv(e) && e.pre.choice == e.idle == 2 && |e.k.threads| == 3 && PrioritiesKept(e)
    requires e.k.threads[1].priority > e.k.threads[2].priority
    ensures Overlooks(e, 1)
  {
    PickIsTheBest(e.pre.source.view, 2, e.pre.source.now, 2);
  }

  /** A thread without a rival is passed over at the end of a yield that read it asleep. */
  lemma ExtraCallIsNeeded() returns (e: State)
    ensures Reachable(e) && Schedules(e, Exec) && Competes(e, 1, {1}) && Overlooks(e, 1) && !Selects(e, 1)
  {
    var s := ResumeIsLostHappens();
    Resumed(s, 1);
    Go(s, Resume(1));
    e := YieldEnds(Next(s, Resume(1)));
    ReachableHasInv(e);
    OnlyOneCompetes(e);
    KeptAtCall(e);
    ChoiceOverlooks(e);
  }

  lemma KeptAtCall(e: State)
    requires Reachable(e) && Inv(e) && Mine(e).pc.CallScheduler? && e.pre.choice != NOBODY
    ensures PrioritiesKept(e)
  {
    var start, run :| Initial(start) && Legal(start, run) && Run(start, run) == e;
    RunKeepsStored(start, run);
    assert LocalOk(e.k, e.idle, e.current, e.current, Mine(e));
  }
}
