/**
  A yield that is overtaken: one during which a schedule() falls between its reading of the schedule
  counter and the end of its walk gives up, and has then touched nothing.
*/
module YieldOvertaken {
  import opened TimeModel
  import opened Selection
  import opened BoundedWaiting
  import opened YieldProtocol
  import opened YieldTheorems
  import opened YieldWaiting

  // ------------------------------------------------------------------ runs from their end

  lemma {:induction false} LastStep(s: State, run: seq<Choice>)
    requires Legal(s, run) && run != []
    ensures var n := |run| - 1;
            && Legal(s, run[..n]) && Enabled(Run(s, run[..n]), run[n])
            && Run(s, run) == Next(Run(s, run[..n]), run[n])
    decreases |run|
  {
    var n := |run| - 1;
    if n == 0 {
      assert run[..0] == [] && run[1..] == [];
    } else {
      LastStep(Next(s, run[0]), run[1..]);
      assert run[1..][..n - 1] == run[..n][1..];
    }
  }

  /** After the first k steps of a run. */
  predicate IsAfter(s: State, run: seq<Choice>, k: int, a: State) {
    0 <= k <= |run| && Legal(s, run[..k]) && Run(s, run[..k]) == a
  }

  // ------------------------------------------------------------------ who gets past the test

  /** Past the first test, on the way to the scheduler. */
  predicate Committed(pc: Pc) {
    pc.CheckSelf? || pc.TakeLock? || Locked(pc)
  }

  /** In state a, thread t executes the first test while the counter is still the one that it read. */
  predicate PassesTest(a: State, c: Choice, t: int, start: int) {
    && ShapeOk(a) && c.Exec? && a.current == t && Mine(a).pc.CheckCounter?
    && Mine(a).start == start == a.k.counter
  }

  /** What a step does to the locals of thread t. */
  lemma StepOfThread(s: State, c: Choice, t: int)
    requires Enabled(s, c) && 0 <= t < |s.locals|
    ensures var l := Next(s, c).locals[t];
            && |Next(s, c).locals| == |s.locals|
            && (Committed(l.pc) ==> l.start == s.locals[t].start
                                    && (Committed(s.locals[t].pc) || PassesTest(s, c, t, l.start)))
  {
  }

  /**
    In every run, whoever is past the first test of yield, or holds its lock, has executed that test at
    an instant when no schedule() had fallen since it read the counter, and has been on its way since.
  */
  lemma {:induction false} CommittedPassedTest(s: State, run: seq<Choice>, t: int) returns (k: nat, a: State)
    requires Initial(s) && Legal(s, run) && 0 <= t < |s.locals| == |Run(s, run).locals|
    requires Committed(Run(s, run).locals[t].pc)
    ensures k < |run| && IsAfter(s, run, k, a) && PassesTest(a, run[k], t, Run(s, run).locals[t].start)
    decreases |run|
  {
    var n := |run| - 1;
    LastStep(s, run);
    RunKeepsConstants(s, run[..n]);
    a := Run(s, run[..n]);
    StepOfThread(a, run[n], t);
    if Committed(a.locals[t].pc) {
      k, a := CommittedPassedTest(s, run[..n], t);
      assert run[..n][..k] == run[..k] && run[..n][k] == run[k];
    } else {
      k := n;
    }
  }

  // ------------------------------------------------------------------ who does not

  predicate Looking(pc: Pc) {
    pc.StartWalk? || pc.Walking? || pc.CheckCounter?
  }

  predicate IsLooking(s: State, t: int) {
    ShapeOk(s) && 0 <= t < |s.locals| && Looking(s.locals[t].pc)
  }

  /** Thread t runs and executes the test next. */
  predicate AtTest(s: State, t: int) {
    IsLooking(s, t) && s.current == t && Mine(s).pc.CheckCounter?
  }

  /** Thread t stays between reading the counter and the test. */
  predicate KeepsLooking(s: State, run: seq<Choice>, t: int)
    requires Legal(s, run)
    decreases |run|
  {
    IsLooking(s, t) && (run == [] || KeepsLooking(Next(s, run[0]), run[1..], t))
  }

  /** Only the running thread's locals differ. */
  predicate Untouched(a: State, b: State) {
    b.k == a.k && b.pre == a.pre && b.lock == a.lock && b.h == a.h && b.current == a.current && b.idle == a.idle
  }

  /** Thread t's own statements in this run change nothing but its locals. */
  predicate OwnStepsTouchNothing(s: State, run: seq<Choice>, t: int)
    requires Legal(s, run)
    decreases |run|
  {
    run == [] || (&& (s.current == t && run[0].Exec? ==> Untouched(s, Next(s, run[0])))
                  && OwnStepsTouchNothing(Next(s, run[0]), run[1..], t))
  }

  lemma LookingStep(s: State, c: Choice, t: int)
    requires Enabled(s, c) && IsLooking(s, t)
    ensures IsLooking(Next(s, c), t) ==> Next(s, c).locals[t].start == s.locals[t].start
    ensures s.current == t && c.Exec? ==> Untouched(s, Next(s, c))
  {
  }

  lemma CounterCounts(s: State, c: Choice)
    requires Enabled(s, c)
    ensures Next(s, c).k.counter == s.k.counter + (if Schedules(s, c) then 1 else 0)
  {
  }

  lemma {:induction false} LookingOn(s: State, run: seq<Choice>, t: int)
    requires Legal(s, run) && KeepsLooking(s, run, t)
    ensures var e := Run(s, run);
            && IsLooking(e, t) && e.locals[t].start == s.locals[t].start
            && e.k.counter == s.k.counter + |ScheduleCalls(s, run)|
    ensures OwnStepsTouchNothing(s, run, t)
    decreases |run|
  {
    if run != [] {
      LookingStep(s, run[0], t);
      CounterCounts(s, run[0]);
      LookingOn(Next(s, run[0]), run[1..], t);
    }
  }

  /**
    From any point of any run: a thread reads the counter in yield, and later reaches the test.  Up to
    there its yield touches nothing, so takes no lock, stores nothing and calls no scheduler.  If and only
    if some schedule() fell in between, the test ends the yield there, and it still touches nothing.
  */
  lemma OvertakenYieldGivesUp(start: State, before: seq<Choice>, run: seq<Choice>, t: int)
    requires Initial(start) && Legal(start, before)
    requires var s := Run(start, before); ShapeOk(s) && s.current == t && Mine(s).pc.ReadCounter?
    requires var s := Run(start, before);
             && Enabled(s, Exec) && Legal(Next(s, Exec), run) && KeepsLooking(Next(s, Exec), run, t)
             && AtTest(Run(Next(s, Exec), run), t)
    ensures var s := Run(start, before);
            && Untouched(s, Next(s, Exec)) && OwnStepsTouchNothing(Next(s, Exec), run, t)
    ensures var b := Next(Run(start, before), Exec);
            var e := Run(b, run);
            && Enabled(e, Exec) && Untouched(e, Next(e, Exec))
            && (Next(e, Exec).locals[t].pc.User? <==> ScheduleCalls(b, run) != [])
            && (Committed(Next(e, Exec).locals[t].pc) <==> ScheduleCalls(b, run) == [])
  {
    var s := Run(start, before);
    LookingOn(Next(s, Exec), run, t);
    LookingStep(Run(Next(s, Exec), run), Exec, t);
  }

  // ------------------------------------------------------------------ who chose itself

  /** Past the second test, on the way to the scheduler. */
  predicate GivesWay(pc: Pc) {
    pc.TakeLock? || Locked(pc)
  }

  /** In every run, whoever is past the second test of yield, or holds its lock, has chosen another thread. */
  lemma {:induction false} LockedForAnother(s: State, run: seq<Choice>, t: int)
    requires Initial(s) && Legal(s, run) && 0 <= t < |s.locals| == |Run(s, run).locals|
    requires GivesWay(Run(s, run).locals[t].pc)
    ensures Run(s, run).locals[t].walk.candidate != t
    decreases |run|
  {
    var n := |run| - 1;
    LastStep(s, run);
    RunKeepsConstants(s, run[..n]);
    var a := Run(s, run[..n]);
    GivingWayStep(a, run[n], t);
    if GivesWay(a.locals[t].pc) {
      LockedForAnother(s, run[..n], t);
    }
  }

  lemma GivingWayStep(s: State, c: Choice, t: int)
    requires Enabled(s, c) && 0 <= t < |s.locals|
    ensures var l := Next(s, c).locals[t];
            && |Next(s, c).locals| == |s.locals|
            && (GivesWay(l.pc) && GivesWay(s.locals[t].pc) ==> l.walk == s.locals[t].walk)
            && (GivesWay(l.pc) && !GivesWay(s.locals[t].pc) ==> l.walk.candidate != t)
  {
  }

  /** An undisturbed yield of the thread that is to run anyway ends behind its second test and has touched nothing. */
  lemma BestThreadGoesOn(s: State) returns (e: State)
    requires Inv(s) && Mine(s).pc.ReadCounter? && Pick(s.k.threads, s.idle, s.k.now) == s.current
    ensures e == Thrice(DoN(Do(Do(s)), |s.k.threads|)) && ShapeOk(e) && e == WithLocal(s, Mine(e)) && Mine(e).pc.User?
  {
    UndisturbedWalk(s);
    var w := DoN(Do(Do(s)), |s.k.threads|);
    TestsItself(w);
    e := WithLocal(w, Mine(w).(pc := User));
  }

  lemma TestsItself(s: State)
    requires ShapeOk(s) && Mine(s).pc.Walking? && |Mine(s).seen| == |s.k.threads|
    requires Mine(s).start == s.k.counter && Mine(s).walk.candidate == s.current
    ensures Thrice(s) == WithLocal(s, Mine(s).(pc := User))
  {
    var l := Mine(s);
    OwnStepIs(s);
    var e1 := WithLocal(s, l.(pc := CheckCounter));
    assert Do(s) == e1;
    OwnStepIs(e1);
    var e2 := WithLocal(s, l.(pc := CheckSelf));
    assert Do(e1) == e2;
    OwnStepIs(e2);
  }
}
