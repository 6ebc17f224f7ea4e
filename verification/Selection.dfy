/**
  Choosing the next thread to run: Thread::findNextToRun and Thread::findNextWaitingFor
  (src/bare-metal-generic/thread_on_hw.cpp).
*/
module Selection {
  import opened TimeModel

  /** The part of a thread that scheduling looks at; waitingFor is 0 when the thread waits for nobody. */
  datatype Tcb = Tcb(priority: int, suspendedUntil: int, lastActivation: int, waitingFor: int)

  /** "In the past": the comparison is strict. */
  predicate Ready(t: Tcb, now: int) {
    t.suspendedUntil < now
  }

  /** Position in the order of equals; the idle thread is the default and so comes first. */
  function Rank(idle: int, i: int): int {
    if i == idle then -1 else i
  }

  /** Longest without the processor first, then by position. */
  predicate Earlier(idle: int, a: int, lastA: int, b: int, lastB: int) {
    lastA < lastB || (lastA == lastB && Rank(idle, a) < Rank(idle, b))
  }

  /** Thread a is preferred to thread b. */
  predicate Precedes(ts: seq<Tcb>, idle: int, a: int, b: int)
    requires 0 <= a < |ts| && 0 <= b < |ts|
  {
    ts[a].priority > ts[b].priority
    || (ts[a].priority == ts[b].priority && Earlier(idle, a, ts[a].lastActivation, b, ts[b].lastActivation))
  }

  /** w is idle or ready, and preferred to every other such thread. */
  predicate IsBest(ts: seq<Tcb>, idle: int, now: int, w: int) {
    && 0 <= w < |ts|
    && (w == idle || Ready(ts[w], now))
    && forall i | 0 <= i < |ts| && i != w && (i == idle || Ready(ts[i], now)) :: Precedes(ts, idle, w, i)
  }

  /** e is no later than the wake-up of any thread that could take over from w, and is not invented. */
  predicate IsWakeBound(ts: seq<Tcb>, now: int, w: int, e: int)
    requires 0 <= w < |ts|
  {
    && now <= e <= END_OF_TIME
    && (forall i | 0 <= i < |ts| && !Ready(ts[i], now) && ts[i].priority >= ts[w].priority :: e <= ts[i].suspendedUntil)
    && (e == END_OF_TIME || exists i | 0 <= i < |ts| :: !Ready(ts[i], now) && ts[i].suspendedUntil == e)
  }

  /** The two variables that the list walk updates. */
  datatype Walk = Walk(candidate: int, earliest: int)

  /** One iteration, for list element i with record t, against the record of the moving candidate. */
  function WalkOne(w: Walk, i: int, t: Tcb, candidate: Tcb, now: int): Walk {
    if Ready(t, now) then
      if t.priority > candidate.priority
         || (t.priority == candidate.priority && t.lastActivation < candidate.lastActivation)
      then w.(candidate := i) else w
    else if t.priority >= candidate.priority then
      w.(earliest := if w.earliest < t.suspendedUntil then w.earliest else t.suspendedUntil)
    else w
  }

  /** The walk over the first n list elements. */
  function Walked(ts: seq<Tcb>, idle: int, now: int, n: nat): (w: Walk)
    requires 0 <= idle < |ts| && n <= |ts|
    ensures w.candidate == idle || 0 <= w.candidate < n
  {
    if n == 0 then Walk(idle, END_OF_TIME)
    else
      var w := Walked(ts, idle, now, n - 1);
      WalkOne(w, n - 1, ts[n - 1], ts[w.candidate], now)
  }

  function Pick(ts: seq<Tcb>, idle: int, now: int): (p: int)
    requires 0 <= idle < |ts|
    ensures 0 <= p < |ts|
  {
    Walked(ts, idle, now, |ts|).candidate
  }

  /** After n elements the candidate is the best of them and idle. */
  lemma {:induction false} WalkedBest(ts: seq<Tcb>, idle: int, now: int, n: nat)
    requires 0 <= idle < |ts| && n <= |ts|
    ensures var c := Walked(ts, idle, now, n).candidate;
            && (c == idle || Ready(ts[c], now))
            && forall i | 0 <= i < |ts| && i != c && (i == idle || (i < n && Ready(ts[i], now))) ::
                 Precedes(ts, idle, c, i)
  {
    if n > 0 {
      WalkedBest(ts, idle, now, n - 1);
    }
  }

  /** The bound was collected against candidates of lower priority, so it covers more than the winner's rivals. */
  lemma {:induction false} WalkedBound(ts: seq<Tcb>, idle: int, now: int, n: nat)
    requires 0 <= idle < |ts| && n <= |ts| && now <= END_OF_TIME
    ensures var w := Walked(ts, idle, now, n);
            && now <= w.earliest <= END_OF_TIME
            && (forall i | 0 <= i < n && !Ready(ts[i], now) && ts[i].priority >= ts[w.candidate].priority ::
                  w.earliest <= ts[i].suspendedUntil)
            && (w.earliest == END_OF_TIME
                || exists i | 0 <= i < n :: !Ready(ts[i], now) && ts[i].suspendedUntil == w.earliest)
  {
    if n > 0 {
      WalkedBound(ts, idle, now, n - 1);
    }
  }

  /** findNextToRun returns a best thread, and there is only one. */
  lemma PickIsTheBest(ts: seq<Tcb>, idle: int, now: int, w: int)
    requires 0 <= idle < |ts|
    ensures IsBest(ts, idle, now, w) <==> w == Pick(ts, idle, now)
  {
    WalkedBest(ts, idle, now, |ts|);
  }

  lemma EarliestIsWakeBound(ts: seq<Tcb>, idle: int, now: int)
    requires 0 <= idle < |ts| && now <= END_OF_TIME
    ensures IsWakeBound(ts, now, Pick(ts, idle, now), Walked(ts, idle, now, |ts|).earliest)
  {
    WalkedBound(ts, idle, now, |ts|);
  }

  /** Asleep, and not below idle nor any ready thread that stands before it in the list. */
  predicate MayTakeOver(ts: seq<Tcb>, idle: int, now: int, i: int)
    requires 0 <= idle < |ts|
  {
    && 0 <= i < |ts| && !Ready(ts[i], now) && ts[idle].priority <= ts[i].priority
    && forall j | 0 <= j < i && Ready(ts[j], now) :: ts[j].priority <= ts[i].priority
  }

  /** The bound is exactly the first wake-up among those threads: no thread is forgotten, and none below wakes anybody early. */
  lemma {:induction false} EarliestExactly(ts: seq<Tcb>, idle: int, now: int, n: nat)
    requires 0 <= idle < |ts| && n <= |ts| && now <= END_OF_TIME
    ensures var e := Walked(ts, idle, now, n).earliest;
            && (forall i | 0 <= i < n && MayTakeOver(ts, idle, now, i) :: e <= ts[i].suspendedUntil)
            && (e == END_OF_TIME || exists i | 0 <= i < n :: MayTakeOver(ts, idle, now, i) && ts[i].suspendedUntil == e)
    decreases n
  {
    if n > 0 {
      EarliestExactly(ts, idle, now, n - 1);
      CandidateIsHighest(ts, idle, now, n - 1);
    }
  }

  lemma CandidateIsHighest(ts: seq<Tcb>, idle: int, now: int, n: nat)
    requires 0 <= idle < |ts| && n < |ts|
    ensures ts[Walked(ts, idle, now, n).candidate].priority <= ts[n].priority && !Ready(ts[n], now) <==>
            MayTakeOver(ts, idle, now, n)
  {
    WalkedBest(ts, idle, now, n);
  }

  /** The walk reads only priority and activation of the candidate, so later changes of wake-up times do not matter. */
  lemma {:induction false} WalkedFrame(a: seq<Tcb>, b: seq<Tcb>, idle: int, now: int, n: nat)
    requires |a| == |b| && 0 <= idle < |a| && n <= |a|
    requires a[..n] == b[..n]
    requires a[idle].priority == b[idle].priority && a[idle].lastActivation == b[idle].lastActivation
    ensures Walked(a, idle, now, n) == Walked(b, idle, now, n)
  {
    if n > 0 {
      assert a[..n - 1] == a[..n][..n - 1] == b[..n - 1];
      WalkedFrame(a, b, idle, now, n - 1);
      assert a[n - 1] == a[..n][n - 1] == b[n - 1];
      var c := Walked(a, idle, now, n - 1).candidate;
      assert c != idle ==> a[c] == a[..n][c] == b[c];
    }
  }

  /** Thread::findNextToRun, as the loop it is. */
  method FindNextToRun(threads: seq<Tcb>, idle: nat, now: int)
    returns (next: nat, selectedEarliestSuspendedUntil: int)
    requires idle < |threads| && now <= END_OF_TIME
    ensures IsBest(threads, idle, now, next)
    ensures IsWakeBound(threads, now, next, selectedEarliestSuspendedUntil)
    ensures Walk(next, selectedEarliestSuspendedUntil) == Walked(threads, idle, now, |threads|)
  {
    next := idle;
    selectedEarliestSuspendedUntil := END_OF_TIME;
    for i := 0 to |threads|
      invariant next < |threads|
      invariant Walk(next, selectedEarliestSuspendedUntil) == Walked(threads, idle, now, i)
    {
      var t, c := threads[i], threads[next];
      if t.suspendedUntil < now {
        if t.priority > c.priority {
          next := i;
        } else if t.priority == c.priority {
          if t.lastActivation < c.lastActivation {
            next := i;
          }
        }
      } else if t.priority >= c.priority {
        if !(selectedEarliestSuspendedUntil < t.suspendedUntil) {
          selectedEarliestSuspendedUntil := t.suspendedUntil;
        }
      }
    }
    PickIsTheBest(threads, idle, now, next);
    EarliestIsWakeBound(threads, idle, now);
  }

  /** w waits for the signaler and is preferred to every other waiter and to idle. */
  predicate IsBestWaiter(ts: seq<Tcb>, idle: int, signaler: int, w: int) {
    && 0 <= w < |ts| && w != idle && ts[w].waitingFor == signaler
    && forall i | 0 <= i < |ts| && i != w && (i == idle || ts[i].waitingFor == signaler) :: Precedes(ts, idle, w, i)
  }

  /** Thread::findNextWaitingFor; -1 stands for the null pointer. */
  method FindNextWaitingFor(threads: seq<Tcb>, idle: nat, signaler: int) returns (waiter: int)
    requires idle < |threads|
    ensures waiter == -1 || IsBestWaiter(threads, idle, signaler, waiter)
    ensures waiter == -1 ==> forall i | 0 <= i < |threads| && i != idle && threads[i].waitingFor == signaler ::
                               Precedes(threads, idle, idle, i)
  {
    var next: nat := idle;
    for n := 0 to |threads|
      invariant next < |threads|
      invariant next == idle || (next < n && threads[next].waitingFor == signaler)
      invariant forall i | 0 <= i < |threads| && i != next && (i == idle || (i < n && threads[i].waitingFor == signaler)) ::
                  Precedes(threads, idle, next, i)
    {
      var t, c := threads[n], threads[next];
      if t.waitingFor == signaler {
        if t.priority > c.priority {
          next := n;
        } else if t.priority == c.priority {
          if t.lastActivation < c.lastActivation {
            next := n;
          }
        }
      }
    }
    if next == idle {
      return -1;
    }
    return next;
  }
}
