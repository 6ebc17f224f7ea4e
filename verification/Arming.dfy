/**
  Arming the timer: Timer::updateTriggerToNextTimingEvent (src/bare-metal-generic/hw_specific_generic.cpp)
  as schedule() uses it.  The timer is never set to expire too early, nor too late for anybody.
*/
module Arming {
  import opened TimeModel
  import opened TimeEvents
  import opened Selection

  const MIN_SYS_TICK_SPACING := 500_000               // nanoseconds

  function Max(a: int, b: int): int {
    if a < b then b else a
  }

  /** The interval that is set, in microseconds. */
  function Interval(nextSchedulingEventTime: int, nextTimeEventTriggerTime: int, timeNow: int): int {
    var reactivationTime := Min(nextSchedulingEventTime, nextTimeEventTriggerTime);
    var nextOfNextBeat := ComputeNextBeat(0, MIN_SYS_TICK_SPACING, timeNow + MIN_SYS_TICK_SPACING);
    (Max(reactivationTime, nextOfNextBeat) - timeNow) / 1000
  }

  /** When a timer armed at timeNow with this interval expires. */
  function Expiry(timeNow: int, interval: int): int {
    timeNow + interval * 1000
  }

  /**
    The interval is at least the minimal spacing, and the timer expires no later than the event it is
    armed for or two spacings from now; rounding down to microseconds loses nothing of either.
  */
  lemma ArmingBounds(sched: int, event: int, timeNow: int)
    requires 0 <= timeNow && timeNow + 2 * MIN_SYS_TICK_SPACING <= END_OF_TIME
    ensures Interval(sched, event, timeNow) * 1000 >= MIN_SYS_TICK_SPACING
    ensures Expiry(timeNow, Interval(sched, event, timeNow)) <= Max(sched, timeNow + 2 * MIN_SYS_TICK_SPACING)
    ensures Expiry(timeNow, Interval(sched, event, timeNow)) <= Max(event, timeNow + 2 * MIN_SYS_TICK_SPACING)
    ensures Min(sched, event) >= timeNow + 2 * MIN_SYS_TICK_SPACING ==>
              Expiry(timeNow, Interval(sched, event, timeNow)) > Min(sched, event) - 1000
  {
    NextBeatIsFirst(0, MIN_SYS_TICK_SPACING, timeNow + MIN_SYS_TICK_SPACING);
    var beat := ComputeNextBeat(0, MIN_SYS_TICK_SPACING, timeNow + MIN_SYS_TICK_SPACING);
    var ns := Max(Min(sched, event), beat) - timeNow;
    assert ns > MIN_SYS_TICK_SPACING;
    assert ns / 1000 * 1000 <= ns < ns / 1000 * 1000 + 1000;
    assert ns / 1000 >= 500;
  }

  /**
    The timer is armed for the event, or, when that lies before it, for the first multiple of the spacing
    that is more than one spacing away; only the truncation to microseconds makes it expire earlier.
  */
  lemma ArmedForEventOrBeat(sched: int, event: int, timeNow: int) returns (beat: int)
    requires 0 <= timeNow && timeNow + 2 * MIN_SYS_TICK_SPACING <= END_OF_TIME
    ensures FirstBeatAfter(0, MIN_SYS_TICK_SPACING, timeNow + MIN_SYS_TICK_SPACING, beat)
    ensures var due := Max(Min(sched, event), beat);
            due - 1000 < Expiry(timeNow, Interval(sched, event, timeNow)) <= due
  {
    NextBeatIsFirst(0, MIN_SYS_TICK_SPACING, timeNow + MIN_SYS_TICK_SPACING);
    beat := ComputeNextBeat(0, MIN_SYS_TICK_SPACING, timeNow + MIN_SYS_TICK_SPACING);
    var ns := Max(Min(sched, event), beat) - timeNow;
    assert ns / 1000 * 1000 <= ns < ns / 1000 * 1000 + 1000;
  }

  /** The scheduler's variables, the thread list, the time events and the timer. */
  class Kernel {
    var threads: seq<Tcb>
    const idle: nat
    var scheduleCounter: nat
    var preSelectedNextToRun: int            // -1: null
    var preSelectedEarliestSuspendedUntil: int
    var timeToTryAgainToSchedule: int
    const events: EventList
    var timerInterval: int                   // microseconds

    constructor (threads: seq<Tcb>, idle: nat, events: EventList)
      requires idle < |threads|
      ensures this.threads == threads && this.idle == idle && this.events == events
      ensures scheduleCounter == 0 && preSelectedNextToRun == -1 && timeToTryAgainToSchedule == 0
    {
      this.threads, this.idle, this.events := threads, idle, events;
      scheduleCounter, preSelectedNextToRun, preSelectedEarliestSuspendedUntil := 0, -1, END_OF_TIME;
      timeToTryAgainToSchedule, timerInterval := 0, 0;
    }

    /** Timer::updateTriggerToNextTimingEvent. */
    method UpdateTrigger(nextSchedulingEventTime: int, nextTimeEventTriggerTime: int, timeNow: int)
      requires 0 <= timeNow && timeNow + 2 * MIN_SYS_TICK_SPACING <= END_OF_TIME
      modifies this`timerInterval
      ensures timerInterval == Interval(nextSchedulingEventTime, nextTimeEventTriggerTime, timeNow)
      ensures timerInterval * 1000 >= MIN_SYS_TICK_SPACING
      ensures Expiry(timeNow, timerInterval) <= Max(nextSchedulingEventTime, timeNow + 2 * MIN_SYS_TICK_SPACING)
      ensures Expiry(timeNow, timerInterval) <= Max(nextTimeEventTriggerTime, timeNow + 2 * MIN_SYS_TICK_SPACING)
    {
      var reactivationTime := Min(nextSchedulingEventTime, nextTimeEventTriggerTime);
      var nextOfNextBeat := ComputeNextBeat(0, MIN_SYS_TICK_SPACING, timeNow + MIN_SYS_TICK_SPACING);
      reactivationTime := Max(reactivationTime, nextOfNextBeat);
      var intervalInNanoSecs := reactivationTime - timeNow;
      timerInterval := intervalInNanoSecs / 1000;
      ArmingBounds(nextSchedulingEventTime, nextTimeEventTriggerTime, timeNow);
    }

    /** The walk (by yield or by schedule itself) that the selection comes from. */
    ghost predicate PreselectionFrom(view: seq<Tcb>, viewTime: int)
      reads this
    {
      preSelectedNextToRun != -1 ==>
        && |view| == |threads|
        && IsBest(view, idle, viewTime, preSelectedNextToRun)
        && IsWakeBound(view, viewTime, preSelectedNextToRun, preSelectedEarliestSuspendedUntil)
    }

    /**
      Scheduler::schedule, which reads the clock three times.  Whichever walk the selection comes from:
      the selected thread is its best; it alone is stamped; and the timer expires no later than
      max(due time, now + 2 * MIN_SYS_TICK_SPACING) for every time event, for every thread that the
      walk saw asleep with at least the selected priority, and for the end of the time slice.
    */
    method Schedule(findTime: int, sliceTime: int, timerTime: int, ghost view: seq<Tcb>, ghost viewTime: int)
      returns (next: nat)
      requires idle < |threads| && 0 <= findTime <= sliceTime <= timerTime
      requires timerTime + 2 * MIN_SYS_TICK_SPACING <= END_OF_TIME
      requires PreselectionFrom(view, viewTime)
      modifies this
      ensures events.events == old(events.events)
      ensures scheduleCounter == old(scheduleCounter) + 1 && preSelectedNextToRun == -1
      ensures next < |threads| == |old(threads)|
      ensures threads == old(threads)[next := old(threads)[next].(lastActivation := scheduleCounter)]
      ensures var seen := if old(preSelectedNextToRun) != -1 then view else old(threads);
              var seenAt := if old(preSelectedNextToRun) != -1 then viewTime else findTime;
              && |seen| == |threads|
              && IsBest(seen, idle, seenAt, next)
              && (forall i | 0 <= i < |seen| && !Ready(seen[i], seenAt) && seen[i].priority >= seen[next].priority ::
                    Expiry(timerTime, timerInterval) <=
                    Max(seen[i].suspendedUntil, timerTime + 2 * MIN_SYS_TICK_SPACING))
      ensures forall j | 0 <= j < |events.events| ::
                Expiry(timerTime, timerInterval) <= Max(events.events[j].eventAt, timerTime + 2 * MIN_SYS_TICK_SPACING)
      ensures Expiry(timerTime, timerInterval) <=
                Max(sliceTime + TIME_SLICE_FOR_SAME_PRIORITY, timerTime + 2 * MIN_SYS_TICK_SPACING)
      ensures timeToTryAgainToSchedule ==
                Min(if old(preSelectedNextToRun) != -1 then old(preSelectedEarliestSuspendedUntil)
                    else Walked(old(threads), idle, findTime, |old(threads)|).earliest,
                    sliceTime + TIME_SLICE_FOR_SAME_PRIORITY)
      ensures timerInterval == Interval(timeToTryAgainToSchedule, NextTrigger(events.events), timerTime)
      ensures timerInterval * 1000 >= MIN_SYS_TICK_SPACING
    {
      scheduleCounter := scheduleCounter + 1;
      var earliest := preSelectedEarliestSuspendedUntil;
      if preSelectedNextToRun == -1 {
        next, earliest := FindNextToRun(threads, idle, findTime);
      } else {
        next := preSelectedNextToRun;
      }
      preSelectedNextToRun := -1;
      threads := threads[next := threads[next].(lastActivation := scheduleCounter)];
      var nextTimeEventTime := events.GetNextTriggerTime();
      timeToTryAgainToSchedule := Min(earliest, TIME_SLICE_FOR_SAME_PRIORITY + sliceTime);
      UpdateTrigger(timeToTryAgainToSchedule, nextTimeEventTime, timerTime);
    }
  }
}
