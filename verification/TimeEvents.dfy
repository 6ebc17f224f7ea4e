/** Time events and their propagation (src/independent/timeevent.cpp). */
module TimeEvents {
  import opened TimeModel

  datatype TimeEvent = TimeEvent(eventAt: int, eventPeriod: int)

  /** Strictly in the past. */
  predicate Due(e: TimeEvent, timeNow: int) {
    e.eventAt < timeNow
  }

  /** What propagate does to an event itself. */
  function Advance(e: TimeEvent, timeNow: int): TimeEvent {
    if !Due(e, timeNow) then e
    else e.(eventAt := if e.eventPeriod == 0 then END_OF_TIME
                       else ComputeNextBeat(e.eventAt, e.eventPeriod, timeNow))
  }

  /** handle(): event number i's handler turns the list of events into another of the same length. */
  type Handler = (seq<TimeEvent>, nat) -> seq<TimeEvent>

  ghost predicate KeepsLength(h: Handler) {
    forall es, i :: |h(es, i)| == |es|
  }

  /** No handler touches event number j. */
  ghost predicate LeavesAlone(h: Handler, j: nat) {
    forall es, i :: j < |es| && |h(es, i)| == |es| ==> h(es, i)[j] == es[j]
  }

  function CountDue(es: seq<TimeEvent>, timeNow: int): nat {
    if es == [] then 0 else (if Due(es[0], timeNow) then 1 else 0) + CountDue(es[1..], timeNow)
  }

  /** propagate from event number i on: an event that is due when its turn comes is advanced first and handled then. */
  function Propagated(es: seq<TimeEvent>, i: nat, timeNow: int, h: Handler): (seq<TimeEvent>, nat)
    requires KeepsLength(h)
    decreases |es| - i
  {
    if i >= |es| then (es, 0)
    else if !Due(es[i], timeNow) then Propagated(es, i + 1, timeNow, h)
    else
      var (rest, n) := Propagated(h(es[i := Advance(es[i], timeNow)], i), i + 1, timeNow, h);
      (rest, n + 1)
  }

  /** Whatever the other handlers do to other events, a handler's change to its own event stands. */
  lemma {:induction false} OwnChangeStands(es: seq<TimeEvent>, i: nat, j: nat, timeNow: int, h: Handler)
    requires KeepsLength(h) && j < i <= |es|
    requires forall k: nat, fs | j < k && j < |fs| :: h(fs, k)[j] == fs[j]
    ensures |Propagated(es, i, timeNow, h).0| == |es| && Propagated(es, i, timeNow, h).0[j] == es[j]
    decreases |es| - i
  {
    if i < |es| {
      if Due(es[i], timeNow) {
        OwnChangeStands(h(es[i := Advance(es[i], timeNow)], i), i + 1, j, timeNow, h);
      } else {
        OwnChangeStands(es, i + 1, j, timeNow, h);
      }
    }
  }

  /** The list when event number j's turn comes. */
  function AtTurn(es: seq<TimeEvent>, i: nat, j: nat, timeNow: int, h: Handler): (fs: seq<TimeEvent>)
    requires KeepsLength(h) && i <= j < |es|
    ensures |fs| == |es|
    decreases j - i
  {
    if i == j then es
    else AtTurn(if Due(es[i], timeNow) then h(es[i := Advance(es[i], timeNow)], i) else es, i + 1, j, timeNow, h)
  }

  /** No handler of a later event touches event number j. */
  ghost predicate LaterLeaveAlone(h: Handler, j: nat) {
    forall k: nat, fs | j < k && j < |fs| == |h(fs, k)| :: h(fs, k)[j] == fs[j]
  }

  /**
    An event that is due at its turn is advanced first, and its handler then works on the list in which
    it is advanced: what the handler makes of the event is what is left of it, unless a later handler
    changes it.
  */
  lemma {:induction false} HandlerActsOnAdvanced(es: seq<TimeEvent>, i: nat, j: nat, timeNow: int, h: Handler)
    requires KeepsLength(h) && LaterLeaveAlone(h, j) && i <= j < |es|
    ensures |Propagated(es, i, timeNow, h).0| == |es|
    ensures var fs := AtTurn(es, i, j, timeNow, h);
            Propagated(es, i, timeNow, h).0[j] ==
            if Due(fs[j], timeNow) then h(fs[j := Advance(fs[j], timeNow)], j)[j] else fs[j]
    decreases j - i
  {
    PropagatedLength(es, i, timeNow, h);
    var next := if Due(es[i], timeNow) then h(es[i := Advance(es[i], timeNow)], i) else es;
    if i == j {
      OwnChangeStands(next, j + 1, j, timeNow, h);
    } else {
      HandlerActsOnAdvanced(next, i + 1, j, timeNow, h);
    }
  }

  lemma {:induction false} PropagatedLength(es: seq<TimeEvent>, i: nat, timeNow: int, h: Handler)
    requires KeepsLength(h)
    ensures |Propagated(es, i, timeNow, h).0| == |es|
    decreases |es| - i
  {
    if i < |es| {
      PropagatedLength(if Due(es[i], timeNow) then h(es[i := Advance(es[i], timeNow)], i) else es, i + 1, timeNow, h);
    }
  }

  /** The events that are due when their turn comes. */
  function DueTurns(es: seq<TimeEvent>, i: nat, timeNow: int, h: Handler): set<int>
    requires KeepsLength(h)
  {
    set j: int | i <= j < |es| && Due(AtTurn(es, i, j, timeNow, h)[j], timeNow)
  }

  /** Whatever handlers do, the result counts the events that were due at their turn. */
  lemma {:induction false} CountsTurns(es: seq<TimeEvent>, i: nat, timeNow: int, h: Handler)
    requires KeepsLength(h) && i <= |es|
    ensures Propagated(es, i, timeNow, h).1 == |DueTurns(es, i, timeNow, h)|
    decreases |es| - i
  {
    if i < |es| {
      var next := if Due(es[i], timeNow) then h(es[i := Advance(es[i], timeNow)], i) else es;
      CountsTurns(next, i + 1, timeNow, h);
      var rest := DueTurns(next, i + 1, timeNow, h);
      assert DueTurns(es, i, timeNow, h) == (if Due(es[i], timeNow) then {i} else {}) + rest;
      assert i !in rest;
    } else {
      assert DueTurns(es, i, timeNow, h) == {};
    }
  }

  /** Event number j's handler turns it into f of it, and no other handler touches it. */
  ghost predicate OwnHandlerDoes(h: Handler, j: nat, f: TimeEvent -> TimeEvent) {
    && (forall k: nat, fs | k != j && j < |fs| == |h(fs, k)| :: h(fs, k)[j] == fs[j])
    && (forall fs | j < |fs| == |h(fs, j)| :: h(fs, j)[j] == f(fs[j]))
  }

  lemma {:induction false} UntouchedUntilTurn(es: seq<TimeEvent>, i: nat, j: nat, timeNow: int, h: Handler,
                                              f: TimeEvent -> TimeEvent)
    requires KeepsLength(h) && OwnHandlerDoes(h, j, f) && i <= j < |es|
    ensures AtTurn(es, i, j, timeNow, h)[j] == es[j]
    decreases j - i
  {
    if i < j {
      UntouchedUntilTurn(if Due(es[i], timeNow) then h(es[i := Advance(es[i], timeNow)], i) else es, i + 1, j, timeNow, h, f);
    }
  }

  /** Whatever all other events do: an event whose handler sets it anew ends as its handler set it. */
  lemma RearmStands(es: seq<TimeEvent>, j: nat, timeNow: int, h: Handler, f: TimeEvent -> TimeEvent)
    requires KeepsLength(h) && OwnHandlerDoes(h, j, f) && j < |es|
    ensures |Propagated(es, 0, timeNow, h).0| == |es|
    ensures Propagated(es, 0, timeNow, h).0[j] ==
            if Due(es[j], timeNow) then f(Advance(es[j], timeNow)) else es[j]
  {
    UntouchedUntilTurn(es, 0, j, timeNow, h, f);
    HandlerActsOnAdvanced(es, 0, j, timeNow, h);
    PropagatedLength(es, 0, timeNow, h);
  }

  /** An event that no handler touches is advanced once if and only if it is due. */
  lemma {:induction false} UntouchedAdvances(es: seq<TimeEvent>, i: nat, j: nat, timeNow: int, h: Handler)
    requires KeepsLength(h) && LeavesAlone(h, j) && i <= |es| && j < |es|
    ensures |Propagated(es, i, timeNow, h).0| == |es|
    ensures Propagated(es, i, timeNow, h).0[j] == if i <= j then Advance(es[j], timeNow) else es[j]
    decreases |es| - i
  {
    if i < |es| {
      if Due(es[i], timeNow) {
        var advanced := es[i := Advance(es[i], timeNow)];
        assert h(advanced, i)[j] == advanced[j];
        UntouchedAdvances(h(advanced, i), i + 1, j, timeNow, h);
      } else {
        UntouchedAdvances(es, i + 1, j, timeNow, h);
      }
    }
  }

  ghost predicate LeavesAll(h: Handler, n: nat) {
    forall j: nat | j < n :: LeavesAlone(h, j)
  }

  lemma NothingTouched(es: seq<TimeEvent>, i: nat, h: Handler)
    requires KeepsLength(h) && LeavesAll(h, |es|)
    ensures h(es, i) == es
  {
    forall j: nat | j < |es|
      ensures h(es, i)[j] == es[j]
    {
      assert LeavesAlone(h, j);
    }
  }

  /** When handlers touch no event, each due event is handled once, and no other. */
  lemma {:induction false} CountsTheDue(es: seq<TimeEvent>, i: nat, timeNow: int, h: Handler)
    requires KeepsLength(h) && LeavesAll(h, |es|) && i <= |es|
    ensures Propagated(es, i, timeNow, h).1 == CountDue(es[i..], timeNow)
    decreases |es| - i
  {
    if i < |es| {
      assert es[i..][1..] == es[i + 1..];
      if Due(es[i], timeNow) {
        var advanced := es[i := Advance(es[i], timeNow)];
        NothingTouched(advanced, i, h);
        CountsTheDue(advanced, i + 1, timeNow, h);
        assert advanced[i + 1..] == es[i + 1..];
      } else {
        CountsTheDue(es, i + 1, timeNow, h);
      }
    }
  }

  /** The least event time, or the end of time. */
  function NextTrigger(es: seq<TimeEvent>): int {
    if es == [] then END_OF_TIME else Min(es[|es| - 1].eventAt, NextTrigger(es[..|es| - 1]))
  }

  class EventList {
    var events: seq<TimeEvent>

    constructor (n: nat)
      ensures events == seq(n, _ => TimeEvent(END_OF_TIME, 0))
    {
      events := seq(n, _ => TimeEvent(END_OF_TIME, 0));
    }

    method ActivateAt(i: nat, time: int)
      requires i < |events|
      modifies this
      ensures events == old(events)[i := TimeEvent(time, 0)]
    {
      events := events[i := TimeEvent(time, 0)];
    }

    method ActivatePeriodic(i: nat, startAt: int, period: int)
      requires i < |events|
      modifies this
      ensures events == old(events)[i := TimeEvent(startAt, period)]
    {
      events := events[i := TimeEvent(startAt, period)];
    }

    /**
      Calls the handler of every event that is due when its turn comes.  An event that the handlers
      leave alone ends up advanced, once, if and only if it was due; when they leave all of them
      alone, the result is the number of due events.
    */
    method Propagate(timeNow: int, h: Handler) returns (cnt: nat)
      requires KeepsLength(h)
      modifies this
      ensures (events, cnt) == Propagated(old(events), 0, timeNow, h) && |events| == |old(events)|
      ensures forall j: nat | j < |events| && LeavesAlone(h, j) :: events[j] == Advance(old(events)[j], timeNow)
      ensures LeavesAll(h, |events|) ==> cnt == CountDue(old(events), timeNow)
    {
      cnt := 0;
      ghost var was := events;
      var i := 0;
      while i < |events|
        invariant 0 <= i <= |events| == |was|
        invariant Propagated(was, 0, timeNow, h).0 == Propagated(events, i, timeNow, h).0
        invariant Propagated(was, 0, timeNow, h).1 == cnt + Propagated(events, i, timeNow, h).1
      {
        var e := events[i];
        if e.eventAt < timeNow {
          ghost var advanced := events[i := Advance(e, timeNow)];
          if e.eventPeriod == 0 {
            events := events[i := e.(eventAt := END_OF_TIME)];
          } else {
            events := events[i := e.(eventAt := e.eventAt + e.eventPeriod)];
            if e.eventAt < timeNow {
              var nextBeat := ComputeNextBeat(e.eventAt, e.eventPeriod, timeNow);
              events := events[i := e.(eventAt := nextBeat)];
            }
          }
          assert events == advanced;
          events := h(events, i);
          cnt := cnt + 1;
        }
        i := i + 1;
      }
      forall j: nat | j < |events| && LeavesAlone(h, j)
        ensures events[j] == Advance(was[j], timeNow)
      {
        UntouchedAdvances(was, 0, j, timeNow, h);
      }
      if LeavesAll(h, |was|) {
        CountsTheDue(was, 0, timeNow, h);
        assert was[0..] == was;
      }
    }

    /** The earliest of all events, or the end of time. */
    method GetNextTriggerTime() returns (next: int)
      ensures next <= END_OF_TIME
      ensures forall j | 0 <= j < |events| :: next <= events[j].eventAt
      ensures next == END_OF_TIME || exists j | 0 <= j < |events| :: events[j].eventAt == next
      ensures next == NextTrigger(events)
    {
      next := END_OF_TIME;
      for i := 0 to |events|
        invariant next <= END_OF_TIME
        invariant forall j | 0 <= j < i :: next <= events[j].eventAt
        invariant next == END_OF_TIME || exists j | 0 <= j < i :: events[j].eventAt == next
        invariant next == NextTrigger(events[..i])
      {
        assert events[..i + 1][..i] == events[..i];
        if events[i].eventAt < next {
          next := events[i].eventAt;
        }
      }
      assert events[..|events|] == events;
    }
  }

  /** After propagate no event is overdue, whatever it was set to. */
  lemma NothingOverdue(e: TimeEvent, timeNow: int)
    requires 0 <= timeNow && (e.eventPeriod > 0 ==> timeNow + e.eventPeriod <= END_OF_TIME) && timeNow <= END_OF_TIME
    ensures !Due(Advance(e, timeNow), timeNow)
  {
    if Due(e, timeNow) && e.eventPeriod > 0 && e.eventAt >= 0 {
      NextBeatIsFirst(e.eventAt, e.eventPeriod, timeNow);
    }
  }

  /** A periodic event after propagate was called at each of these times. */
  function EventAfter(e: TimeEvent, times: seq<int>): TimeEvent {
    if times == [] then e else Advance(EventAfter(e, times[..|times| - 1]), times[|times| - 1])
  }

  ghost predicate IsBeat(start: int, period: int, t: int) {
    exists k: nat :: OnBeat(start, period, t, k)
  }

  /** t is the start, or the first beat after one of these times. */
  ghost predicate FromOneOf(start: int, period: int, times: seq<int>, t: int) {
    t == start || exists i | 0 <= i < |times| :: FirstBeatAfter(start, period, times[i], t)
  }

  predicate NotBefore(times: seq<int>, t: int) {
    forall i | 0 <= i < |times| :: t >= times[i]
  }

  lemma StaysFromOneOf(start: int, period: int, times: seq<int>, now: int, t: int)
    requires FromOneOf(start, period, times, t)
    ensures FromOneOf(start, period, times + [now], t)
  {
    if t != start {
      var i :| 0 <= i < |times| && FirstBeatAfter(start, period, times[i], t);
      assert (times + [now])[i] == times[i];
    }
  }

  lemma NewlyFromOneOf(start: int, period: int, times: seq<int>, now: int, t: int)
    requires FirstBeatAfter(start, period, now, t)
    ensures FromOneOf(start, period, times + [now], t) && IsBeat(start, period, t)
  {
    assert (times + [now])[|times|] == now;
  }

  lemma DueMoves(start: int, period: int, at: int, now: int)
    requires period > 0 && 0 <= at < now && now + period <= END_OF_TIME && IsBeat(start, period, at)
    ensures FirstBeatAfter(start, period, now, ComputeNextBeat(at, period, now)) && ComputeNextBeat(at, period, now) > now
  {
    NextFromLater(start, period, at, now);
  }

  /**
    Periodic events never drift either: after any calls of propagate the event is set to a whole
    multiple of its period from its start, is not overdue for any of them and never moved backwards;
    when it moved, it moved to the first beat after one of the calls.
  */
  lemma {:induction false} EventsNeverDrift(start: int, period: int, times: seq<int>)
    requires start >= 0 && period > 0
    requires forall i | 0 <= i < |times| :: 0 <= times[i] && times[i] + period <= END_OF_TIME
    ensures var e := EventAfter(TimeEvent(start, period), times);
            && e.eventPeriod == period && e.eventAt >= start
            && IsBeat(start, period, e.eventAt)
            && FromOneOf(start, period, times, e.eventAt)
            && NotBefore(times, e.eventAt)
            && (times != [] ==> EventAfter(TimeEvent(start, period), times[..|times| - 1]).eventAt <= e.eventAt)
  {
    if times == [] {
      assert OnBeat(start, period, start, 0);
    } else {
      var init, now := times[..|times| - 1], times[|times| - 1];
      assert times == init + [now];
      EventsNeverDrift(start, period, init);
      var e := EventAfter(TimeEvent(start, period), init);
      if Due(e, now) {
        DueMoves(start, period, e.eventAt, now);
        NewlyFromOneOf(start, period, init, now, ComputeNextBeat(e.eventAt, period, now));
      } else {
        StaysFromOneOf(start, period, init, now, e.eventAt);
      }
    }
  }

  /** The list after propagate was called at each of these times. */
  function ListAfter(es: seq<TimeEvent>, times: seq<int>, h: Handler): seq<TimeEvent>
    requires KeepsLength(h)
  {
    if times == [] then es
    else Propagated(ListAfter(es, times[..|times| - 1], h), 0, times[|times| - 1], h).0
  }

  /** In a whole list, an event that handlers leave alone goes its own way. */
  lemma {:induction false} GoesItsOwnWay(es: seq<TimeEvent>, j: nat, times: seq<int>, h: Handler)
    requires KeepsLength(h) && LeavesAlone(h, j) && j < |es|
    ensures |ListAfter(es, times, h)| == |es| && ListAfter(es, times, h)[j] == EventAfter(es[j], times)
    decreases |times|
  {
    if times != [] {
      GoesItsOwnWay(es, j, times[..|times| - 1], h);
      UntouchedAdvances(ListAfter(es, times[..|times| - 1], h), 0, j, times[|times| - 1], h);
    }
  }

  /** propagate is called at the i-th of these times and finds this event due. */
  predicate CalledAt(e: TimeEvent, times: seq<int>, i: int) {
    0 <= i < |times| && Due(EventAfter(e, times[..i]), times[i])
  }

  /** The first of these times that lies after t is the i-th. */
  predicate FirstAfter(t: int, times: seq<int>, i: int) {
    0 <= i < |times| && times[i] > t && forall k | 0 <= k < i :: times[k] <= t
  }

  lemma {:induction false} OneShotWaits(at: int, times: seq<int>)
    requires forall k | 0 <= k < |times| :: times[k] <= END_OF_TIME
    ensures EventAfter(TimeEvent(at, 0), times) ==
            TimeEvent(if forall k | 0 <= k < |times| :: times[k] <= at then at else END_OF_TIME, 0)
    decreases |times|
  {
    if times != [] {
      var init := times[..|times| - 1];
      OneShotWaits(at, init);
      assert forall k | 0 <= k < |init| :: init[k] == times[k];
    }
  }

  /**
    A one-shot event that handlers leave alone is handled once, by the first propagate after its time,
    and never again: afterwards it is set to the end of time.
  */
  lemma OneShotFiresOnce(at: int, times: seq<int>, i: nat)
    requires i < |times| && forall k | 0 <= k < |times| :: times[k] <= END_OF_TIME
    ensures CalledAt(TimeEvent(at, 0), times, i) <==> FirstAfter(at, times, i)
    ensures CalledAt(TimeEvent(at, 0), times, i) ==>
              forall j | i < j <= |times| ::
                EventAfter(TimeEvent(at, 0), times[..j]).eventAt == END_OF_TIME && !CalledAt(TimeEvent(at, 0), times, j)
  {
    OneShotWaits(at, times[..i]);
    assert forall k | 0 <= k < i :: times[..i][k] == times[k];
    if CalledAt(TimeEvent(at, 0), times, i) {
      forall j | i < j <= |times|
        ensures EventAfter(TimeEvent(at, 0), times[..j]).eventAt == END_OF_TIME && !CalledAt(TimeEvent(at, 0), times, j)
      {
        OneShotWaits(at, times[..j]);
        assert times[..j][i] == times[i];
      }
    }
  }

  /**
    A due periodic event repeats if and only if it was not given a start before time zero: computeNextBeat
    refuses a negative start, so the first propagate switches such an event off.
  */
  lemma RepeatsExactlyWhen(start: int, period: int, timeNow: int)
    requires period > 0 && start < timeNow && 0 <= timeNow && timeNow + period < END_OF_TIME
    ensures Advance(TimeEvent(start, period), timeNow).eventAt < END_OF_TIME <==> start >= 0
  {
    if start >= 0 {
      NextBeatIsFirst(start, period, timeNow);
    }
  }
}
