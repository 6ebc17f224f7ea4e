/**
  Periodic beats: TimeModel::computeNextBeat (src/independent/timemodel.cpp) and the beats of threads
  (src/independent/thread.cpp).  Times are nanoseconds in 64-bit integers; the model uses unbounded
  integers and says where they would overflow.
*/
module TimeModel {

  const END_OF_TIME := 0x7FFF_FFFF_FFFF_FFFF
  const TIME_SLICE_FOR_SAME_PRIORITY := 100_000_000   // nanoseconds

  function Min(a: int, b: int): int {
    if a < b then a else b
  }

  function ComputeNextBeat(begin: int, period: int, timeNow: int): int {
    if begin < 0 || period < 0 || timeNow < 0 then END_OF_TIME
    else if begin > timeNow then begin
    else if period == 0 then END_OF_TIME
    else if period >= END_OF_TIME - begin then END_OF_TIME
    else ((timeNow - begin) / period + 1) * period + begin
  }

  /** t is begin plus k whole periods. */
  predicate OnBeat(begin: int, period: int, t: int, k: int) {
    t == begin + k * period
  }

  /** The first beat, counted from begin, that lies strictly after now. */
  ghost predicate FirstBeatAfter(begin: int, period: int, now: int, t: int) {
    && t > now
    && (exists k: nat :: OnBeat(begin, period, t, k))
    && (forall k: nat, u: int :: OnBeat(begin, period, u, k) && u > now ==> t <= u)
  }

  lemma MulMonotone(a: int, b: int, p: int)
    requires a <= b && p > 0
    ensures a * p <= b * p
  {
    var d := b - a;
    assert b * p == a * p + d * p;
    assert d * p >= 0;
  }

  lemma QuotientBounds(x: int, p: int)
    requires p > 0
    ensures x / p * p <= x < x / p * p + p
    ensures x >= 0 ==> x / p >= 0
  {
  }

  /** Beat number q is the first after now when the one before it is not after now. */
  lemma FirstWhen(begin: int, period: int, now: int, t: int, q: nat)
    requires period > 0 && OnBeat(begin, period, t, q) && t > now && (q == 0 || t - period <= now)
    ensures FirstBeatAfter(begin, period, now, t)
  {
    assert (q - 1) * period == q * period - period;
    forall k: nat, u: int | OnBeat(begin, period, u, k) && u > now
      ensures t <= u
    {
      if k < q {
        MulMonotone(k, q - 1, period);
      } else {
        MulMonotone(q, k, period);
      }
    }
  }

  /** computeNextBeat is the first beat after now, and stays within one period of it. */
  lemma NextBeatIsFirst(begin: int, period: int, timeNow: int)
    requires begin >= 0 && period > 0 && timeNow >= 0 && timeNow + period <= END_OF_TIME
    ensures FirstBeatAfter(begin, period, timeNow, ComputeNextBeat(begin, period, timeNow))
    ensures begin <= ComputeNextBeat(begin, period, timeNow)
    ensures begin <= timeNow ==> ComputeNextBeat(begin, period, timeNow) <= timeNow + period
  {
    var t := ComputeNextBeat(begin, period, timeNow);
    if begin > timeNow {
      assert OnBeat(begin, period, t, 0);
      FirstWhen(begin, period, timeNow, t, 0);
    } else {
      NextQuotient(begin, period, timeNow, (timeNow - begin) / period);
      FirstWhen(begin, period, timeNow, t, (timeNow - begin) / period + 1);
    }
  }

  /**
    computeNextBeat answers with the end of time exactly for a negative argument, and for a period of 0
    when begin, its only beat, is not after now; that far from the end of time.
  */
  lemma EndOfTimeExactlyWhen(begin: int, period: int, timeNow: int)
    requires begin < END_OF_TIME && timeNow + period < END_OF_TIME
    ensures ComputeNextBeat(begin, period, timeNow) == END_OF_TIME <==>
            begin < 0 || period < 0 || timeNow < 0 || (period == 0 && begin <= timeNow)
  {
    if begin >= 0 && period > 0 && timeNow >= 0 {
      NextBeatIsFirst(begin, period, timeNow);
    }
  }

  /** Close to it, no beat after now lies before the end of time. */
  lemma EndWhenNoBeat(begin: int, period: int, timeNow: int, k: nat, u: int)
    requires 0 <= begin <= timeNow && period > 0 && begin + period >= END_OF_TIME
    requires OnBeat(begin, period, u, k) && u > timeNow
    ensures ComputeNextBeat(begin, period, timeNow) == END_OF_TIME <= u
  {
    if k > 0 {
      MulMonotone(1, k, period);
    }
  }

  lemma NextQuotient(begin: int, period: int, timeNow: int, q: int)
    requires 0 <= begin <= timeNow && period > 0 && timeNow + period <= END_OF_TIME && q == (timeNow - begin) / period
    ensures q >= 0
    ensures var t := ComputeNextBeat(begin, period, timeNow);
            OnBeat(begin, period, t, q + 1) && timeNow < t <= timeNow + period
  {
    QuotientBounds(timeNow - begin, period);
    NextMultiple(q, period);
    if period >= END_OF_TIME - begin {
      assert begin == timeNow;
      ZeroQuotient(period);
    }
  }

  lemma NextMultiple(q: int, p: int)
    ensures (q + 1) * p == q * p + p
  {
  }

  lemma ZeroQuotient(p: int)
    requires p > 0
    ensures 0 / p == 0
  {
  }

  /** A beat of a beat is a beat: counting on from a later beat gives the same first beat. */
  lemma FirstBeatFromLater(begin: int, period: int, mid: int, now: int, t: int)
    requires period > 0
    requires exists k: nat :: OnBeat(begin, period, mid, k)
    requires FirstBeatAfter(mid, period, now, t)
    requires forall k: nat, u: int :: OnBeat(begin, period, u, k) && u > now ==> u >= mid
    ensures FirstBeatAfter(begin, period, now, t)
  {
    var m: nat :| OnBeat(begin, period, mid, m);
    var k: nat :| OnBeat(mid, period, t, k);
    assert (m + k) * period == m * period + k * period;
    assert OnBeat(begin, period, t, m + k);
    forall j: nat, u: int | OnBeat(begin, period, u, j) && u > now
      ensures t <= u
    {
      if j < m {
        MulMonotone(j, m - 1, period);
      } else {
        assert (j - m) * period == j * period - m * period;
        assert OnBeat(mid, period, u, j - m);
      }
    }
  }

  /** computeNextBeat counted on from a beat that is not after now. */
  lemma NextFromLater(begin: int, period: int, mid: int, now: int)
    requires period > 0 && 0 <= mid <= now && now + period <= END_OF_TIME
    requires exists k: nat :: OnBeat(begin, period, mid, k)
    ensures FirstBeatAfter(begin, period, now, ComputeNextBeat(mid, period, now))
    ensures now < ComputeNextBeat(mid, period, now)
  {
    NextBeatIsFirst(mid, period, now);
    FirstBeatFromLater(begin, period, mid, now, ComputeNextBeat(mid, period, now));
  }

  // ------------------------------------------------------------------ beats of a thread

  /** A thread's beat: nextBeat and period. */
  class Beat {
    var nextBeat: int
    var period: int

    constructor ()
      ensures nextBeat == END_OF_TIME && period == 0
    {
      nextBeat, period := END_OF_TIME, 0;
    }

    method SetPeriodicBeat(begin: int, newPeriod: int)
      modifies this
      ensures nextBeat == begin && period == newPeriod
    {
      nextBeat := begin;
      period := newPeriod;
    }

    /**
      suspendUntilNextBeat: the thread suspends until `until` and, woken at `timeNow` by the clock or by
      a resume, moves to the first beat after that.  Without a period it suspends for ever (and, if
      resumed, does so again).
    */
    method SuspendUntilNextBeat(timeNow: int) returns (until: int)
      modifies this`nextBeat
      ensures period != 0 ==> until == old(nextBeat) && nextBeat == ComputeNextBeat(old(nextBeat), period, timeNow)
      ensures period == 0 ==> until == END_OF_TIME && nextBeat == old(nextBeat)
      ensures period > 0 && old(nextBeat) >= 0 && timeNow >= 0 && timeNow + period <= END_OF_TIME ==>
                FirstBeatAfter(old(nextBeat), period, timeNow, nextBeat)
    {
      if period == 0 {
        return END_OF_TIME;
      }
      if period > 0 && nextBeat >= 0 && timeNow >= 0 && timeNow + period <= END_OF_TIME {
        NextBeatIsFirst(nextBeat, period, timeNow);
      }
      until := nextBeat;
      nextBeat := ComputeNextBeat(nextBeat, period, timeNow);
    }
  }

  /** nextBeat after waking at each of these times in turn. */
  function BeatAfter(begin: int, period: int, wakes: seq<int>): int {
    if wakes == [] then begin
    else ComputeNextBeat(BeatAfter(begin, period, wakes[..|wakes| - 1]), period, wakes[|wakes| - 1])
  }

  /** The latest of these times, or `floor`. */
  function Latest(floor: int, times: seq<int>): int {
    if times == [] then floor
    else
      var l := Latest(floor, times[..|times| - 1]);
      if times[|times| - 1] > l then times[|times| - 1] else l
  }

  /**
    Beats never drift: however often a thread is woken, early or late, its next beat is the first
    whole multiple of its period, counted from where it started, after the latest waking.
  */
  lemma {:induction false} BeatsNeverDrift(begin: int, period: int, wakes: seq<int>)
    requires begin >= 0 && period > 0
    requires forall i | 0 <= i < |wakes| :: 0 <= wakes[i] && wakes[i] + period <= END_OF_TIME
    ensures FirstBeatAfter(begin, period, Latest(begin - 1, wakes), BeatAfter(begin, period, wakes))
    ensures BeatAfter(begin, period, wakes) >= begin
    ensures wakes != [] ==> BeatAfter(begin, period, wakes[..|wakes| - 1]) <= BeatAfter(begin, period, wakes)
  {
    if wakes == [] {
      FirstFrom(begin, period);
    } else {
      var init := wakes[..|wakes| - 1];
      var w := wakes[|wakes| - 1];
      BeatsNeverDrift(begin, period, init);
      var mid := BeatAfter(begin, period, init);
      var was := Latest(begin - 1, init);
      NextBeatIsFirst(mid, period, w);
      if w > was {
        if mid <= w {
          FirstBeatFromLater(begin, period, mid, w, ComputeNextBeat(mid, period, w));
        }
      }
    }
  }

  /** begin itself is the first beat after begin - 1. */
  lemma FirstFrom(begin: int, period: int)
    requires period > 0
    ensures FirstBeatAfter(begin, period, begin - 1, begin)
  {
    assert OnBeat(begin, period, begin, 0);
    forall k: nat, u: int | OnBeat(begin, period, u, k) && u > begin - 1
      ensures begin <= u
    {
    }
  }
}
