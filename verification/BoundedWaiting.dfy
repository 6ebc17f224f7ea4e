/**
  Bounded waiting.  Each call of schedule() selects from what its list walk read (the view) and then
  stamps the selected thread with the schedule counter.
*/
module BoundedWaiting {
  import opened Selection

  /** One call of schedule(): the records its selection was based on, and the time of that walk. */
  datatype Event = Event(view: seq<Tcb>, now: int)

  /** The view may be older than the call, but nobody has been activated in between. */
  predicate Matches(view: seq<Tcb>, lasts: seq<int>) {
    |view| == |lasts| && forall i | 0 <= i < |view| :: view[i].lastActivation == lasts[i]
  }

  function Chosen(e: Event, idle: int): int {
    if 0 <= idle < |e.view| then Pick(e.view, idle, e.now) else -1
  }

  function Stamp(lasts: seq<int>, counter: int, idle: int, e: Event): seq<int> {
    var p := Chosen(e, idle);
    if 0 <= p < |lasts| then lasts[p := counter + 1] else lasts
  }

  /** Consecutive calls of schedule(), starting with these activation stamps and this counter. */
  predicate Consecutive(lasts: seq<int>, counter: int, idle: int, es: seq<Event>)
    decreases |es|
  {
    es == [] || (Matches(es[0].view, lasts)
                 && Consecutive(Stamp(lasts, counter, idle, es[0]), counter + 1, idle, es[1..]))
  }

  /** In this call t is ready and no candidate is above it; its equals are all among the peers. */
  predicate Contends(e: Event, idle: int, t: int, peers: set<int>) {
    && 0 <= idle < |e.view| && 0 <= t < |e.view|
    && (t == idle || Ready(e.view[t], e.now))
    && forall i | 0 <= i < |e.view| && (i == idle || Ready(e.view[i], e.now)) ::
         && e.view[i].priority <= e.view[t].priority
         && (e.view[i].priority == e.view[t].priority ==> i in peers)
  }

  /** The peers that have waited longer than t. */
  function AheadOf(lasts: seq<int>, idle: int, t: int, peers: set<int>): set<int>
    requires 0 <= t < |lasts|
  {
    set i | i in peers && 0 <= i < |lasts| && Earlier(idle, i, lasts[i], t, lasts[t])
  }

  /** A call that selects somebody else moves exactly that thread from ahead of t to behind it. */
  lemma PassedOverOnce(lasts: seq<int>, counter: int, idle: int, e: Event, t: int, peers: set<int>)
    requires 0 <= t < |lasts| && Matches(e.view, lasts)
    requires forall i | 0 <= i < |lasts| :: lasts[i] <= counter
    requires Contends(e, idle, t, peers) && Chosen(e, idle) != t
    ensures var lasts' := Stamp(lasts, counter, idle, e);
            && |lasts'| == |lasts|
            && AheadOf(lasts', idle, t, peers) == AheadOf(lasts, idle, t, peers) - {Chosen(e, idle)}
            && Chosen(e, idle) in AheadOf(lasts, idle, t, peers)
            && forall i | 0 <= i < |lasts'| :: lasts'[i] <= counter + 1
  {
    PickIsTheBest(e.view, idle, e.now, Chosen(e, idle));
  }

  /** If t has not been selected in a run of calls, the run is no longer than the number of peers ahead of t. */
  lemma {:induction false} NotPassedOverForEver(lasts: seq<int>, counter: int, idle: int, es: seq<Event>, t: int, peers: set<int>)
    requires 0 <= t < |lasts| && forall i | 0 <= i < |lasts| :: lasts[i] <= counter
    requires Consecutive(lasts, counter, idle, es)
    requires forall k | 0 <= k < |es| :: Contends(es[k], idle, t, peers) && Chosen(es[k], idle) != t
    ensures |es| <= |AheadOf(lasts, idle, t, peers)|
    decreases |es|
  {
    if es != [] {
      assert Contends(es[0], idle, t, peers) && Chosen(es[0], idle) != t;
      PassedOverOnce(lasts, counter, idle, es[0], t, peers);
      forall k | 0 <= k < |es[1..]|
        ensures Contends(es[1..][k], idle, t, peers) && Chosen(es[1..][k], idle) != t
      {
        assert es[1..][k] == es[k + 1];
      }
      NotPassedOverForEver(Stamp(lasts, counter, idle, es[0]), counter + 1, idle, es[1..], t, peers);
    }
  }

  /**
    A thread that contends in as many consecutive calls of schedule() as it has peers (itself
    included) is selected in one of them, whatever its peers do meanwhile.
  */
  lemma SelectedInTime(lasts: seq<int>, counter: int, idle: int, es: seq<Event>, t: int, peers: set<int>)
    requires 0 <= t < |lasts| && forall i | 0 <= i < |lasts| :: lasts[i] <= counter
    requires Consecutive(lasts, counter, idle, es)
    requires t in peers && |es| >= |peers|
    requires forall k | 0 <= k < |es| :: Contends(es[k], idle, t, peers)
    ensures exists k | 0 <= k < |peers| :: Chosen(es[k], idle) == t
  {
    if forall k | 0 <= k < |peers| :: Chosen(es[k], idle) != t {
      ConsecutivePrefix(lasts, counter, idle, es, |peers|);
      var first := es[..|peers|];
      forall k | 0 <= k < |first|
        ensures Contends(first[k], idle, t, peers) && Chosen(first[k], idle) != t
      {
        assert first[k] == es[k];
      }
      NotPassedOverForEver(lasts, counter, idle, first, t, peers);
      FewerAhead(lasts, idle, t, peers);
      assert false;
    }
  }

  /** Nobody is ahead of itself. */
  lemma FewerAhead(lasts: seq<int>, idle: int, t: int, peers: set<int>)
    requires 0 <= t < |lasts| && t in peers
    ensures |AheadOf(lasts, idle, t, peers)| < |peers|
  {
    var ahead := AheadOf(lasts, idle, t, peers);
    var others := peers - {t} - ahead;
    assert peers - {t} == ahead + others;
    assert |peers - {t}| == |ahead| + |others|;
  }

  lemma {:induction false} ConsecutivePrefix(lasts: seq<int>, counter: int, idle: int, es: seq<Event>, n: nat)
    requires Consecutive(lasts, counter, idle, es) && n <= |es|
    ensures Consecutive(lasts, counter, idle, es[..n])
    decreases n
  {
    if n > 0 {
      ConsecutivePrefix(Stamp(lasts, counter, idle, es[0]), counter + 1, idle, es[1..], n - 1);
      assert es[..n][1..] == es[1..][..n - 1];
    }
  }
}
