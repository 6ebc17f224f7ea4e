/** Whole calls of the reader of the triple buffer, and what the flag is for. */
module CommBufferCalls {
  import opened CommBuffer

  /** n steps of c lead from s to t. */
  ghost predicate Leads(s: State, c: Choice, n: nat, t: State) {
    Run(s, Repeat(c, n)) == t
  }

  lemma Glue(s: State, c: Choice, n: nat, m: nat, t: State, u: State)
    requires Leads(s, c, n, t) && Leads(t, c, m, u)
    ensures Leads(s, c, n + m, u)
  {
    RunAppend(s, Repeat(c, n), Repeat(c, m));
    assert Repeat(c, n + m) == Repeat(c, n) + Repeat(c, m);
  }

  /** The first k words of an undisturbed copy out of the published buffer. */
  lemma {:induction false} ReadWords(s: State, only: bool, k: nat)
    requires 0 <= s.r.readerTmp < |s.m.buffer| && |s.m.buffer[s.r.readerTmp]| == s.words && 0 < k <= s.words
    requires s.r.pc == RCopy(0) && s.r.copied == []
    ensures Run(s, Repeat(RunReader(only), k)) ==
            s.(r := s.r.(copied := s.m.buffer[s.r.readerTmp][..k], pc := if k < s.words then RCopy(k) else RLower))
  {
    var c := RunReader(only);
    var x := s.m.buffer[s.r.readerTmp];
    if k == 1 {
      assert Repeat(c, 1) == [c];
      RunOne(s, c);
      assert [] + [x[0]] == x[..1];
    } else {
      ReadWords(s, only, k - 1);
      var u := Run(s, Repeat(c, k - 1));
      assert Repeat(c, k)[..k - 1] == Repeat(c, k - 1);
      assert Run(s, Repeat(c, k)) == Next(u, c) == GetWord(u, k - 1);
      assert x[..k - 1] + [x[k - 1]] == x[..k];
    }
  }

  /** A get that has read the pointer. */
  function Begun(s: State): State {
    s.(m := s.m.(newData := false, readingNow := true),
       r := s.r.(pc := RCopy(0), readerTmp := s.m.reader, copied := [], lapped := false,
                 publication := |s.w.published| - 1, atStart := |s.w.published| - 1))
  }

  /** From the call to the first word. */
  lemma BeginsGet(s: State, only: bool)
    requires s.r.pc == RIdle && (only ==> s.m.newData)
    ensures Leads(s, RunReader(only), 4, Begun(s))
  {
    var c := RunReader(only);
    Four(s, c);
    var t := Next(Next(s, c), c);
    assert t == s.(m := s.m.(newData := false), r := s.r.(pc := RRaise, atStart := |s.w.published| - 1));
    var u := Next(t, c);
    assert u == t.(m := t.m.(readingNow := true), r := t.r.(pc := RPoint));
  }

  lemma EndsGet(s: State, only: bool)
    requires s.r.pc == RLower
    ensures Run(s, Repeat(RunReader(only), 2)) ==
            s.(m := s.m.(readingNow := false),
               r := s.r.(readCnt := s.r.readCnt + 1, pc := RIdle,
                         deliveries := s.r.deliveries
                                       + [Delivery(s.r.copied, s.r.publication, s.r.atStart, s.r.lapped)]))
  {
    var c := RunReader(only);
    Two(s, c);
    assert Next(s, c) == s.(m := s.m.(readingNow := false), r := s.r.(pc := RCount));
  }

  /** A get that has copied everything. */
  function Finished(s: State): State {
    var x := At(s.m, s.r.readerTmp);
    s.(m := s.m.(readingNow := false),
       r := s.r.(readCnt := s.r.readCnt + 1, pc := RIdle, copied := x,
                 deliveries := s.r.deliveries + [Delivery(x, s.r.publication, s.r.atStart, s.r.lapped)]))
  }

  /** All words copied. */
  function Copied(s: State): State {
    s.(r := s.r.(copied := At(s.m, s.r.readerTmp), pc := RLower))
  }

  lemma CopiesAll(s: State, only: bool)
    requires 0 <= s.r.readerTmp < |s.m.buffer| && |s.m.buffer[s.r.readerTmp]| == s.words > 0
    requires s.r.pc == RCopy(0) && s.r.copied == []
    ensures Leads(s, RunReader(only), s.words, Copied(s))
  {
    ReadWords(s, only, s.words);
    var x := s.m.buffer[s.r.readerTmp];
    assert x[..s.words] == x;
  }

  lemma LowersAndCounts(s: State, only: bool)
    requires s.r.pc == RCopy(0)
    ensures Leads(Copied(s), RunReader(only), 2, Finished(s))
  {
    EndsGet(Copied(s), only);
  }

  lemma FinishesGet(s: State, only: bool)
    requires 0 <= s.r.readerTmp < |s.m.buffer| && |s.m.buffer[s.r.readerTmp]| == s.words > 0
    requires s.r.pc == RCopy(0) && s.r.copied == []
    ensures Leads(s, RunReader(only), s.words + 2, Finished(s))
  {
    CopiesAll(s, only);
    LowersAndCounts(s, only);
    Glue(s, RunReader(only), s.words, 2, Copied(s), Finished(s));
  }

  /** What an undisturbed `get` leaves: the published buffer delivered once and whole, both flags down. */
  function AfterGet(s: State): State {
    var newest, x := |s.w.published| - 1, At(s.m, s.m.reader);
    s.(m := s.m.(readingNow := false, newData := false),
       r := Reader(RIdle, s.m.reader, x, s.r.readCnt + 1, newest, newest, false,
                   s.r.deliveries + [Delivery(x, newest, newest, false)]))
  }

  lemma BothParts(s: State)
    ensures Finished(Begun(s)) == AfterGet(s)
  {
  }

  /** How many steps an undisturbed `get` takes. */
  function GetLength(s: State): nat {
    (if s.words > 0 then s.words else 0) + 6
  }

  lemma WholeGet(s: State, only: bool)
    requires 0 <= s.m.reader < |s.m.buffer| && |s.m.buffer[s.m.reader]| == s.words > 0
    requires s.r.pc == RIdle && (only ==> s.m.newData)
    ensures Leads(s, RunReader(only), GetLength(s), AfterGet(s))
  {
    BeginsGet(s, only);
    FinishesGet(Begun(s), only);
    BothParts(s);
    Glue(s, RunReader(only), 4, s.words + 2, Begun(s), AfterGet(s));
  }

  /**
    A get that nobody interrupts, or a getOnlyIfNewData when the flag is up, delivers the published
    buffer once and whole, and leaves both flags down; every other field and the writer are untouched.
  */
  lemma UninterruptedGet(s: State, only: bool)
    requires ShapeOk(s) && PointersOk(s) && s.r.pc == RIdle && (only ==> s.m.newData)
    ensures Run(s, Repeat(RunReader(only), GetLength(s))) == AfterGet(s)
  {
    WholeGet(s, only);
  }

  /** With the flag down getOnlyIfNewData does nothing, however often it is called. */
  lemma {:induction false} RefusedGet(s: State, n: nat)
    requires s.r.pc == RIdle && !s.m.newData
    ensures Run(s, Repeat(RunReader(true), n)) == s
    decreases n
  {
    if n > 0 {
      RefusedGet(s, n - 1);
      assert Repeat(RunReader(true), n)[..n - 1] == Repeat(RunReader(true), n - 1);
    }
  }

  /**
    In every run, a getOnlyIfNewData that is called while no other call of the reader runs delivers the
    newest published value if and only if the flag is up.
  */
  lemma OnlyIfNewData(buffer: seq<Value>, schedule: seq<Choice>)
    requires ValidInit(buffer) && Run(Init(buffer), schedule).r.pc == RIdle
    ensures var s := Run(Init(buffer), schedule);
            var t := Run(s, Repeat(RunReader(true), GetLength(s)));
            var newest := |s.w.published| - 1;
            && t.r.deliveries == s.r.deliveries
                                 + (if s.m.newData then [Delivery(Published(s, newest), newest, newest, false)] else [])
            && (t.r.deliveries == s.r.deliveries <==> !s.m.newData)
            && !t.m.newData && t.r.pc == RIdle && t.r.readCnt == s.r.readCnt + (if s.m.newData then 1 else 0)
  {
    EveryRunKeepsInv(buffer, schedule);
    var s := Run(Init(buffer), schedule);
    if s.m.newData {
      UninterruptedGet(s, true);
    } else {
      RefusedGet(s, GetLength(s));
    }
  }

  // ------------------------------------------------------------------ nothing is new twice

  /** Before step k of the schedule a put is about to raise the flag, and this step does it. */
  predicate RaisesFlag(s: State, schedule: seq<Choice>, k: int) {
    0 <= k < |schedule| && schedule[k].RunWriter? && Run(s, schedule[..k]).w.pc.WFlag?
  }

  lemma {:induction false} FlagStaysDown(s: State, schedule: seq<Choice>)
    requires s.r.pc.RClear? || !s.m.newData
    requires forall k :: !RaisesFlag(s, schedule, k)
    ensures var t := Run(s, schedule); t.r.pc.RClear? || !t.m.newData
    decreases |schedule|
  {
    if schedule != [] {
      var n := |schedule| - 1;
      var init := schedule[..n];
      forall k
        ensures !RaisesFlag(s, init, k)
      {
        if 0 <= k < n {
          assert init[..k] == schedule[..k];
          assert !RaisesFlag(s, schedule, k);
        }
      }
      FlagStaysDown(s, init);
      assert !RaisesFlag(s, schedule, n);
    }
  }

  /**
    In every run: once a get has begun, and as long as no put raises the flag, every getOnlyIfNewData
    that is called after its end is refused.  So no publication is delivered as new twice.
  */
  lemma NothingIsNewTwice(buffer: seq<Value>, before: seq<Choice>, schedule: seq<Choice>)
    requires ValidInit(buffer)
    requires var s := Run(Init(buffer), before);
             && s.r.pc.RClear? && (forall k :: !RaisesFlag(s, schedule, k))
             && Run(s, schedule).r.pc.RIdle?
    ensures var t := Run(Run(Init(buffer), before), schedule);
            !t.m.newData && Next(t, RunReader(true)) == t
  {
    FlagStaysDown(Run(Init(buffer), before), schedule);
  }
}
