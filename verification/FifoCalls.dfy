/** Whole calls of the producer and of the consumer of the Fifo, and what they achieve. */
module FifoCalls {
  import opened Fifo

  lemma RunChoice(s: State, c: Choice, more: seq<Choice>)
    ensures Run(s, [c] + more) == Run(Step(s, c), more)
  {
    assert ([c] + more)[1..] == more;
  }

  lemma RunFour(s: State, a: Choice, b: Choice, c: Choice, d: Choice)
    ensures Run(s, [a, b, c, d]) == Step(Step(Step(Step(s, a), b), c), d)
  {
    assert [a, b, c, d] == [a] + ([b] + ([c] + ([d] + [])));
    RunChoice(s, a, [b] + ([c] + ([d] + [])));
    RunChoice(Step(s, a), b, [c] + ([d] + []));
    RunChoice(Step(Step(s, a), b), c, [d] + []);
    RunChoice(Step(Step(Step(s, a), b), c), d, []);
  }

  lemma {:induction false} RunConcat(s: State, first: seq<Choice>, second: seq<Choice>)
    ensures Run(s, first + second) == Run(Run(s, first), second)
    decreases |first|
  {
    if first == [] {
      assert first + second == second;
    } else {
      assert (first + second)[1..] == first[1..] + second;
      RunConcat(Step(s, first[0]), first[1..], second);
    }
  }

  /** These choices lead from s to t. */
  ghost predicate Leads(s: State, cs: seq<Choice>, t: State) {
    Run(s, cs) == t
  }

  lemma Stays(s: State)
    ensures Leads(s, [], s)
  {
  }

  lemma First(s: State, c: Choice, cs: seq<Choice>, t: State)
    requires Leads(Step(s, c), cs, t)
    ensures Leads(s, [c] + cs, t)
  {
    RunChoice(s, c, cs);
  }

  lemma FourSteps(s: State, a: Choice, b: Choice, c: Choice, d: Choice, t: State)
    requires Step(Step(Step(Step(s, a), b), c), d) == t
    ensures Leads(s, [a, b, c, d], t)
  {
    RunFour(s, a, b, c, d);
  }

  lemma Then(s: State, first: seq<Choice>, second: seq<Choice>, t: State, u: State)
    requires Leads(s, first, t) && Leads(t, second, u)
    ensures Leads(s, first + second, u)
  {
    RunConcat(s, first, second);
  }

  lemma OneStep(s: State, c: Choice, t: State)
    requires Step(s, c) == t
    ensures Leads(s, [c], t)
  {
    RunChoice(s, c, []);
    assert [c] + [] == [c];
  }

  lemma LeadsInv(s: State, cs: seq<Choice>, t: State)
    requires Inv(s) && Leads(s, cs, t)
    ensures Inv(t)
  {
    RunKeepsInv(s, cs);
  }

  // ---------------------------------------------------------------- one value

  /** The statements of a put. */
  function PutCall(val: int): seq<Choice> {
    [Put(val), RunProducer, RunProducer, RunProducer] + [RunProducer]
  }

  /** The statements of a get. */
  function GetCall(): seq<Choice> {
    [Get, RunConsumer, RunConsumer, RunConsumer]
  }

  lemma PutTests(s: State, val: int)
    requires s.p == PIdle
    ensures Step(Step(s, Put(val)), RunProducer) == s.(p := PTest(val, AdvanceIndex(s.len, s.m.writeX)))
  {
  }

  lemma PutStores(s: State, val: int, index: int)
    requires index != s.m.readX
    ensures Step(Step(s.(p := PTest(val, index)), RunProducer), RunProducer) ==
            s.(m := Store(s.m, s.m.writeX, val), p := PPublish(val, index))
  {
    assert Step(s.(p := PTest(val, index)), RunProducer) == s.(p := PStore(val, index));
  }

  lemma PutPublishes(s: State, val: int, index: int)
    requires s.p == PIdle
    ensures Step(s.(m := Store(s.m, s.m.writeX, val), p := PPublish(val, index)), RunProducer) ==
            s.(m := Store(s.m, s.m.writeX, val).(writeX := index), puts := s.puts + [val])
  {
  }

  lemma PutAppends(s: State, val: int)
    requires Inv(s) && s.p == PIdle && |Unread(s)| < s.len - 1
    ensures var index := AdvanceIndex(s.len, s.m.writeX);
            Leads(s, PutCall(val), s.(m := Store(s.m, s.m.writeX, val).(writeX := index), puts := s.puts + [val]))
  {
    FullWhenNext(s);
    PutLeads(s, val);
  }

  lemma PutLeads(s: State, val: int)
    requires s.p == PIdle && AdvanceIndex(s.len, s.m.writeX) != s.m.readX
    ensures var index := AdvanceIndex(s.len, s.m.writeX);
            Leads(s, PutCall(val), s.(m := Store(s.m, s.m.writeX, val).(writeX := index), puts := s.puts + [val]))
  {
    var index := AdvanceIndex(s.len, s.m.writeX);
    var u := s.(m := Store(s.m, s.m.writeX, val), p := PPublish(val, index));
    var t := s.(m := Store(s.m, s.m.writeX, val).(writeX := index), puts := s.puts + [val]);
    PutTests(s, val);
    PutStores(s, val, index);
    FourSteps(s, Put(val), RunProducer, RunProducer, RunProducer, u);
    PutPublishes(s, val, index);
    OneStep(u, RunProducer, t);
    Then(s, [Put(val), RunProducer, RunProducer, RunProducer], [RunProducer], u, t);
  }

  lemma PutIsRefused(s: State, val: int)
    requires Inv(s) && s.p == PIdle && |Unread(s)| == s.len - 1
    ensures Leads(s, PutCall(val), s)
  {
    FullWhenNext(s);
    PutTests(s, val);
    FourSteps(s, Put(val), RunProducer, RunProducer, RunProducer, s);
    OneStep(s, RunProducer, s);
    Then(s, [Put(val), RunProducer, RunProducer, RunProducer], [RunProducer], s, s);
  }

  /** A put that nobody interrupts appends its value if fewer than len - 1 are held, and otherwise changes nothing. */
  lemma UninterruptedPut(s: State, val: int) returns (t: State)
    requires Inv(s) && s.p == PIdle
    ensures Leads(s, PutCall(val), t) && Inv(t) && t.p == PIdle && t.c == s.c && t.gets == s.gets && t.m.readX == s.m.readX
    ensures t.puts == (if |Unread(s)| < s.len - 1 then s.puts + [val] else s.puts)
    ensures Unread(t) == (if |Unread(s)| < s.len - 1 then Unread(s) + [val] else Unread(s))
    ensures |Unread(s)| == s.len - 1 ==> t == s
  {
    if |Unread(s)| < s.len - 1 {
      PutAppends(s, val);
      t := s.(m := Store(s.m, s.m.writeX, val).(writeX := AdvanceIndex(s.len, s.m.writeX)), puts := s.puts + [val]);
      PutsGrow(s, [val]);
    } else {
      PutIsRefused(s, val);
      t := s;
    }
    LeadsInv(s, PutCall(val), t);
  }

  lemma GetTakes(s: State)
    requires Inv(s) && s.c == CIdle && Unread(s) != []
    ensures Leads(s, GetCall(), s.(m := s.m.(readX := AdvanceIndex(s.len, s.m.readX)), gets := s.gets + [Unread(s)[0]]))
  {
    FullWhenNext(s);
    var u := s.(c := CTest);
    assert Step(s, Get) == u;
    assert s.m.buffer[CellAt(s.len, s.m.readX, 0)] == Unread(s)[0];
    assert Step(Step(u, RunConsumer), RunConsumer) == s.(c := CAdvance(Unread(s)[0]));
    FourSteps(s, Get, RunConsumer, RunConsumer, RunConsumer,
              s.(m := s.m.(readX := AdvanceIndex(s.len, s.m.readX)), gets := s.gets + [Unread(s)[0]]));
  }

  lemma GetIsRefused(s: State)
    requires Inv(s) && s.c == CIdle && Unread(s) == []
    ensures Leads(s, GetCall(), s)
  {
    FullWhenNext(s);
    assert Step(s, Get) == s.(c := CTest);
    FourSteps(s, Get, RunConsumer, RunConsumer, RunConsumer, s);
  }

  /** A get that nobody interrupts takes the oldest unread value, and nothing if there is none. */
  lemma UninterruptedGet(s: State) returns (t: State)
    requires Inv(s) && s.c == CIdle
    ensures Leads(s, GetCall(), t) && Inv(t) && t.c == CIdle && t.p == s.p && t.puts == s.puts
    ensures t.m.buffer == s.m.buffer && t.m.writeX == s.m.writeX
    ensures t.gets == s.gets + Unread(s)[..if Unread(s) == [] then 0 else 1]
    ensures Unread(t) == Unread(s)[if Unread(s) == [] then 0 else 1..]
    ensures Unread(s) == [] ==> t == s
  {
    if Unread(s) != [] {
      GetTakes(s);
      t := s.(m := s.m.(readX := AdvanceIndex(s.len, s.m.readX)), gets := s.gets + [Unread(s)[0]]);
      GetsGrow(s, 1);
      assert Unread(s)[..1] == [Unread(s)[0]];
    } else {
      GetIsRefused(s);
      t := s;
    }
    LeadsInv(s, GetCall(), t);
  }

  // ---------------------------------------------------------------- blocks

  function AskToWrite(): seq<Choice> {
    [GetBufferToWrite, RunProducer, RunProducer, RunProducer]
  }

  function AskToRead(): seq<Choice> {
    [GetBufferToRead, RunConsumer, RunConsumer, RunConsumer]
  }

  /** n cells from w on neither pass the end of the ring nor overfill it. */
  predicate FitsBehind(len: int, w: int, held: int, n: int) {
    0 <= n && w + n <= len && held + n <= len - 1
  }

  /** n values from r on do not pass the end of the ring. */
  predicate LiesBefore(len: int, r: int, held: int, n: int) {
    0 <= n <= held && r + n <= len
  }

  /**
    getBufferToWrite() hands out a region exactly when fewer than len - 1 values are held: it begins at
    the write index and is the largest that does not wrap around and does not overfill the ring.
  */
  lemma UninterruptedAskToWrite(s: State) returns (t: State)
    requires Inv(s) && s.p == PIdle
    ensures Leads(s, AskToWrite(), t) && Inv(t) && t == s.(p := t.p)
    ensures |Unread(s)| == s.len - 1 ==> t == s
    ensures |Unread(s)| < s.len - 1 ==>
              && t.p.WHold? && t.p.w == s.m.writeX && t.p.region != []
              && FitsBehind(s.len, s.m.writeX, |Unread(s)|, |t.p.region|)
              && !FitsBehind(s.len, s.m.writeX, |Unread(s)|, |t.p.region| + 1)
  {
    FullWhenNext(s);
    var r, w := s.m.readX, s.m.writeX;
    var n := RoomToWrite(s.len, r, w);
    t := if |Unread(s)| == s.len - 1 then s else s.(p := WHold(w, Cells(s.m, w, n)));
    AskedToWrite(s, t);
    if |Unread(s)| < s.len - 1 {
      assert 0 < n && w + n <= s.len;
      assert |Cells(s.m, w, n)| == n;
    }
    LeadsInv(s, AskToWrite(), t);
  }

  lemma AskedToWrite(s: State, t: State)
    requires Inv(s) && s.p == PIdle
    requires var r, w := s.m.readX, s.m.writeX;
             t == s.(p := if r == AdvanceIndex(s.len, w) then PIdle else WHold(w, Cells(s.m, w, RoomToWrite(s.len, r, w))))
    ensures Leads(s, AskToWrite(), t)
  {
    assert Step(Step(Step(s, GetBufferToWrite), RunProducer), RunProducer) == s.(p := WDecide(s.m.readX, s.m.writeX));
    FourSteps(s, GetBufferToWrite, RunProducer, RunProducer, RunProducer, t);
  }

  /** getBufferToRead() hands out a region exactly when a value is held: the largest run of the oldest that does not wrap. */
  lemma UninterruptedAskToRead(s: State) returns (t: State)
    requires Inv(s) && s.c == CIdle
    ensures Leads(s, AskToRead(), t) && Inv(t) && t == s.(c := t.c)
    ensures Unread(s) == [] ==> t == s
    ensures Unread(s) != [] ==>
              && t.c.RHold? && t.c.r == s.m.readX && t.c.copied == [] && t.c.maxLen > 0
              && LiesBefore(s.len, s.m.readX, |Unread(s)|, t.c.maxLen)
              && !LiesBefore(s.len, s.m.readX, |Unread(s)|, t.c.maxLen + 1)
  {
    FullWhenNext(s);
    t := if Unread(s) == [] then s else s.(c := RHold(s.m.readX, RoomToRead(s.len, s.m.readX, s.m.writeX), []));
    AskedToRead(s, t);
    LeadsInv(s, AskToRead(), t);
  }

  lemma AskedToRead(s: State, t: State)
    requires Inv(s) && s.c == CIdle
    requires var r, w := s.m.readX, s.m.writeX;
             t == s.(c := if r == w then CIdle else RHold(r, RoomToRead(s.len, r, w), []))
    ensures Leads(s, AskToRead(), t)
  {
    assert Step(Step(Step(s, GetBufferToRead), RunConsumer), RunConsumer) == s.(c := RDecide(s.m.readX, s.m.writeX));
    FourSteps(s, GetBufferToRead, RunConsumer, RunConsumer, RunConsumer, t);
  }

  /** The caller stores these values into the first cells of its region. */
  function Fills(values: seq<int>, from: nat): seq<Choice>
    requires from <= |values|
    decreases |values| - from
  {
    if from == |values| then [] else [Fill(from, values[from])] + Fills(values, from + 1)
  }

  lemma {:induction false} FillAll(s: State, values: seq<int>, from: nat) returns (t: State)
    requires Inv(s) && s.p.WHold? && from <= |values| <= |s.p.region| && s.p.region[..from] == values[..from]
    ensures Leads(s, Fills(values, from), t)
    ensures Inv(t) && t == s.(m := t.m, p := t.p) && t.m.readX == s.m.readX && t.m.writeX == s.m.writeX
    ensures t.p.WHold? && t.p.w == s.p.w && |t.p.region| == |s.p.region| && t.p.region[..|values|] == values
    decreases |values| - from
  {
    if from == |values| {
      assert values[..from] == values;
      Stays(s);
      t := s;
    } else {
      var u := FillOnce(s, values, from);
      t := FillAll(u, values, from + 1);
      First(s, Fill(from, values[from]), Fills(values, from + 1), t);
    }
  }

  lemma FillOnce(s: State, values: seq<int>, from: nat) returns (u: State)
    requires Inv(s) && s.p.WHold? && from < |values| <= |s.p.region| && s.p.region[..from] == values[..from]
    ensures u == Step(s, Fill(from, values[from]))
    ensures Inv(u) && u == s.(m := u.m, p := u.p) && u.m.readX == s.m.readX && u.m.writeX == s.m.writeX
    ensures u.p.WHold? && u.p.w == s.p.w && |u.p.region| == |s.p.region| && u.p.region[..from + 1] == values[..from + 1]
  {
    u := FillCell(s, from, values[from]);
    FillKeepsInv(s, from, values[from]);
    assert u.p.region[..from + 1] == s.p.region[..from] + [values[from]] == values[..from + 1];
  }

  /** writeConcluded(n) publishes exactly the first n cells of the region. */
  lemma Concludes(s: State, n: nat)
    requires Inv(s) && s.p.WHold? && n <= |s.p.region|
    ensures var t := Step(s, WriteConcluded(n));
            && Inv(t) && t.p == PIdle && t.c == s.c && t.gets == s.gets && t.len == s.len && t.m.readX == s.m.readX
            && t.puts == s.puts + s.p.region[..n] && Unread(t) == Unread(s) + s.p.region[..n]
  {
    ConcludeKeepsInv(s, n);
    PutsGrow(s, s.p.region[..n]);
  }

  /** A whole block written: asked for, filled and concluded. */
  function WriteCall(values: seq<int>): seq<Choice> {
    AskToWrite() + (Fills(values, 0) + [WriteConcluded(|values|)])
  }

  /** Any values that fit behind the write index are appended, all of them and in order. */
  lemma UninterruptedBlockWrite(s: State, values: seq<int>) returns (t: State)
    requires Inv(s) && s.p == PIdle && |Unread(s)| < s.len - 1
    requires FitsBehind(s.len, s.m.writeX, |Unread(s)|, |values|)
    ensures Leads(s, WriteCall(values), t)
    ensures Inv(t) && t.p == PIdle && t.puts == s.puts + values && Unread(t) == Unread(s) + values
    ensures t.gets == s.gets && t.c == s.c && t.m.readX == s.m.readX
  {
    var asked := UninterruptedAskToWrite(s);
    var filled := FillAll(asked, values, 0);
    t := Step(filled, WriteConcluded(|values|));
    Concludes(filled, |values|);
    OneStep(filled, WriteConcluded(|values|), t);
    Then(asked, Fills(values, 0), [WriteConcluded(|values|)], filled, t);
    Then(s, AskToWrite(), Fills(values, 0) + [WriteConcluded(|values|)], asked, t);
  }

  function Copies(n: nat): seq<Choice> {
    if n == 0 then [] else Copies(n - 1) + [Copy]
  }

  lemma CopyOnce(s: State)
    requires Inv(s) && s.c.RHold? && |s.c.copied| < s.c.maxLen
    ensures Inv(Step(s, Copy)) && Step(s, Copy) == s.(c := s.c.(copied := Unread(s)[..|s.c.copied| + 1]))
  {
    CopyNext(s.m, s.len, Unread(s), s.c.maxLen, s.c.copied);
    CopyKeepsInv(s);
  }

  lemma {:induction false} CopyAll(s: State, n: nat) returns (t: State)
    requires Inv(s) && s.c.RHold? && s.c.copied == [] && n <= s.c.maxLen
    ensures Leads(s, Copies(n), t) && Inv(t) && n <= |Unread(s)| && t == s.(c := s.c.(copied := Unread(s)[..n]))
    decreases n
  {
    if n == 0 {
      Stays(s);
      t := s;
    } else {
      var u := CopyAll(s, n - 1);
      CopyOnce(u);
      t := Step(u, Copy);
      OneStep(u, Copy, t);
      Then(s, Copies(n - 1), [Copy], u, t);
    }
  }

  /** A whole block read: asked for, copied and concluded. */
  function ReadCall(n: nat): seq<Choice> {
    AskToRead() + (Copies(n) + [ReadConcluded(n)])
  }

  /** readConcluded(n) takes exactly the first n values. */
  lemma Releases(s: State, n: nat)
    requires Inv(s) && s.c.RHold? && n <= |s.c.copied|
    ensures var t := Step(s, ReadConcluded(n));
            && Inv(t) && t.c == CIdle && t.p == s.p && t.puts == s.puts && t.len == s.len
            && t.m.buffer == s.m.buffer && t.m.writeX == s.m.writeX
            && n <= |Unread(s)| && t.gets == s.gets + Unread(s)[..n] && Unread(t) == Unread(s)[n..]
  {
    ReleaseKeepsInv(s, n);
    PrefixOfPrefix(s.c.copied, Unread(s), n);
    GetsGrow(s, n);
  }

  /** Any number of the oldest values that do not pass the end of the ring is taken, all of them and in order. */
  lemma UninterruptedBlockRead(s: State, n: nat) returns (t: State)
    requires Inv(s) && s.c == CIdle && Unread(s) != [] && LiesBefore(s.len, s.m.readX, |Unread(s)|, n)
    ensures Leads(s, ReadCall(n), t)
    ensures Inv(t) && t.c == CIdle && t.gets == s.gets + Unread(s)[..n] && Unread(t) == Unread(s)[n..]
    ensures t.puts == s.puts && t.p == s.p && t.m.buffer == s.m.buffer && t.m.writeX == s.m.writeX
  {
    var asked := UninterruptedAskToRead(s);
    var copied := CopyAll(asked, n);
    t := Step(copied, ReadConcluded(n));
    Releases(copied, n);
    OneStep(copied, ReadConcluded(n), t);
    Then(asked, Copies(n), [ReadConcluded(n)], copied, t);
    Then(s, AskToRead(), Copies(n) + [ReadConcluded(n)], asked, t);
  }
}
