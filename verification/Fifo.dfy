/**
  Fifo and BlockFifo (api/fifo.h): one producer and one consumer work on the same ring without a lock.

  Each side is broken into the statements an interrupt can separate; `put` and `get` move one value,
  the block operations hand out a region of the ring that the caller fills or copies cell by cell.
  A run is any sequence of producer and consumer steps.
*/
module Fifo {

  datatype Memory = Memory(buffer: seq<int>, writeX: int, readX: int)

  /** Where the producer is, with its locals; each name is the statement to run next. */
  datatype ProducerPc =
    | PIdle
    | PAdvance(val: int)                       // index = advanceIndex(writeX)
    | PTest(val: int, index: int)              // if(index == readX) return false
    | PStore(val: int, index: int)             // buffer[writeX] = val
    | PPublish(val: int, index: int)           // writeX = index
    | WLoadR                                   // r = readX
    | WLoadW(r: int)                           // w = writeX
    | WDecide(r: int, w: int)                  // full, or how many cells
    | WHold(w: int, region: seq<int>)          // the caller fills the region: what it should contain

  datatype ConsumerPc =
    | CIdle
    | CTest                                    // if(readX == writeX) return false
    | CLoad                                    // val = buffer[readX]
    | CAdvance(val: int)                       // readX = advanceIndex(readX)
    | RLoadR
    | RLoadW(r: int)
    | RDecide(r: int, w: int)
    | RHold(r: int, maxLen: int, copied: seq<int>)

  /** `puts` and `gets` are history: everything published so far, everything taken so far. */
  datatype State = State(len: int, m: Memory, p: ProducerPc, c: ConsumerPc, puts: seq<int>, gets: seq<int>)

  datatype Choice =
    | Put(val: int) | GetBufferToWrite | Fill(k: int, v: int) | WriteConcluded(n: int)
    | Get | GetBufferToRead | Copy | ReadConcluded(n: int)
    | RunProducer | RunConsumer

  function AdvanceIndex(len: int, index: int): int {
    if index < len - 1 then index + 1 else 0
  }

  /** The loop of advanceIndexEx(): like %, and it runs once at most for a region that was handed out. */
  function Reduce(len: int, newIndex: int): int
    requires len > 0
    decreases newIndex
  {
    if newIndex < len then newIndex else Reduce(len, newIndex - len)
  }

  function AdvanceIndexEx(len: int, index: int, size: int): int
    requires len > 0
  {
    Reduce(len, index + size)
  }

  /** maxLen of getBufferToWrite(). */
  function RoomToWrite(len: int, r: int, w: int): int {
    if r > w then r - w - 1 else if r == 0 then len - w - 1 else len - w
  }

  /** maxLen of getBufferToRead(). */
  function RoomToRead(len: int, r: int, w: int): int {
    if r < w then w - r else len - r
  }

  function Init(buffer: seq<int>): State {
    State(|buffer|, Memory(buffer, 0, 0), PIdle, CIdle, [], [])
  }

  function Store(m: Memory, i: int, v: int): Memory {
    if 0 <= i < |m.buffer| then m.(buffer := m.buffer[i := v]) else m
  }

  function Load(m: Memory, i: int): int {
    if 0 <= i < |m.buffer| then m.buffer[i] else 0
  }

  function Cells(m: Memory, i: int, n: int): seq<int> {
    if 0 <= i <= i + n <= |m.buffer| then m.buffer[i..i + n] else []
  }

  function ProducerStep(s: State): State {
    match s.p
    case PAdvance(val) => s.(p := PTest(val, AdvanceIndex(s.len, s.m.writeX)))
    case PTest(val, index) => s.(p := if index == s.m.readX then PIdle else PStore(val, index))
    case PStore(val, index) => s.(m := Store(s.m, s.m.writeX, val), p := PPublish(val, index))
    case PPublish(val, index) => s.(m := s.m.(writeX := index), puts := s.puts + [val], p := PIdle)
    case WLoadR => s.(p := WLoadW(s.m.readX))
    case WLoadW(r) => s.(p := WDecide(r, s.m.writeX))
    case WDecide(r, w) => s.(p := if r == AdvanceIndex(s.len, w) then PIdle else WHold(w, Cells(s.m, w, RoomToWrite(s.len, r, w))))
    case _ => s
  }

  function ConsumerStep(s: State): State {
    match s.c
    case CTest => s.(c := if s.m.readX == s.m.writeX then CIdle else CLoad)
    case CLoad => s.(c := CAdvance(Load(s.m, s.m.readX)))
    case CAdvance(val) => s.(m := s.m.(readX := AdvanceIndex(s.len, s.m.readX)), gets := s.gets + [val], c := CIdle)
    case RLoadR => s.(c := RLoadW(s.m.readX))
    case RLoadW(r) => s.(c := RDecide(r, s.m.writeX))
    case RDecide(r, w) => s.(c := if r == w then CIdle else RHold(r, RoomToRead(s.len, r, w), []))
    case _ => s
  }

  /** The caller stores into the region it was given. */
  function FillCell(s: State, k: int, v: int): State {
    if s.p.WHold? && 0 <= k < |s.p.region| then
      s.(m := Store(s.m, s.p.w + k, v), p := WHold(s.p.w, s.p.region[k := v]))
    else s
  }

  /** writeConcluded(n): the first n cells of the region are published. */
  function Conclude(s: State, n: int): State {
    if s.p.WHold? && 0 <= n <= |s.p.region| && s.len > 0 then
      s.(m := s.m.(writeX := AdvanceIndexEx(s.len, s.m.writeX, n)), puts := s.puts + s.p.region[..n], p := PIdle)
    else s
  }

  /** The caller copies the next cell of the region it was given. */
  function CopyCell(s: State): State {
    if s.c.RHold? && |s.c.copied| < s.c.maxLen then
      s.(c := s.c.(copied := s.c.copied + [Load(s.m, s.c.r + |s.c.copied|)]))
    else s
  }

  /** readConcluded(n): the caller is done with the first n cells. */
  function Release(s: State, n: int): State {
    if s.c.RHold? && 0 <= n <= |s.c.copied| && s.len > 0 then
      s.(m := s.m.(readX := AdvanceIndexEx(s.len, s.m.readX, n)), gets := s.gets + s.c.copied[..n], c := CIdle)
    else s
  }

  function Step(s: State, choice: Choice): State {
    match choice
    case Put(val) => if s.p.PIdle? then s.(p := PAdvance(val)) else s
    case GetBufferToWrite => if s.p.PIdle? then s.(p := WLoadR) else s
    case Fill(k, v) => FillCell(s, k, v)
    case WriteConcluded(n) => Conclude(s, n)
    case Get => if s.c.CIdle? then s.(c := CTest) else s
    case GetBufferToRead => if s.c.CIdle? then s.(c := RLoadR) else s
    case Copy => CopyCell(s)
    case ReadConcluded(n) => Release(s, n)
    case RunProducer => ProducerStep(s)
    case RunConsumer => ConsumerStep(s)
  }

  function Run(s: State, choices: seq<Choice>): State
    decreases |choices|
  {
    if choices == [] then s else Run(Step(s, choices[0]), choices[1..])
  }

  // ---------------------------------------------------------------- the invariant

  function Wrap(n: int, x: int): int {
    if x < n then x else x - n
  }

  /** The i-th cell from r on. */
  function CellAt(len: int, r: int, i: int): int {
    Wrap(len, r + i)
  }

  /** The cells from readX on hold `queue`, and writeX is where it ends. */
  ghost predicate Holds(m: Memory, len: int, queue: seq<int>) {
    && |m.buffer| == len && 0 <= m.readX < len && 0 <= m.writeX < len
    && |queue| < len
    && m.writeX == Wrap(len, m.readX + |queue|)
    && forall i | 0 <= i < |queue| :: m.buffer[CellAt(len, m.readX, i)] == queue[i]
  }

  /** The values put and not yet got. */
  ghost function Unread(s: State): seq<int> {
    if |s.gets| <= |s.puts| then s.puts[|s.gets|..] else []
  }

  ghost predicate Ordered(s: State) {
    && |s.gets| <= |s.puts| && s.gets == s.puts[..|s.gets|]
    && Holds(s.m, s.len, Unread(s))
  }

  /** How many cells lie from r up to w. */
  function Distance(len: int, r: int, w: int): int {
    if r <= w then w - r else len - r + w
  }

  ghost predicate ProducerInv(len: int, m: Memory, p: ProducerPc, held: int) {
    match p
    case PIdle => true
    case PAdvance(_) => true
    case PTest(_, index) => index == AdvanceIndex(len, m.writeX)
    case PStore(_, index) => index == AdvanceIndex(len, m.writeX) && held + 1 < len
    case PPublish(val, index) => index == AdvanceIndex(len, m.writeX) && held + 1 < len && val == Load(m, m.writeX)
    case WLoadR => true
    case WLoadW(r) => 0 <= r < len && held <= Distance(len, r, m.writeX)
    case WDecide(r, w) => 0 <= r < len && w == m.writeX && held <= Distance(len, r, w)
    case WHold(w, region) => && w == m.writeX && region != [] && w + |region| <= len && held + |region| < len
                             && region == Cells(m, w, |region|)
  }

  ghost predicate ConsumerInv(len: int, m: Memory, c: ConsumerPc, queue: seq<int>) {
    match c
    case CIdle => true
    case CTest => true
    case CLoad => queue != []
    case CAdvance(val) => queue != [] && val == queue[0]
    case RLoadR => true
    case RLoadW(r) => r == m.readX
    case RDecide(r, w) => r == m.readX && 0 <= w < len && Distance(len, r, w) <= |queue|
    case RHold(r, maxLen, copied) => && r == m.readX && 0 < maxLen <= |queue| && r + maxLen <= len
                                     && |copied| <= maxLen && copied == queue[..|copied|]
  }

  ghost predicate Inv(s: State) {
    Ordered(s) && ProducerInv(s.len, s.m, s.p, |Unread(s)|) && ConsumerInv(s.len, s.m, s.c, Unread(s))
  }

  /** Is this cell one of those that hold an unread value? */
  ghost predicate Occupied(s: State, cell: int) {
    exists i :: 0 <= i < |Unread(s)| && cell == CellAt(s.len, s.m.readX, i)
  }

  // ---------------------------------------------------------------- each step keeps it

  lemma FreeCells(m: Memory, len: int, queue: seq<int>, k: nat)
    requires Holds(m, len, queue) && m.writeX + k < len && |queue| + k + 1 < len
    ensures forall i | 0 <= i < |queue| :: CellAt(len, m.readX, i) != m.writeX + k
  {
  }

  lemma StoreFree(m: Memory, len: int, queue: seq<int>, k: nat, v: int)
    requires Holds(m, len, queue) && m.writeX + k < len && |queue| + k + 1 < len
    ensures Holds(Store(m, m.writeX + k, v), len, queue)
  {
    FreeCells(m, len, queue, k);
  }

  lemma AdvanceOnce(len: int, index: int, n: nat)
    requires 0 <= index < len && n < len
    ensures AdvanceIndexEx(len, index, n) == Wrap(len, index + n)
    ensures n == 1 ==> AdvanceIndex(len, index) == Wrap(len, index + 1)
  {
    if index + n >= len {
      assert Reduce(len, index + n - len) == index + n - len;
    }
  }

  lemma Append(m: Memory, len: int, queue: seq<int>, n: nat)
    requires Holds(m, len, queue) && m.writeX + n <= len && |queue| + n < len
    ensures Holds(m.(writeX := Wrap(len, m.writeX + n)), len, queue + m.buffer[m.writeX..m.writeX + n])
  {
    var more := m.buffer[m.writeX..m.writeX + n];
    forall i | 0 <= i < |queue + more|
      ensures m.buffer[CellAt(len, m.readX, i)] == (queue + more)[i]
    {
      if i >= |queue| {
        assert CellAt(len, m.readX, i) == m.writeX + (i - |queue|);
      }
    }
  }

  lemma DropFirst(m: Memory, len: int, queue: seq<int>, n: nat)
    requires Holds(m, len, queue) && n <= |queue|
    ensures Holds(m.(readX := Wrap(len, m.readX + n)), len, queue[n..])
  {
    forall i | 0 <= i < |queue| - n
      ensures m.buffer[CellAt(len, Wrap(len, m.readX + n), i)] == queue[n..][i]
    {
      assert CellAt(len, Wrap(len, m.readX + n), i) == CellAt(len, m.readX, n + i);
    }
  }

  lemma PutsGrow(s: State, more: seq<int>)
    requires |s.gets| <= |s.puts|
    ensures Unread(s.(puts := s.puts + more)) == Unread(s) + more
  {
  }

  lemma GetsGrow(s: State, n: nat)
    requires |s.gets| <= |s.puts| && s.gets == s.puts[..|s.gets|] && n <= |Unread(s)|
    ensures var s' := s.(gets := s.gets + Unread(s)[..n]);
            |s'.gets| <= |s'.puts| && s'.gets == s'.puts[..|s'.gets|] && Unread(s') == Unread(s)[n..]
  {
  }

  lemma FillKeepsInv(s: State, k: int, v: int)
    requires Inv(s)
    ensures Inv(FillCell(s, k, v))
  {
    if s.p.WHold? && 0 <= k < |s.p.region| {
      StoreFree(s.m, s.len, Unread(s), k, v);
      assert Cells(FillCell(s, k, v).m, s.p.w, |s.p.region|) == s.p.region[k := v];
    }
  }

  lemma KeepsConsumerInv(s: State, more: seq<int>, writeX: int)
    requires Inv(s)
    ensures ConsumerInv(s.len, s.m.(writeX := writeX), s.c, Unread(s) + more)
  {
    if s.c.RHold? {
      assert (Unread(s) + more)[..|s.c.copied|] == Unread(s)[..|s.c.copied|];
    }
  }

  /** The next n cells become part of the queue. */
  lemma PublishCells(s: State, s': State, n: nat)
    requires Inv(s) && s.m.writeX + n <= s.len && |Unread(s)| + n < s.len
    requires s'.m == s.m.(writeX := Wrap(s.len, s.m.writeX + n)) && s'.p.PIdle?
    requires s'.len == s.len && s'.c == s.c && s'.gets == s.gets && s'.puts == s.puts + s.m.buffer[s.m.writeX..s.m.writeX + n]
    ensures Inv(s')
  {
    var more := s.m.buffer[s.m.writeX..s.m.writeX + n];
    Append(s.m, s.len, Unread(s), n);
    PutsGrow(s, more);
    KeepsConsumerInv(s, more, s'.m.writeX);
    assert Unread(s') == Unread(s) + more;
    assert s'.gets == s'.puts[..|s'.gets|];
  }

  lemma ConcludeKeepsInv(s: State, n: int)
    requires Inv(s)
    ensures Inv(Conclude(s, n))
  {
    if s.p.WHold? && 0 <= n <= |s.p.region| {
      assert s.p.region[..n] == s.m.buffer[s.m.writeX..s.m.writeX + n];
      AdvanceOnce(s.len, s.m.writeX, n);
      PublishCells(s, Conclude(s, n), n);
    }
  }

  lemma PublishKeepsInv(s: State)
    requires Inv(s) && s.p.PPublish?
    ensures Inv(ProducerStep(s))
  {
    AdvanceOnce(s.len, s.m.writeX, 1);
    assert s.m.buffer[s.m.writeX..s.m.writeX + 1] == [Load(s.m, s.m.writeX)];
    PublishCells(s, ProducerStep(s), 1);
  }

  lemma FullWhenNext(s: State)
    requires Ordered(s)
    ensures AdvanceIndex(s.len, s.m.writeX) == s.m.readX <==> |Unread(s)| == s.len - 1
    ensures s.m.readX == s.m.writeX <==> Unread(s) == []
    ensures Distance(s.len, s.m.readX, s.m.writeX) == |Unread(s)|
  {
  }

  lemma StoreKeepsInv(s: State)
    requires Inv(s) && s.p.PStore?
    ensures Inv(ProducerStep(s))
  {
    StoreFree(s.m, s.len, Unread(s), 0, s.p.val);
  }

  lemma DecideKeepsInv(s: State)
    requires Inv(s) && s.p.WDecide?
    ensures Inv(ProducerStep(s))
  {
    var n := RoomToWrite(s.len, s.p.r, s.p.w);
    if s.p.r != AdvanceIndex(s.len, s.p.w) {
      assert 0 < n && s.p.w + n <= s.len && |Unread(s)| + n < s.len;
      assert |Cells(s.m, s.p.w, n)| == n;
    }
  }

  lemma ProducerKeepsInv(s: State)
    requires Inv(s)
    ensures Inv(ProducerStep(s))
  {
    FullWhenNext(s);
    if s.p.PPublish? {
      PublishKeepsInv(s);
    } else if s.p.PStore? {
      StoreKeepsInv(s);
    } else if s.p.WDecide? {
      DecideKeepsInv(s);
    }
  }

  /** The next cell of a region that was handed out holds the next value of the queue. */
  lemma CopyNext(m: Memory, len: int, queue: seq<int>, maxLen: int, copied: seq<int>)
    requires Holds(m, len, queue) && |copied| < maxLen <= |queue| && m.readX + maxLen <= len
    requires copied == queue[..|copied|]
    ensures copied + [Load(m, m.readX + |copied|)] == queue[..|copied| + 1]
  {
    assert m.buffer[CellAt(len, m.readX, |copied|)] == queue[|copied|];
  }

  lemma CopyKeepsInv(s: State)
    requires Inv(s)
    ensures Inv(CopyCell(s))
  {
    if s.c.RHold? && |s.c.copied| < s.c.maxLen {
      CopyNext(s.m, s.len, Unread(s), s.c.maxLen, s.c.copied);
    }
  }

  /** The first n values leave the queue. */
  lemma ConsumeCells(s: State, s': State, n: nat)
    requires Inv(s) && n <= |Unread(s)|
    requires s'.m == s.m.(readX := Wrap(s.len, s.m.readX + n)) && s'.c.CIdle?
    requires s'.len == s.len && s'.p == s.p && s'.puts == s.puts && s'.gets == s.gets + Unread(s)[..n]
    ensures Inv(s')
  {
    DropFirst(s.m, s.len, Unread(s), n);
    GetsGrow(s, n);
    KeepsProducerInv(s, n);
    assert Unread(s') == Unread(s)[n..];
  }

  lemma PrefixOfPrefix(copied: seq<int>, queue: seq<int>, n: nat)
    requires n <= |copied| <= |queue| && copied == queue[..|copied|]
    ensures copied[..n] == queue[..n]
  {
  }

  lemma ReleaseKeepsInv(s: State, n: int)
    requires Inv(s)
    ensures Inv(Release(s, n))
  {
    if s.c.RHold? && 0 <= n <= |s.c.copied| {
      AdvanceOnce(s.len, s.m.readX, n);
      PrefixOfPrefix(s.c.copied, Unread(s), n);
      ConsumeCells(s, Release(s, n), n);
    }
  }

  lemma KeepsProducerInv(s: State, n: nat)
    requires Inv(s) && n <= |Unread(s)|
    ensures ProducerInv(s.len, s.m.(readX := Wrap(s.len, s.m.readX + n)), s.p, |Unread(s)| - n)
  {
  }

  lemma AdvanceKeepsInv(s: State)
    requires Inv(s) && s.c.CAdvance?
    ensures Inv(ConsumerStep(s))
  {
    AdvanceOnce(s.len, s.m.readX, 1);
    assert Unread(s)[..1] == [s.c.val];
    ConsumeCells(s, ConsumerStep(s), 1);
  }

  lemma ConsumerKeepsInv(s: State)
    requires Inv(s)
    ensures Inv(ConsumerStep(s))
  {
    FullWhenNext(s);
    if s.c.CAdvance? {
      AdvanceKeepsInv(s);
    } else if s.c.CLoad? {
      assert s.m.buffer[CellAt(s.len, s.m.readX, 0)] == Unread(s)[0];
    }
  }

  lemma StepKeepsInv(s: State, choice: Choice)
    requires Inv(s)
    ensures Inv(Step(s, choice))
  {
    match choice
    case Put(_) =>
    case GetBufferToWrite =>
    case Fill(k, v) => FillKeepsInv(s, k, v);
    case WriteConcluded(n) => ConcludeKeepsInv(s, n);
    case Get =>
    case GetBufferToRead =>
    case Copy => CopyKeepsInv(s);
    case ReadConcluded(n) => ReleaseKeepsInv(s, n);
    case RunProducer => ProducerKeepsInv(s);
    case RunConsumer => ConsumerKeepsInv(s);
  }

  lemma {:induction false} RunKeepsInv(s: State, choices: seq<Choice>)
    requires Inv(s)
    ensures Inv(Run(s, choices))
    decreases |choices|
  {
    if choices != [] {
      StepKeepsInv(s, choices[0]);
      RunKeepsInv(Step(s, choices[0]), choices[1..]);
    }
  }

  // ---------------------------------------------------------------- theorems

  /** In every run the values got are a prefix of those put, and at most len - 1 are held. */
  lemma GotIsPrefixOfPut(buffer: seq<int>, choices: seq<Choice>)
    requires buffer != []
    ensures var s := Run(Init(buffer), choices);
            s.gets <= s.puts && |s.puts| - |s.gets| <= |buffer| - 1
  {
    RunKeepsInv(Init(buffer), choices);
    RunKeepsLength(Init(buffer), choices);
  }

  lemma {:induction false} RunKeepsLength(s: State, choices: seq<Choice>)
    ensures Run(s, choices).len == s.len
    decreases |choices|
  {
    if choices != [] {
      RunKeepsLength(Step(s, choices[0]), choices[1..]);
    }
  }

  /** The cells the producer may store into now. */
  ghost predicate Writable(s: State, cell: int) {
    || (s.p.PStore? && cell == s.m.writeX)
    || (s.p.WHold? && s.p.w <= cell < s.p.w + |s.p.region|)
  }

  /** The cells the consumer may load from now. */
  ghost predicate Readable(s: State, cell: int) {
    || (s.c.CLoad? && cell == s.m.readX)
    || (s.c.RHold? && s.c.r <= cell < s.c.r + s.c.maxLen)
  }

  lemma WritableIsFree(s: State, cell: int)
    requires Inv(s) && Writable(s, cell)
    ensures 0 <= cell < s.len && !Occupied(s, cell)
  {
    FreeCells(s.m, s.len, Unread(s), cell - s.m.writeX);
  }

  lemma ReadableIsOccupied(s: State, cell: int)
    requires Inv(s) && Readable(s, cell)
    ensures Occupied(s, cell)
  {
    var i := if s.c.CLoad? then 0 else cell - s.c.r;
    assert cell == CellAt(s.len, s.m.readX, i);
  }

  /** No cell handed out for writing holds an unread value; so no cell is ever open to both sides. */
  lemma WriteRegionIsFree(buffer: seq<int>, choices: seq<Choice>, cell: int)
    requires buffer != []
    ensures var s := Run(Init(buffer), choices);
            && (Writable(s, cell) ==> 0 <= cell < |buffer| && !Occupied(s, cell))
            && (Readable(s, cell) ==> Occupied(s, cell) && !Writable(s, cell))
  {
    var s := Run(Init(buffer), choices);
    RunKeepsInv(Init(buffer), choices);
    RunKeepsLength(Init(buffer), choices);
    if Writable(s, cell) {
      WritableIsFree(s, cell);
    }
    if Readable(s, cell) {
      ReadableIsOccupied(s, cell);
    }
  }

  /** A put is refused only at an instant when len - 1 values are held, a get only when none is. */
  lemma RefusedOnlyWhenFullOrEmpty(buffer: seq<int>, choices: seq<Choice>)
    requires buffer != []
    ensures var s := Run(Init(buffer), choices);
            && (s.p.PTest? ==> (ProducerStep(s).p.PIdle? <==> |s.puts| - |s.gets| == |buffer| - 1))
            && (s.c.CTest? ==> (ConsumerStep(s).c.CIdle? <==> s.puts == s.gets))
  {
    var s := Run(Init(buffer), choices);
    RunKeepsInv(Init(buffer), choices);
    RunKeepsLength(Init(buffer), choices);
    FullWhenNext(s);
  }
}
