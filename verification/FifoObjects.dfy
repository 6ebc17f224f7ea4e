/** The objects of api/fifo.h, each call run to its end: they refine queues. */
module FifoObjects {
  import opened Fifo

  lemma PutOne(m: Memory, len: int, queue: seq<int>, val: int)
    requires Holds(m, len, queue) && |queue| + 1 < len
    ensures Holds(Store(m, m.writeX, val).(writeX := AdvanceIndex(len, m.writeX)), len, queue + [val])
  {
    var m' := Store(m, m.writeX, val);
    StoreFree(m, len, queue, 0, val);
    Append(m', len, queue, 1);
    assert m'.buffer[m.writeX..m.writeX + 1] == [val];
  }

  lemma GetOne(m: Memory, len: int, queue: seq<int>)
    requires Holds(m, len, queue) && queue != []
    ensures m.buffer[m.readX] == queue[0]
    ensures Holds(m.(readX := AdvanceIndex(len, m.readX)), len, queue[1..])
  {
    assert m.buffer[CellAt(len, m.readX, 0)] == queue[0];
    DropFirst(m, len, queue, 1);
  }

  lemma Counts(m: Memory, len: int, queue: seq<int>)
    requires Holds(m, len, queue)
    ensures AdvanceIndex(len, m.writeX) == m.readX <==> |queue| == len - 1
    ensures m.readX == m.writeX <==> queue == []
    ensures Distance(len, m.readX, m.writeX) == |queue|
  {
  }

  /** A queue of at most len - 1 values; BlockFifo adds the block operations. */
  class Ring {
    const buffer: array<int>
    var writeX: int
    var readX: int
    var putErrors: int
    var getErrors: int
    ghost var queue: seq<int>

    ghost function Mem(): Memory
      reads this, buffer
    {
      Memory(buffer[..], writeX, readX)
    }

    ghost predicate Valid()
      reads this, buffer
    {
      Holds(Mem(), buffer.Length, queue)
    }

    constructor (len: nat)
      requires len > 0
      ensures Valid() && queue == [] && fresh(buffer) && buffer.Length == len && putErrors == getErrors == 0
    {
      buffer := new int[len];
      writeX, readX, putErrors, getErrors := 0, 0, 0, 0;
      queue := [];
    }

    method Put(val: int) returns (ok: bool)
      requires Valid()
      modifies this, buffer
      ensures Valid() && getErrors == old(getErrors)
      ensures ok <==> old(|queue|) < buffer.Length - 1
      ensures queue == if ok then old(queue) + [val] else old(queue)
      ensures putErrors == if ok then old(putErrors) else old(putErrors) + 1
    {
      Counts(Mem(), buffer.Length, queue);
      var index := AdvanceIndex(buffer.Length, writeX);
      if index == readX {
        putErrors := putErrors + 1;
        return false;
      }
      PutOne(Mem(), buffer.Length, queue, val);
      ghost var stored := buffer[..][writeX := val];
      buffer[writeX] := val;
      assert buffer[..] == stored;
      writeX := index;
      queue := queue + [val];
      return true;
    }

    method Get(untouched: int) returns (ok: bool, val: int)
      requires Valid()
      modifies this
      ensures Valid() && putErrors == old(putErrors)
      ensures ok <==> old(queue) != []
      ensures ok ==> old(queue) == [val] + queue && getErrors == old(getErrors)
      ensures !ok ==> queue == [] && val == untouched && getErrors == old(getErrors) + 1
    {
      Counts(Mem(), buffer.Length, queue);
      val := untouched;
      if readX == writeX {
        getErrors := getErrors + 1;
        return false, val;
      }
      GetOne(Mem(), buffer.Length, queue);
      val := buffer[readX];
      readX := AdvanceIndex(buffer.Length, readX);
      queue := queue[1..];
      return true, val;
    }

    method GetElementCount() returns (n: int)
      requires Valid()
      ensures n == |queue|
    {
      Counts(Mem(), buffer.Length, queue);
      var r, w := readX, writeX;
      n := if r <= w then w - r else buffer.Length - r + w;
    }

    method GetFreeSpaceCount() returns (n: int)
      requires Valid()
      ensures n + |queue| == buffer.Length - 1
    {
      var count := GetElementCount();
      n := buffer.Length - count - 1;
    }

    /** The region starts at writeX, is free, fits, and is empty only when the ring is full. */
    method GetBufferToWrite() returns (start: int, maxLen: int)
      requires Valid()
      ensures maxLen == 0 <==> |queue| == buffer.Length - 1
      ensures 0 <= maxLen <= buffer.Length - 1 - |queue|
      ensures maxLen > 0 ==> start == writeX && start + maxLen <= buffer.Length
      ensures maxLen > 0 ==> maxLen == buffer.Length - 1 - |queue| || start + maxLen == buffer.Length
    {
      Counts(Mem(), buffer.Length, queue);
      var r, w := readX, writeX;
      if r == AdvanceIndex(buffer.Length, w) {
        return 0, 0;
      }
      if r > w {
        maxLen := r - w - 1;
      } else {
        maxLen := buffer.Length - w;
        if r == 0 {
          maxLen := maxLen - 1;
        }
      }
      start := w;
    }

    /** Publishes the cells the caller has filled. */
    method WriteConcluded(n: nat)
      requires Valid() && n <= buffer.Length - 1 - |queue| && writeX + n <= buffer.Length
      modifies this
      ensures Valid() && queue == old(queue) + buffer[old(writeX)..old(writeX) + n]
      ensures putErrors == old(putErrors) && getErrors == old(getErrors)
    {
      Append(Mem(), buffer.Length, queue, n);
      queue := queue + buffer[writeX..writeX + n];
      writeX := AdvancedIndexEx(writeX, n);
    }

    method AdvancedIndexEx(index: int, size: nat) returns (newIndex: int)
      requires 0 <= index < buffer.Length && size < buffer.Length
      ensures newIndex == Wrap(buffer.Length, index + size)
      ensures newIndex == AdvanceIndexEx(buffer.Length, index, size)
    {
      AdvanceOnce(buffer.Length, index, size);
      newIndex := index + size;
      while newIndex >= buffer.Length
        invariant 0 <= newIndex <= index + size
        invariant Reduce(buffer.Length, newIndex) == AdvanceIndexEx(buffer.Length, index, size)
      {
        newIndex := newIndex - buffer.Length;
      }
    }

    /** The region starts at readX, holds the oldest unread values, and ends only with them or with the ring. */
    method GetBufferToRead() returns (start: int, maxLen: int)
      requires Valid()
      ensures maxLen == 0 <==> queue == []
      ensures 0 <= maxLen <= |queue|
      ensures maxLen > 0 ==> start == readX && start + maxLen <= buffer.Length
      ensures maxLen > 0 ==> buffer[start..start + maxLen] == queue[..maxLen]
      ensures maxLen > 0 ==> maxLen == |queue| || start + maxLen == buffer.Length
    {
      Counts(Mem(), buffer.Length, queue);
      var r, w := readX, writeX;
      if r == w {
        return 0, 0;
      }
      maxLen := if r < w then w - r else buffer.Length - r;
      start := r;
      forall i | 0 <= i < maxLen
        ensures buffer[start + i] == queue[i]
      {
        assert Mem().buffer[CellAt(buffer.Length, readX, i)] == queue[i];
      }
    }

    method ReadConcluded(n: nat)
      requires Valid() && n <= |queue|
      modifies this
      ensures Valid() && queue == old(queue)[n..]
      ensures putErrors == old(putErrors) && getErrors == old(getErrors)
    {
      DropFirst(Mem(), buffer.Length, queue, n);
      queue := queue[n..];
      readX := AdvancedIndexEx(readX, n);
    }
  }

  // ---------------------------------------------------------------- several readers, always written

  /** Where a reader ends up when the writer is about to take the cell before it. */
  function Shifted(len: int, nextIndex: int, r: int): int {
    if nextIndex == r then AdvanceIndex(len, r) else r
  }

  /** What is left of a reader's pending values after a put: the newest len - 1. */
  function Kept(pending: seq<int>, val: int, len: int): seq<int> {
    if |pending| < len - 1 then pending + [val] else (pending + [val])[1..]
  }

  /** A put as one reader sees it: only its oldest pending value can go. */
  lemma PutForReader(m: Memory, len: int, pending: seq<int>, val: int)
    requires Holds(m, len, pending)
    ensures var next := AdvanceIndex(len, m.writeX);
            && Holds(Memory(m.buffer[m.writeX := val], next, Shifted(len, next, m.readX)), len, Kept(pending, val, len))
            && (next == m.readX <==> |pending| == len - 1)
  {
    Counts(m, len, pending);
    var next := AdvanceIndex(len, m.writeX);
    if |pending| < len - 1 {
      PutOne(m, len, pending, val);
    } else if pending != [] {
      GetOne(m, len, pending);
      PutOne(m.(readX := AdvanceIndex(len, m.readX)), len, pending[1..], val);
      assert (pending + [val])[1..] == pending[1..] + [val];
    } else {
      assert (pending + [val])[1..] == [];
    }
  }

  /** The history of one reader: everything put was got, was lost, or is pending, and the pending ones are the newest. */
  ghost predicate Accounted(puts: seq<int>, gets: int, overflows: int, pending: seq<int>) {
    && |puts| == gets + overflows + |pending|
    && |pending| <= |puts| && pending == puts[|puts| - |pending|..]
  }

  lemma AccountedAfterPut(puts: seq<int>, gets: int, overflows: int, pending: seq<int>, val: int, len: int)
    requires Accounted(puts, gets, overflows, pending) && |pending| < len
    ensures Accounted(puts + [val], gets, if |pending| == len - 1 then overflows + 1 else overflows, Kept(pending, val, len))
  {
  }

  /** What holds between the ring and one reader's index, overflow counter and history. */
  ghost predicate ReaderOk(b: seq<int>, w: int, r: int, overflows: int, pending: seq<int>, puts: seq<int>, gets: int) {
    Holds(Memory(b, w, r), |b|, pending) && Accounted(puts, gets, overflows, pending)
  }

  ghost predicate ReadersOk(b: seq<int>, w: int, rs: seq<int>, os: seq<int>, ps: seq<seq<int>>, puts: seq<int>, gs: seq<int>) {
    && |rs| == |os| == |ps| == |gs|
    && forall i | 0 <= i < |rs| :: ReaderOk(b, w, rs[i], os[i], ps[i], puts, gs[i])
  }

  ghost function AllKept(ps: seq<seq<int>>, val: int, len: int): seq<seq<int>> {
    seq(|ps|, i requires 0 <= i < |ps| => Kept(ps[i], val, len))
  }

  /** rs', os' are the indices and counters after the loop of put(). */
  ghost predicate ShiftedAll(len: int, next: int, rs: seq<int>, os: seq<int>, rs': seq<int>, os': seq<int>) {
    && |rs| == |os| == |rs'| == |os'|
    && (forall i | 0 <= i < |rs| :: rs'[i] == Shifted(len, next, rs[i]))
    && forall i | 0 <= i < |rs| :: os'[i] == if next == rs[i] then os[i] + 1 else os[i]
  }

  lemma PutForAll(b: seq<int>, w: int, rs: seq<int>, os: seq<int>, ps: seq<seq<int>>, puts: seq<int>, gs: seq<int>,
                  val: int, rs': seq<int>, os': seq<int>)
    requires 0 <= w < |b| && ReadersOk(b, w, rs, os, ps, puts, gs)
    requires ShiftedAll(|b|, AdvanceIndex(|b|, w), rs, os, rs', os')
    ensures ReadersOk(b[w := val], AdvanceIndex(|b|, w), rs', os', AllKept(ps, val, |b|), puts + [val], gs)
    ensures forall i | 0 <= i < |rs| :: os'[i] == if |ps[i]| == |b| - 1 then os[i] + 1 else os[i]
  {
    forall i | 0 <= i < |rs|
      ensures ReaderOk(b[w := val], AdvanceIndex(|b|, w), rs'[i], os'[i], Kept(ps[i], val, |b|), puts + [val], gs[i])
      ensures os'[i] == if |ps[i]| == |b| - 1 then os[i] + 1 else os[i]
    {
      assert ReaderOk(b, w, rs[i], os[i], ps[i], puts, gs[i]);
      PutForReader(Memory(b, w, rs[i]), |b|, ps[i], val);
      AccountedAfterPut(puts, gs[i], os[i], ps[i], val, |b|);
    }
  }

  lemma GetForOne(b: seq<int>, w: int, rs: seq<int>, os: seq<int>, ps: seq<seq<int>>, puts: seq<int>, gs: seq<int>, k: nat)
    requires k < |rs| && ReadersOk(b, w, rs, os, ps, puts, gs)
    ensures 0 <= rs[k] < |b| && (rs[k] == w <==> ps[k] == [])
    ensures ps[k] != [] ==> b[rs[k]] == ps[k][0]
    ensures ps[k] != [] ==>
              ReadersOk(b, w, rs[k := AdvanceIndex(|b|, rs[k])], os, ps[k := ps[k][1..]], puts, gs[k := gs[k] + 1])
  {
    assert ReaderOk(b, w, rs[k], os[k], ps[k], puts, gs[k]);
    Counts(Memory(b, w, rs[k]), |b|, ps[k]);
    if ps[k] != [] {
      GetOne(Memory(b, w, rs[k]), |b|, ps[k]);
      assert ReaderOk(b, w, AdvanceIndex(|b|, rs[k]), os[k], ps[k][1..], puts, gs[k] + 1);
    }
  }

  class MultipleReaderFifo {
    const buffer: array<int>
    var writeX: int
    const readX: array<int>
    const overflowCnt: array<int>
    ghost var pending: seq<seq<int>>
    ghost var puts: seq<int>
    ghost var gets: seq<int>

    ghost predicate Valid()
      reads this, buffer, readX, overflowCnt
    {
      && 0 <= writeX < buffer.Length
      && buffer != readX && buffer != overflowCnt && readX != overflowCnt
      && ReadersOk(buffer[..], writeX, readX[..], overflowCnt[..], pending, puts, gets)
    }

    constructor (len: nat, numOfReaders: nat)
      requires len > 0
      ensures Valid() && fresh(buffer) && fresh(readX) && fresh(overflowCnt)
      ensures buffer.Length == len && readX.Length == numOfReaders
      ensures puts == [] && forall i | 0 <= i < numOfReaders :: pending[i] == [] && gets[i] == 0 && overflowCnt[i] == 0
    {
      buffer := new int[len];
      readX := new int[numOfReaders];
      overflowCnt := new int[numOfReaders];
      writeX := 0;
      pending, puts, gets := seq(numOfReaders, _ => []), [], seq(numOfReaders, _ => 0);
      new;
      for i := 0 to numOfReaders
        invariant writeX == 0 && puts == [] && pending == seq(numOfReaders, _ => []) && gets == seq(numOfReaders, _ => 0)
        invariant forall k | 0 <= k < i :: readX[k] == 0 && overflowCnt[k] == 0
      {
        readX[i] := 0;
        overflowCnt[i] := 0;
      }
    }

    /** The loop of put(): readers in the writer's way are shifted by one. */
    method ShiftSlowReaders(nextIndex: int)
      requires readX.Length == overflowCnt.Length && readX != overflowCnt
      modifies readX, overflowCnt
      ensures ShiftedAll(buffer.Length, nextIndex, old(readX[..]), old(overflowCnt[..]), readX[..], overflowCnt[..])
    {
      for i := 0 to readX.Length
        invariant forall k | 0 <= k < i :: readX[k] == Shifted(buffer.Length, nextIndex, old(readX[k]))
        invariant forall k | 0 <= k < i ::
                    overflowCnt[k] == if nextIndex == old(readX[k]) then old(overflowCnt[k]) + 1 else old(overflowCnt[k])
        invariant forall k | i <= k < readX.Length :: readX[k] == old(readX[k]) && overflowCnt[k] == old(overflowCnt[k])
      {
        if nextIndex == readX[i] {
          readX[i] := AdvanceIndex(buffer.Length, readX[i]);
          overflowCnt[i] := overflowCnt[i] + 1;
        }
      }
    }

    /** Every reader keeps its newest len - 1 values, and counts the one it loses. */
    method Put(val: int) returns (writtenPos: int)
      requires Valid()
      modifies this, buffer, readX, overflowCnt
      ensures Valid() && writtenPos == old(writeX)
      ensures puts == old(puts) + [val] && gets == old(gets) && pending == AllKept(old(pending), val, buffer.Length)
      ensures forall i | 0 <= i < overflowCnt.Length ::
                overflowCnt[i] == old(overflowCnt[i]) + if |old(pending)[i]| == buffer.Length - 1 then 1 else 0
    {
      writtenPos := writeX;
      var nextIndex := AdvanceIndex(buffer.Length, writeX);
      ghost var rs, os := readX[..], overflowCnt[..];
      ghost var stored := buffer[..][writeX := val];
      ShiftSlowReaders(nextIndex);
      PutForAll(buffer[..], writeX, rs, os, pending, puts, gets, val, readX[..], overflowCnt[..]);
      buffer[writeX] := val;
      assert buffer[..] == stored;
      writeX := nextIndex;
      puts := puts + [val];
      pending := AllKept(pending, val, buffer.Length);
    }

    /** The oldest pending value of this reader. */
    method Get(untouched: int, readerId: nat) returns (ok: bool, val: int)
      requires Valid()
      modifies this, readX
      ensures Valid() && puts == old(puts)
      ensures ok <==> readerId < readX.Length && old(pending)[readerId] != []
      ensures ok ==> old(pending)[readerId][0] == val
      ensures ok ==> pending == old(pending)[readerId := old(pending)[readerId][1..]]
      ensures ok ==> gets == old(gets)[readerId := old(gets)[readerId] + 1]
      ensures !ok ==> val == untouched && pending == old(pending) && gets == old(gets)
    {
      if readerId >= readX.Length {
        return false, untouched;
      }
      GetForOne(buffer[..], writeX, readX[..], overflowCnt[..], pending, puts, gets, readerId);
      if readX[readerId] == writeX {
        return false, untouched;
      }
      val := buffer[readX[readerId]];
      ghost var advanced := readX[..][readerId := AdvanceIndex(buffer.Length, readX[readerId])];
      readX[readerId] := AdvanceIndex(buffer.Length, readX[readerId]);
      assert readX[..] == advanced;
      gets := gets[readerId := gets[readerId] + 1];
      pending := pending[readerId := pending[readerId][1..]];
      ok := true;
    }
  }
}
