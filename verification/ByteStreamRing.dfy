/**
  ByteStreamRingBuffer (support/support-libs/bytestreamringbuffer.h): records of different lengths in
  a ring of words.  Each record is its length in bytes followed by its payload in whole words; writing
  overwrites the oldest records.  The object refines a queue of records that drops the oldest.
*/
module ByteStreamRing {
  import opened RecordQueue

  /** An index that has run past the end of the ring by less than one turn. */
  function Wrap(n: int, x: int): int {
    if x < n then x else x - n
  }

  /** The operator % of the original: the remainder has the sign of the dividend. */
  function Remainder(x: int, n: int): (m: int)
    requires n > 0
    ensures if x < 0 then -n < m <= 0 else 0 <= m < n
    decreases if x >= 0 then x else 1 - x
  {
    if x < 0 then -Remainder(-x, n) else if x < n then x else Remainder(x - n, n)
  }

  lemma RemainderIsWrap(n: int, x: int)
    requires n > 0 && 0 <= x < 2 * n
    ensures Remainder(x, n) == Wrap(n, x)
  {
  }

  /** Starting at x, the ring b holds these words. */
  predicate Holds(b: seq<int>, x: int, words: seq<int>) {
    && 0 <= x < |b| && |words| <= |b|
    && forall i | 0 <= i < |words| :: b[Wrap(|b|, x + i)] == words[i]
  }

  lemma HoldsExtend(b: seq<int>, x: int, words: seq<int>, v: int)
    requires Holds(b, x, words) && |words| < |b|
    ensures Holds(b[Wrap(|b|, x + |words|) := v], x, words + [v])
  {
  }

  lemma HoldsDrop(b: seq<int>, x: int, a: seq<int>, c: seq<int>)
    requires Holds(b, x, a + c) && |a| < |b|
    ensures Holds(b, Wrap(|b|, x + |a|), c)
  {
    forall i | 0 <= i < |c|
      ensures b[Wrap(|b|, Wrap(|b|, x + |a|) + i)] == c[i]
    {
      assert (a + c)[|a| + i] == c[i];
      assert Wrap(|b|, Wrap(|b|, x + |a|) + i) == Wrap(|b|, x + (|a| + i));
    }
  }

  lemma HoldsPrefix(b: seq<int>, x: int, a: seq<int>, c: seq<int>)
    requires Holds(b, x, a + c)
    ensures Holds(b, x, a)
  {
    forall i | 0 <= i < |a|
      ensures b[Wrap(|b|, x + i)] == a[i]
    {
      assert (a + c)[i] == a[i];
    }
  }

  /** Whole records from r, then the first words of a record being written, up to w: never the whole ring. */
  ghost predicate Represents(b: seq<int>, r: int, w: int, rs: seq<Record>, part: seq<int>) {
    && AllValid(rs)
    && |Flat(rs)| + |part| < |b|
    && Holds(b, r, Flat(rs) + part)
    && w == Wrap(|b|, r + |Flat(rs)| + |part|)
  }

  /** The read index after one more word: past the oldest record if the indices would meet. */
  function ReadIndexAfter(b: seq<int>, r: int, w: int): int {
    if w == r && 0 <= r < |b| then Remainder(r + 1 + WordsIn(b[r]), |b|) else r
  }

  /** The object's fields. */
  datatype Raw = Raw(b: seq<int>, r: int, w: int)

  /** writeWord(). */
  function RawWord(s: Raw, v: int): Raw
    requires 0 <= s.w < |s.b|
  {
    var b := s.b[s.w := v];
    var w := Wrap(|b|, s.w + 1);
    Raw(b, ReadIndexAfter(b, s.r, w), w)
  }

  function RawWords(s: Raw, words: seq<int>): (t: Raw)
    requires 0 <= s.w < |s.b|
    ensures 0 <= t.w < |t.b| == |s.b|
    decreases |words|
  {
    if words == [] then s else RawWords(RawWord(s, words[0]), words[1..])
  }

  lemma {:induction false} RawLast(s: Raw, words: seq<int>, v: int)
    requires 0 <= s.w < |s.b|
    ensures RawWords(s, words + [v]) == RawWord(RawWords(s, words), v)
    decreases |words|
  {
    if words == [] {
      assert (words + [v])[1..] == [];
    } else {
      assert (words + [v])[1..] == words[1..] + [v];
      RawLast(RawWord(s, words[0]), words[1..], v);
    }
  }

  lemma {:induction false} RawConcat(s: Raw, a: seq<int>, c: seq<int>)
    requires 0 <= s.w < |s.b|
    ensures RawWords(s, a + c) == RawWords(RawWords(s, a), c)
    decreases |a|
  {
    if a == [] {
      assert a + c == c;
    } else {
      assert (a + c)[1..] == a[1..] + c;
      RawConcat(RawWord(s, a[0]), a[1..], c);
    }
  }

  /** The records left after one more word: at most the oldest one goes. */
  ghost function Pushed(n: int, rs: seq<Record>, part: seq<int>): seq<Record> {
    if |Flat(rs)| + |part| + 1 == n && rs != [] then rs[1..] else rs
  }

  lemma PushPlain(b: seq<int>, r: int, w: int, rs: seq<Record>, part: seq<int>, v: int)
    requires Represents(b, r, w, rs, part) && |Flat(rs)| + |part| + 1 < |b|
    ensures var w' := Wrap(|b|, w + 1); w' != r && Represents(b[w := v], r, w', rs, part + [v])
  {
    HoldsExtend(b, r, Flat(rs) + part, v);
    assert Flat(rs) + part + [v] == Flat(rs) + (part + [v]);
  }

  lemma FirstOfFull(b: seq<int>, r: int, words: seq<int>)
    requires Holds(b, r, words) && words != []
    ensures b[r] == words[0]
  {
    assert b[Wrap(|b|, r + 0)] == words[0];
  }

  lemma PushDrop(b: seq<int>, r: int, w: int, rs: seq<Record>, part: seq<int>, v: int)
    requires Represents(b, r, w, rs, part) && |Flat(rs)| + |part| + 1 == |b| && rs != [] && Skippable(rs[0])
    ensures Wrap(|b|, w + 1) == r
    ensures Represents(b[w := v], ReadIndexAfter(b[w := v], r, r), r, rs[1..], part + [v])
  {
    HoldsExtend(b, r, Flat(rs) + part, v);
    var rest := Flat(rs[1..]) + (part + [v]);
    assert Flat(rs) + part + [v] == Words(rs[0]) + rest;
    SkipFirst(b[w := v], r, rs[0], rest);
  }

  /** A full ring, and its first record skipped. */
  lemma SkipFirst(b: seq<int>, r: int, first: Record, rest: seq<int>)
    requires Holds(b, r, Words(first) + rest) && ValidRecord(first) && Skippable(first) && |Words(first)| < |b|
    ensures ReadIndexAfter(b, r, r) == Wrap(|b|, r + |Words(first)|)
    ensures Holds(b, Wrap(|b|, r + |Words(first)|), rest)
  {
    FirstOfFull(b, r, Words(first) + rest);
    RemainderIsWrap(|b|, r + |Words(first)|);
    HoldsDrop(b, r, Words(first), rest);
  }

  lemma PushWhole(b: seq<int>, r: int, w: int, part: seq<int>, v: int)
    requires Represents(b, r, w, [], part) && |part| + 1 == |b| && 1 + WordsIn((part + [v])[0]) == |b|
    ensures Wrap(|b|, w + 1) == r && ReadIndexAfter(b[w := v], r, r) == r
    ensures Represents(b[w := v], r, r, [], [])
  {
    assert Flat([]) + part == part;
    HoldsExtend(b, r, part, v);
    FirstOfFull(b[w := v], r, part + [v]);
    SkipAround(b[w := v], r);
  }

  lemma SkipAround(b: seq<int>, r: int)
    requires 0 <= r < |b| && 1 + WordsIn(b[r]) == |b|
    ensures ReadIndexAfter(b, r, r) == r
  {
    RemainderIsWrap(|b|, r + |b|);
  }

  /**
    In the middle of write(): `kept` of the older records are still there, the first words of the new
    one follow, and dropping from `kept` ends where dropping from all the older records would.
  */
  ghost predicate Writing(b: seq<int>, r: int, w: int, older: seq<Record>, kept: seq<Record>, rec: Record, done: int) {
    && 0 <= done <= |Words(rec)| <= |b|
    && DropToFit(kept + [rec], |b| - 1) == DropToFit(older + [rec], |b| - 1) && DropsSkippable(kept + [rec], |b| - 1)
    && if done < |b| then Represents(b, r, w, kept, Words(rec)[..done]) else Represents(b, r, w, [], [])
  }

  lemma LeftIsSame(n: int, older: seq<Record>, kept: seq<Record>, rec: Record, done: int)
    requires 0 <= done < |Words(rec)| <= n
    requires DropToFit(kept + [rec], n - 1) == DropToFit(older + [rec], n - 1) && DropsSkippable(kept + [rec], n - 1)
    ensures var left := Pushed(n, kept, Words(rec)[..done]);
            DropToFit(left + [rec], n - 1) == DropToFit(older + [rec], n - 1) && DropsSkippable(left + [rec], n - 1)
    ensures |Flat(kept)| + done + 1 == n && kept != [] ==> Skippable(kept[0])
  {
    if |Flat(kept)| + done + 1 == n && kept != [] {
      DropEarlier(kept, rec, n - 1);
    }
  }

  /** The ring after one more word of the record, whichever of the three cases it is. */
  lemma PushAny(b: seq<int>, r: int, w: int, kept: seq<Record>, part: seq<int>, v: int)
    requires Represents(b, r, w, kept, part)
    requires kept != [] && |Flat(kept)| + |part| + 1 == |b| ==> Skippable(kept[0])
    requires kept == [] && |part| + 1 == |b| ==> 1 + WordsIn((part + [v])[0]) == |b|
    ensures var w' := Wrap(|b|, w + 1);
            var r' := ReadIndexAfter(b[w := v], r, w');
            if kept == [] && |part| + 1 == |b| then Represents(b[w := v], r', w', [], [])
            else Represents(b[w := v], r', w', Pushed(|b|, kept, part), part + [v])
  {
    if |Flat(kept)| + |part| + 1 < |b| {
      PushPlain(b, r, w, kept, part, v);
    } else if kept != [] {
      PushDrop(b, r, w, kept, part, v);
    } else {
      PushWhole(b, r, w, part, v);
    }
  }

  /** A record that fills the ring by itself has driven out all others before its last word. */
  lemma LastWordAlone(rec: Record, n: int, done: int, held: int)
    requires ValidRecord(rec) && 0 <= done < |Words(rec)| <= n && held >= 0 && held + done < n
    requires |Words(rec)| == n ==> Skippable(rec)
    ensures Words(rec)[..done] + [Words(rec)[done]] == Words(rec)[..done + 1]
    ensures done + 1 == n ==> 1 + WordsIn((Words(rec)[..done] + [Words(rec)[done]])[0]) == n && held == 0
  {
  }

  /** A record that does not fit by itself is dropped, too. */
  lemma {:induction false} TooLongIsSkippable(rs: seq<Record>, rec: Record, capacity: nat)
    requires DropsSkippable(rs + [rec], capacity) && |Words(rec)| > capacity
    ensures Skippable(rec)
    decreases |rs|
  {
    FlatAppend(rs, rec);
    if rs == [] {
      assert rs + [rec] == [rec];
    } else {
      assert (rs + [rec])[1..] == rs[1..] + [rec];
      TooLongIsSkippable(rs[1..], rec, capacity);
    }
  }

  lemma WritingStep(s: Raw, older: seq<Record>, kept: seq<Record>, rec: Record, done: int)
    requires ValidRecord(rec) && done < |Words(rec)|
    requires Writing(s.b, s.r, s.w, older, kept, rec, done)
    ensures 0 <= s.w < |s.b|
    ensures var t := RawWord(s, Words(rec)[done]);
            Writing(t.b, t.r, t.w, older, Pushed(|s.b|, kept, Words(rec)[..done]), rec, done + 1)
  {
    LeftIsSame(|s.b|, older, kept, rec, done);
    if |Words(rec)| == |s.b| {
      TooLongIsSkippable(kept, rec, |s.b| - 1);
    }
    WordShape(s, kept, rec, done);
  }

  /** What the ring holds after one more word of the record. */
  lemma WordShape(s: Raw, kept: seq<Record>, rec: Record, done: int)
    requires ValidRecord(rec) && 0 <= done < |Words(rec)| <= |s.b|
    requires Represents(s.b, s.r, s.w, kept, Words(rec)[..done])
    requires |Flat(kept)| + done + 1 == |s.b| && kept != [] ==> Skippable(kept[0])
    requires |Words(rec)| == |s.b| ==> Skippable(rec)
    ensures 0 <= s.w < |s.b|
    ensures var t := RawWord(s, Words(rec)[done]);
            && |t.b| == |s.b|
            && if done + 1 < |t.b| then Represents(t.b, t.r, t.w, Pushed(|s.b|, kept, Words(rec)[..done]), Words(rec)[..done + 1])
               else Represents(t.b, t.r, t.w, [], [])
  {
    var part, v := Words(rec)[..done], Words(rec)[done];
    LastWordAlone(rec, |s.b|, done, |Flat(kept)|);
    EmptyIsFlat(kept);
    PushAny(s.b, s.r, s.w, kept, part, v);
    WordIs(s, v);
  }

  lemma WordIs(s: Raw, v: int)
    requires 0 <= s.w < |s.b|
    ensures var t := RawWord(s, v);
            t.b == s.b[s.w := v] && t.w == Wrap(|s.b|, s.w + 1) && t.r == ReadIndexAfter(s.b[s.w := v], s.r, t.w)
  {
  }

  /** Where a write begins. */
  lemma WritingStarts(b: seq<int>, r: int, w: int, older: seq<Record>, rec: Record)
    requires Represents(b, r, w, older, []) && |Words(rec)| <= |b| && DropsSkippable(older + [rec], |b| - 1)
    ensures Writing(b, r, w, older, older, rec, 0) && 0 <= w < |b|
  {
    assert Words(rec)[..0] == [];
  }

  /** The first words of a record written. */
  lemma {:induction false} WritingRun(s: Raw, older: seq<Record>, rec: Record, done: nat) returns (kept: seq<Record>, t: Raw)
    requires 0 <= s.w < |s.b| && Writing(s.b, s.r, s.w, older, older, rec, 0) && ValidRecord(rec) && done <= |Words(rec)|
    ensures t == RawWords(s, Words(rec)[..done]) && |t.b| == |s.b|
    ensures Writing(t.b, t.r, t.w, older, kept, rec, done)
    decreases done
  {
    if done == 0 {
      kept, t := older, s;
    } else {
      var before, u := WritingRun(s, older, rec, done - 1);
      var v := Words(rec)[done - 1];
      PrefixNext(Words(rec), done - 1);
      RawLast(s, Words(rec)[..done - 1], v);
      WritingStep(u, older, before, rec, done - 1);
      kept, t := Pushed(|u.b|, before, Words(rec)[..done - 1]), RawWord(u, v);
    }
  }

  lemma PrefixNext(words: seq<int>, k: nat)
    requires k < |words|
    ensures words[..k] + [words[k]] == words[..k + 1]
  {
  }

  /** A record written leaves the longest suffix that fits, if every record dropped for it can be skipped. */
  lemma WrittenFits(s: Raw, older: seq<Record>, rec: Record)
    requires Represents(s.b, s.r, s.w, older, []) && ValidRecord(rec) && |Words(rec)| <= |s.b|
    requires DropsSkippable(older + [rec], |s.b| - 1)
    ensures 0 <= s.w < |s.b|
    ensures var t := RawWords(s, Words(rec)); Represents(t.b, t.r, t.w, DropToFit(older + [rec], |s.b| - 1), [])
  {
    WritingStarts(s.b, s.r, s.w, older, rec);
    var kept, t := WritingRun(s, older, rec, |Words(rec)|);
    AllWords(rec);
    WritingDone(t.b, t.r, t.w, older, kept, rec);
  }

  lemma AllWords(rec: Record)
    ensures Words(rec)[..|Words(rec)|] == Words(rec)
  {
  }

  lemma EmptyIsFlat(rs: seq<Record>)
    ensures rs == [] <==> |Flat(rs)| == 0
  {
  }

  lemma WritingDone(b: seq<int>, r: int, w: int, older: seq<Record>, kept: seq<Record>, rec: Record)
    requires Writing(b, r, w, older, kept, rec, |Words(rec)|) && ValidRecord(rec)
    ensures Represents(b, r, w, DropToFit(older + [rec], |b| - 1), [])
  {
    if |Words(rec)| < |b| {
      assert Words(rec)[..|Words(rec)|] == Words(rec);
      FlatAppend(kept, rec);
      assert Flat(kept + [rec]) + [] == Flat(kept) + Words(rec);
      assert DropToFit(kept + [rec], |b| - 1) == kept + [rec];
    } else {
      TooLongLeavesNothing(older, rec, |b| - 1);
    }
  }

  /** A whole record lies at r. */
  predicate AtFront(b: seq<int>, r: int, first: Record) {
    && ValidRecord(first) && |Words(first)| < |b|
    && 0 <= r < |b| && b[r] == first.len
    && Holds(b, Wrap(|b|, r + 1), first.payload)
  }

  /** What read() does to the memory behind the caller's pointer. */
  predicate Delivered(first: Record, maxLen: int, before: seq<int>, after: seq<int>, transferred: int) {
    if first.len > maxLen then transferred == 0 && after == before
    else
      && transferred == 4 * |first.payload| && |first.payload| <= |before|
      && after == first.payload + before[|first.payload|..]
  }

  /** Where the oldest record lies, and what is left behind it. */
  lemma OldestAt(b: seq<int>, r: int, w: int, rs: seq<Record>)
    requires Represents(b, r, w, rs, []) && rs != []
    ensures AtFront(b, r, rs[0])
    ensures Represents(b, Wrap(|b|, r + |Words(rs[0])|), w, rs[1..], [])
  {
    var first := rs[0];
    var rest := Flat(rs[1..]) + [];
    assert Flat(rs) + [] == Words(first) + rest;
    HeaderAndPayload(b, r, first, rest);
    HoldsDrop(b, r, Words(first), rest);
  }

  lemma HeaderAndPayload(b: seq<int>, r: int, first: Record, rest: seq<int>)
    requires Holds(b, r, Words(first) + rest) && |Words(first)| < |b|
    ensures b[r] == first.len && Holds(b, Wrap(|b|, r + 1), first.payload)
  {
    FirstOfFull(b, r, Words(first) + rest);
    assert Words(first) + rest == [first.len] + (first.payload + rest);
    HoldsDrop(b, r, [first.len], first.payload + rest);
    HoldsPrefix(b, Wrap(|b|, r + 1), first.payload, rest);
  }

  class Buffer {
    const buffer: array<int>
    var writeX: int
    var readX: int
    ghost var Contents: seq<Record>

    /** The words from readX to writeX parse as exactly the records of the queue. */
    ghost predicate Valid()
      reads this, buffer
    {
      Represents(buffer[..], readX, writeX, Contents, [])
    }

    /** WORDS is the length in bytes, rounded up to words. */
    constructor (lenInBytes: nat)
      requires lenInBytes > 0
      ensures Valid() && Contents == [] && fresh(buffer) && buffer.Length == WordsIn(lenInBytes)
    {
      buffer := new int[WordsIn(lenInBytes)];
      writeX, readX := 0, 0;
      Contents := [];
    }

    predicate IsEmpty()
      reads this, buffer
      ensures Valid() ==> (IsEmpty() <==> Contents == [])
    {
      readX == writeX
    }

    method Reset()
      modifies this
      requires buffer.Length > 0
      ensures Valid() && Contents == []
    {
      readX, writeX := 0, 0;
      Contents := [];
    }

    ghost function Fields(): Raw
      reads this, buffer
    {
      Raw(buffer[..], readX, writeX)
    }

    method WriteWord(val: int)
      requires 0 <= writeX < buffer.Length
      modifies this`writeX, this`readX, buffer
      ensures Fields() == RawWord(old(Fields()), val)
    {
      ghost var b := buffer[..][writeX := val];
      buffer[writeX] := val;
      assert buffer[..] == b;
      RemainderIsWrap(buffer.Length, writeX + 1);
      writeX := Remainder(writeX + 1, buffer.Length);
      if writeX == readX {
        readX := Remainder(readX + 1 + WordsIn(buffer[readX]), buffer.Length);
      }
    }

    /** The header and the loop of write(). */
    method WriteRecord(source: seq<int>, len: int)
      requires 0 <= writeX < buffer.Length && len <= 4 * |source|
      modifies this`writeX, this`readX, buffer
      ensures Fields() == RawWords(old(Fields()), [len] + source[..PayloadWords(len)])
    {
      ghost var start := Fields();
      WriteWord(len);
      assert [len][1..] == [];
      var left, k := len, 0;
      while left > 0
        invariant left == len - 4 * k && 0 <= k <= PayloadWords(len)
        invariant Fields() == RawWords(start, [len] + source[..k])
      {
        RawLast(start, [len] + source[..k], source[k]);
        assert [len] + source[..k] + [source[k]] == [len] + source[..k + 1];
        WriteWord(source[k]);
        left, k := left - 4, k + 1;
      }
    }

    /**
      Writes header and payload word by word.  If every record that has to be dropped can be skipped,
      this leaves the longest suffix of the old records and the new one that fits in WORDS - 1 words.
      A record of WORDS - 1 payload words is accepted, but does not fit with its header.
    */
    method Write(source: seq<int>, len: int) returns (ok: bool)
      requires Valid() && len <= 4 * |source|
      modifies this, buffer
      ensures ok <==> WordsIn(len) < buffer.Length
      ensures !ok || len == 0 ==> Valid() && Contents == old(Contents) && Fields() == old(Fields())
      ensures ok && len != 0 ==> Fields() == RawWords(old(Fields()), [len] + source[..PayloadWords(len)])
      ensures ok && len != 0 ==>
                var all := old(Contents) + [Record(len, source[..PayloadWords(len)])];
                DropsSkippable(all, buffer.Length - 1) ==> Valid() && Contents == DropToFit(all, buffer.Length - 1)
      ensures ok && len > 0 && WordsIn(len) == buffer.Length - 1 ==>
                DropToFit(old(Contents) + [Record(len, source[..PayloadWords(len)])], buffer.Length - 1) == []
    {
      if WordsIn(len) >= buffer.Length {
        return false;
      }
      if len == 0 {
        return true;
      }
      ghost var rec := Record(len, source[..PayloadWords(len)]);
      ghost var start, older := Fields(), Contents;
      WriteRecord(source, len);
      Contents := DropToFit(older + [rec], buffer.Length - 1);
      if DropsSkippable(older + [rec], buffer.Length - 1) {
        WrittenFits(start, older, rec);
      }
      if WordsIn(len) == buffer.Length - 1 && len > 0 {
        TooLongLeavesNothing(older, rec, buffer.Length - 1);
      }
      return true;
    }

    method ReadWord() returns (val: int)
      requires 0 <= readX < buffer.Length
      modifies this`readX
      ensures val == buffer[old(readX)] && readX == Wrap(buffer.Length, old(readX) + 1)
    {
      val := buffer[readX];
      RemainderIsWrap(buffer.Length, readX + 1);
      readX := Remainder(readX + 1, buffer.Length);
    }

    /** The copy loop of read(): this many bytes, in whole words. */
    method CopyPayload(destination: array<int>, bytes: int, ghost payload: seq<int>) returns (transferred: int)
      requires 0 <= readX < buffer.Length && destination != buffer
      requires |payload| == PayloadWords(bytes) < buffer.Length && |payload| <= destination.Length
      requires Holds(buffer[..], readX, payload)
      modifies this`readX, destination
      ensures readX == Wrap(buffer.Length, old(readX) + |payload|)
      ensures destination[..] == payload + old(destination[..])[|payload|..]
      ensures transferred == 4 * |payload|
    {
      transferred := 0;
      var len, k := bytes, 0;
      while len > 0
        invariant len == bytes - 4 * k && 0 <= k <= |payload| && transferred == 4 * k
        invariant readX == Wrap(buffer.Length, old(readX) + k)
        invariant forall i | 0 <= i < k :: destination[i] == payload[i]
        invariant forall i | k <= i < destination.Length :: destination[i] == old(destination[i])
      {
        assert buffer[..][Wrap(buffer.Length, old(readX) + k)] == payload[k];
        var val := ReadWord();
        destination[k] := val;
        len, k, transferred := len - 4, k + 1, transferred + 4;
      }
    }

    /** The part of read() behind its test for an empty buffer. */
    method TakeOldest(destination: array<int>, maxLen: int, ghost first: Record) returns (n: int, transferred: int)
      requires AtFront(buffer[..], readX, first) && destination != buffer && maxLen <= 4 * destination.Length
      modifies this`readX, destination
      ensures n == if first.len > maxLen then -1 else first.len
      ensures readX == if first.len <= maxLen || Skippable(first) then Wrap(buffer.Length, old(readX) + |Words(first)|)
                       else Remainder(Wrap(buffer.Length, old(readX) + 1) + WordsIn(first.len), buffer.Length)
      ensures Delivered(first, maxLen, old(destination[..]), destination[..], transferred)
    {
      SkipIs(buffer.Length, readX, first);
      n := ReadWord();
      if n > maxLen {
        readX := Remainder(readX + WordsIn(n), buffer.Length);
        return -1, 0;
      }
      transferred := CopyPayload(destination, n, first.payload);
    }

    /**
      Takes the oldest record: copied whole if it is short enough, otherwise skipped, if it can be.
      `destination` is the memory from the caller's buffer on; the copy moves whole words, so it passes
      the end of a buffer of maxLen bytes exactly when maxLen lies between the record's bytes and its
      words.
    */
    method Read(destination: array<int>, maxLen: int) returns (n: int, transferred: int)
      requires Valid() && destination != buffer && maxLen <= 4 * destination.Length
      modifies this, destination
      ensures n == if old(Contents) == [] then 0 else if old(Contents)[0].len > maxLen then -1 else old(Contents)[0].len
      ensures old(Contents) == [] ==> Valid() && Contents == []
      ensures old(Contents) != [] ==> var first := old(Contents)[0];
                if first.len <= maxLen || Skippable(first) then Valid() && Contents == old(Contents)[1..]
                else readX == Remainder(Wrap(buffer.Length, old(readX) + 1) + WordsIn(first.len), buffer.Length)
      ensures transferred == if n > 0 then 4 * WordsIn(n) else 0
      ensures transferred > 0 ==> (transferred > maxLen <==> n <= maxLen < 4 * WordsIn(n))
      ensures n <= 0 ==> destination[..] == old(destination[..])
      ensures n > 0 ==> var payload := old(Contents)[0].payload;
                && 4 * |payload| == transferred && |payload| <= destination.Length
                && destination[..] == payload + old(destination[..])[|payload|..]
    {
      if IsEmpty() {
        return 0, 0;
      }
      n, transferred := TakeFirst(destination, maxLen, Contents[0]);
      Contents := Contents[1..];
    }

    /** ... on a queue that holds a record. */
    method TakeFirst(destination: array<int>, maxLen: int, ghost first: Record) returns (n: int, transferred: int)
      requires Valid() && Contents != [] && first == Contents[0]
      requires destination != buffer && maxLen <= 4 * destination.Length
      modifies this`readX, destination
      ensures ValidRecord(first)
      ensures n == if first.len > maxLen then -1 else first.len
      ensures if first.len <= maxLen || Skippable(first) then Represents(buffer[..], readX, writeX, Contents[1..], [])
              else readX == Remainder(Wrap(buffer.Length, old(readX) + 1) + WordsIn(first.len), buffer.Length)
      ensures Delivered(first, maxLen, old(destination[..]), destination[..], transferred)
    {
      ghost var b := buffer[..];
      OldestAt(b, readX, writeX, Contents);
      n, transferred := TakeOldest(destination, maxLen, first);
      assert buffer[..] == b;
    }
  }

  /** A skip from behind the header. */
  lemma SkipIs(n: int, r: int, first: Record)
    requires 0 <= r < n && ValidRecord(first) && |Words(first)| < n
    ensures Skippable(first) ==> Remainder(Wrap(n, r + 1) + WordsIn(first.len), n) == Wrap(n, r + |Words(first)|)
  {
    if Skippable(first) {
      RemainderIsWrap(n, Wrap(n, r + 1) + WordsIn(first.len));
    }
  }

  /** The bytes that read() moves for a record of this length. */
  function Transferred(len: int): int {
    4 * WordsIn(len)
  }

  /** No record can overrun a buffer of maxLen bytes if and only if maxLen is a multiple of 4, or nothing fits anyway. */
  lemma NeverOverrunsExactlyWhen(maxLen: int)
    ensures (forall len | 0 < len <= maxLen :: Transferred(len) <= maxLen) <==> maxLen <= 0 || maxLen % 4 == 0
  {
    if maxLen > 0 && maxLen % 4 != 0 {
      assert Transferred(maxLen) > maxLen;
    }
  }

  lemma OneRecordFits(rec: Record, capacity: int)
    requires |Words(rec)| <= capacity
    ensures DropToFit([] + [rec], capacity) == [rec]
  {
    FlatAppend([], rec);
    assert [] + [rec] == [rec];
  }

  /** "Never longer than the MaxLen": a record of 5 bytes, read into a buffer of 5 bytes, moves 8. */
  method FiveBytesMoveEight() returns (maxLen: int, n: int, transferred: int)
    ensures maxLen == n == 5 && transferred == 8 > maxLen
  {
    var ring := new Buffer(32);
    var ok := ring.Write([1, 2], 5);
    OneRecordFits(Record(5, [1, 2][..2]), 7);
    var memory := new int[2];
    maxLen := 5;
    n, transferred := ring.Read(memory, maxLen);
  }

  // ---------------------------------------------------------------- lengths below -6

  /** Words written where they meet nothing. */
  lemma {:induction false} RawPlain(s: Raw, held: seq<int>, words: seq<int>)
    requires 0 <= s.r < |s.b| && Holds(s.b, s.r, held) && s.w == Wrap(|s.b|, s.r + |held|) && |held| + |words| < |s.b|
    ensures var t := RawWords(s, words);
            && |t.b| == |s.b| && t.r == s.r && t.w == Wrap(|s.b|, s.r + |held| + |words|)
            && Holds(t.b, t.r, held + words)
    decreases |words|
  {
    if words == [] {
      assert held + words == held;
    } else {
      HoldsExtend(s.b, s.r, held, words[0]);
      var t := RawWord(s, words[0]);
      assert t.r == s.r;
      RawPlain(t, held + [words[0]], words[1..]);
      assert held + [words[0]] + words[1..] == held + words;
    }
  }

  /** The word that meets a record which cannot be skipped moves the read index to or behind the write index. */
  lemma MeetsLow(s: Raw, rs: seq<Record>, part: seq<int>, v: int)
    requires Represents(s.b, s.r, s.w, rs, part) && |Flat(rs)| + |part| + 1 == |s.b| && rs != []
    ensures 0 <= s.w < |s.b|
    ensures var t := RawWord(s, v);
            && t.w == s.r && t.r == Remainder(t.w + 1 + WordsIn(rs[0].len), |s.b|)
            && (-10 <= rs[0].len <= -7 ==> t.r == t.w)
            && (rs[0].len < -10 ==> t.r <= t.w && (t.r == t.w ==> t.w == 0))
  {
    HoldsExtend(s.b, s.r, Flat(rs) + part, v);
    FirstOfFull(s.b[s.w := v], s.r, Flat(rs) + part + [v]);
    assert (Flat(rs) + part + [v])[0] == rs[0].len;
    BackSkip(|s.b|, s.r, rs[0].len);
  }

  lemma BackSkip(n: int, r: int, len: int)
    requires 0 <= r < n
    ensures -10 <= len <= -7 ==> Remainder(r + 1 + WordsIn(len), n) == r
    ensures len < -10 ==> Remainder(r + 1 + WordsIn(len), n) <= r && (Remainder(r + 1 + WordsIn(len), n) == r ==> r == 0)
  {
    var x := r + 1 + WordsIn(len);
    if len < -10 {
      assert x < r;
      if x >= 0 {
        RemainderIsWrap(n, x);
      }
    } else if len <= -7 {
      RemainderIsWrap(n, r);
    }
  }

  /**
    A write that drops a record with a length from -10 to -7: the queue is lost, the new record's
    header and its words up to the drop included; the ring holds only the words written after it,
    which later calls take for records.  If the drop comes with the last word, the ring reads empty.
  */
  lemma LowLengthLosesQueue(s: Raw, older: seq<Record>, rec: Record)
    requires Represents(s.b, s.r, s.w, older, []) && older != [] && -10 <= older[0].len <= -7
    requires |Words(rec)| < |s.b| <= |Flat(older)| + |Words(rec)|
    ensures 0 <= s.w < |s.b|
    ensures var t := RawWords(s, Words(rec));
            OnlyHolds(t, Words(rec)[|s.b| - |Flat(older)|..], |s.b|)
  {
    LosesUpTo(s, older, Words(rec), |s.b| - |Flat(older)| - 1);
  }

  lemma LosesUpTo(s: Raw, older: seq<Record>, words: seq<int>, d: nat)
    requires Represents(s.b, s.r, s.w, older, []) && older != [] && -10 <= older[0].len <= -7
    requires d < |words| < |s.b| && |Flat(older)| + d + 1 == |s.b|
    ensures 0 <= s.w < |s.b| && OnlyHolds(RawWords(s, words), words[d + 1..], |s.b|)
  {
    var v := LosesAt(s, older, words, d);
    SplitAt(s, words, d);
    PlainFromEmpty(v, words[d + 1..]);
  }

  /** The ring's words from its read to its write index. */
  predicate OnlyHolds(t: Raw, words: seq<int>, n: int) {
    && |t.b| == n && Holds(t.b, t.r, words) && t.w == Wrap(n, t.r + |words|)
    && (t.r == t.w <==> words == [])
  }

  /** The word at which the queue is lost. */
  lemma LosesAt(s: Raw, older: seq<Record>, words: seq<int>, d: nat) returns (v: Raw)
    requires Represents(s.b, s.r, s.w, older, []) && older != [] && -10 <= older[0].len <= -7
    requires d < |words| && |Flat(older)| + d + 1 == |s.b|
    ensures 0 <= s.w < |s.b| && v == RawWord(RawWords(s, words[..d]), words[d])
    ensures |v.b| == |s.b| && 0 <= v.r < |v.b| && v.w == v.r
  {
    var u := UpToMeeting(s, older, words, d);
    MeetsLow(u, older, words[..d], words[d]);
    v := RawWord(u, words[d]);
  }

  /** Words written into a ring whose indices are equal. */
  lemma PlainFromEmpty(v: Raw, words: seq<int>)
    requires 0 <= v.r < |v.b| && v.w == v.r && |words| < |v.b|
    ensures OnlyHolds(RawWords(v, words), words, |v.b|)
  {
    RawPlain(v, [], words);
    assert [] + words == words;
  }

  lemma SplitAt(s: Raw, words: seq<int>, d: nat)
    requires 0 <= s.w < |s.b| && d < |words|
    ensures RawWords(s, words) == RawWords(RawWord(RawWords(s, words[..d]), words[d]), words[d + 1..])
  {
    assert words == words[..d] + words[d..];
    RawConcat(s, words[..d], words[d..]);
    assert words[d..][1..] == words[d + 1..];
  }

  /** The words before the indices meet. */
  lemma UpToMeeting(s: Raw, older: seq<Record>, words: seq<int>, d: nat) returns (u: Raw)
    requires Represents(s.b, s.r, s.w, older, []) && d <= |words| && |Flat(older)| + d < |s.b|
    ensures 0 <= s.w < |s.b| && u == RawWords(s, words[..d]) && |u.b| == |s.b|
    ensures Represents(u.b, u.r, u.w, older, words[..d])
  {
    assert Flat(older) + [] == Flat(older);
    RawPlain(s, Flat(older), words[..d]);
    u := RawWords(s, words[..d]);
  }

  /** By calls: 4 bytes written behind a length of -7 into a ring of three words are accepted, and the ring is empty. */
  method LowLengthLosesAll() returns (first: bool, second: bool, empty: bool)
    ensures first && second && empty
  {
    var ring := new Buffer(12);
    first := ring.Write([], -7);
    ghost var low := Record(-7, [][..0]);
    OneRecordFits(low, 2);
    assert ring.Contents == [low];
    ghost var rec := Record(4, [5][..1]);
    assert Flat([low]) == Words(low) + Flat([low][1..]);
    LowLengthLosesQueue(ring.Fields(), [low], rec);
    second := ring.Write([5], 4);
    empty := ring.IsEmpty();
  }
}
