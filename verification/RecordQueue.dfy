/**
  The queue that ByteStreamRingBuffer (support/support-libs/bytestreamringbuffer.h) refines: records of
  different lengths, of which the oldest are dropped until the rest fits.
*/
module RecordQueue {

  datatype Record = Record(len: int, payload: seq<int>)

  /** Integer division of the original: rounds toward zero. */
  function Quotient(a: int, b: int): int
    requires b > 0
  {
    if a >= 0 then a / b else -(-a / b)
  }

  /** wordsInObject: whole words needed for this many bytes. */
  function WordsIn(bytes: int): int {
    Quotient(bytes + 3, 4)
  }

  /** The words that follow a header: none for a negative length. */
  function PayloadWords(len: int): int {
    if WordsIn(len) > 0 then WordsIn(len) else 0
  }

  predicate ValidRecord(r: Record) {
    r.len != 0 && |r.payload| == PayloadWords(r.len)
  }

  /** The skip over a record, 1 + wordsInObject(len), is its length in words if and only if len is above -7. */
  predicate Skippable(r: Record) {
    r.len > -7
  }

  lemma SkipIsLengthExactlyWhen(r: Record)
    requires ValidRecord(r)
    ensures 1 + WordsIn(r.len) == |Words(r)| <==> Skippable(r)
  {
  }

  predicate AllValid(rs: seq<Record>) {
    forall i | 0 <= i < |rs| :: ValidRecord(rs[i])
  }

  /** The words of one record: header and payload. */
  function Words(r: Record): seq<int> {
    [r.len] + r.payload
  }

  function Flat(rs: seq<Record>): seq<int> {
    if rs == [] then [] else Words(rs[0]) + Flat(rs[1..])
  }

  /** Oldest records dropped until the rest fits. */
  function DropToFit(rs: seq<Record>, capacity: int): seq<Record> {
    if rs == [] || |Flat(rs)| <= capacity then rs else DropToFit(rs[1..], capacity)
  }

  /** Every record that DropToFit drops can be skipped. */
  predicate DropsSkippable(rs: seq<Record>, capacity: int) {
    rs == [] || |Flat(rs)| <= capacity || (Skippable(rs[0]) && DropsSkippable(rs[1..], capacity))
  }

  lemma {:induction false} FlatAppend(rs: seq<Record>, r: Record)
    ensures Flat(rs + [r]) == Flat(rs) + Words(r)
    decreases |rs|
  {
    if rs == [] {
      assert rs + [r] == [r];
      assert Flat([r]) == Words(r) + Flat([r][1..]);
    } else {
      assert (rs + [r])[1..] == rs[1..] + [r];
      FlatAppend(rs[1..], r);
    }
  }

  lemma {:induction false} FlatSuffixShorter(rs: seq<Record>, k: nat)
    requires k <= |rs|
    ensures |Flat(rs[k..])| <= |Flat(rs)|
    decreases k
  {
    if k == 0 {
      assert rs[0..] == rs;
    } else {
      FlatSuffixShorter(rs[1..], k - 1);
      assert rs[k..] == rs[1..][k - 1..];
    }
  }

  /** What is left is a suffix, it fits, and no longer suffix fits. */
  lemma {:induction false} DropToFitIsLongest(rs: seq<Record>, capacity: int, k: nat)
    requires capacity >= 0 && k <= |rs|
    ensures var kept := DropToFit(rs, capacity);
            && |kept| <= |rs|
            && kept == rs[|rs| - |kept|..]
            && |Flat(kept)| <= capacity
            && (|Flat(rs[k..])| <= capacity ==> |rs[k..]| <= |kept|)
    decreases |rs|
  {
    if rs == [] || |Flat(rs)| <= capacity {
      assert rs[0..] == rs;
    } else {
      DropToFitIsLongest(rs[1..], capacity, if k == 0 then 0 else k - 1);
      var kept := DropToFit(rs, capacity);
      assert rs[1..][|rs| - 1 - |kept|..] == rs[|rs| - |kept|..];
      if k == 0 {
        assert rs[0..] == rs;
      } else {
        assert rs[k..] == rs[1..][k - 1..];
      }
    }
  }

  /** A record that does not fit by itself drives out everything, itself included. */
  lemma {:induction false} TooLongLeavesNothing(rs: seq<Record>, r: Record, capacity: int)
    requires |Words(r)| > capacity >= 0
    ensures DropToFit(rs + [r], capacity) == []
    decreases |rs|
  {
    FlatAppend(rs, r);
    if rs == [] {
      assert rs + [r] == [r];
      assert [r][1..] == [];
    } else {
      assert (rs + [r])[1..] == rs[1..] + [r];
      TooLongLeavesNothing(rs[1..], r, capacity);
    }
  }

  /** Dropping the oldest of records that do not fit anyway changes nothing in the end. */
  lemma DropEarlier(rs: seq<Record>, r: Record, capacity: int)
    requires rs != [] && |Flat(rs)| + |Words(r)| > capacity
    ensures DropToFit(rs + [r], capacity) == DropToFit(rs[1..] + [r], capacity)
    ensures DropsSkippable(rs + [r], capacity) <==> Skippable(rs[0]) && DropsSkippable(rs[1..] + [r], capacity)
  {
    FlatAppend(rs, r);
    assert (rs + [r])[1..] == rs[1..] + [r];
  }

  /** A record that does fit is kept. */
  lemma {:induction false} FittingIsKept(rs: seq<Record>, r: Record, capacity: int)
    requires |Words(r)| <= capacity
    ensures var kept := DropToFit(rs + [r], capacity); kept != [] && kept[|kept| - 1] == r
    decreases |rs|
  {
    FlatAppend(rs, r);
    if rs == [] {
      assert rs + [r] == [r];
    } else {
      assert (rs + [r])[1..] == rs[1..] + [r];
      FittingIsKept(rs[1..], r, capacity);
    }
  }

  /** Exactly the records that fit with their header are there after writing them. */
  lemma NewestKeptExactlyWhen(rs: seq<Record>, r: Record, capacity: nat)
    ensures var kept := DropToFit(rs + [r], capacity);
            kept != [] && kept[|kept| - 1] == r <==> |Words(r)| <= capacity
  {
    if |Words(r)| <= capacity {
      FittingIsKept(rs, r, capacity);
    } else {
      TooLongLeavesNothing(rs, r, capacity);
    }
  }
}
