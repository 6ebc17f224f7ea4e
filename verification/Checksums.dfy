/**
  The two CRC-16 computations of src/independent/checksumes.cpp: bit by bit and with a table, for the
  polynomial 0x1021 (the Frame Error Control Field of section 4.1.6 of CCSDS 132.0-B).
*/
module Checksums {
  import opened Folds

  // ---------------------------------------------------------------- what the code computes

  /** One turn of the inner loop of computeCrc(). */
  function BitStep(v: bv16, curChar: bv8): bv16 {
    if ((curChar & 0x80) as bv16) ^ ((v & 0x8000) >> 8) != 0 then (v << 1) ^ 0x1021 else v << 1
  }

  function BitSteps(v: bv16, curChar: bv8, n: nat): bv16
    decreases n
  {
    if n == 0 then v else BitSteps(BitStep(v, curChar), curChar << 1, n - 1)
  }

  /** The outer loop: one byte after the other. */
  function Crc(s: seq<bv8>, v: bv16): bv16
    decreases |s|
  {
    if s == [] then v else Crc(s[1..], BitSteps(v, s[0], 8))
  }

  lemma {:induction false} CrcAppend(s: seq<bv8>, c: bv8, v: bv16)
    ensures Crc(s + [c], v) == BitSteps(Crc(s, v), c, 8)
    decreases |s|
  {
    if s == [] {
      assert (s + [c])[1..] == [];
    } else {
      assert (s + [c])[1..] == s[1..] + [c];
      CrcAppend(s[1..], c, BitSteps(v, s[0], 8));
    }
  }

  /** The inner loop of computeCrc(). */
  method TakeByte(value: bv16, c: bv8) returns (currentValue: bv16)
    ensures currentValue == BitSteps(value, c, 8)
  {
    currentValue := value;
    var curChar := c;
    for bitCnt := 0 to 8
      invariant BitSteps(currentValue, curChar, 8 - bitCnt) == BitSteps(value, c, 8)
    {
      if ((curChar & 0x80) as bv16) ^ ((currentValue & 0x8000) >> 8) != 0 {
        currentValue := (currentValue << 1) ^ 0x1021;
      } else {
        currentValue := currentValue << 1;
      }
      curChar := curChar << 1;
    }
  }

  method ComputeCrc(data: seq<bv8>, len: nat, initialValue: bv16) returns (currentValue: bv16)
    requires len <= |data|
    ensures currentValue == Crc(data[..len], initialValue)
  {
    currentValue := initialValue;
    for charCnt := 0 to len
      invariant currentValue == Crc(data[..charCnt], initialValue)
    {
      CrcAppend(data[..charCnt], data[charCnt], initialValue);
      assert data[..charCnt] + [data[charCnt]] == data[..charCnt + 1];
      currentValue := TakeByte(currentValue, data[charCnt]);
    }
  }

  // ---------------------------------------------------------------- polynomial arithmetic

  /** The register times x, modulo the polynomial. */
  function Z(v: bv16): bv16 {
    (v << 1) ^ ((0 - (v >> 15)) & 0x1021)
  }

  lemma ZLinear(a: bv16, b: bv16)
    ensures Z(a ^ b) == Z(a) ^ Z(b)
  {
  }

  /** A bit of the message, as it meets the top of the register. */
  function Top(b: bool): bv16 {
    if b then 0x8000 else 0
  }

  lemma TopXor(a: bool, b: bool)
    ensures Top(a != b) == Top(a) ^ Top(b)
  {
  }

  /** One bit of the message enters the register. */
  function In(v: bv16, b: bool): bv16 {
    Z(v ^ Top(b))
  }

  /** The remainder of a string of bits, the register starting with v. */
  function Remainder(x: seq<bool>, v: bv16): bv16 {
    Fold(In, x, v)
  }

  /** The first n bits of c, the most significant first. */
  function Bits(c: bv8, n: nat): seq<bool>
    decreases n
  {
    if n == 0 then [] else [c & 0x80 != 0] + Bits(c << 1, n - 1)
  }

  function BitsOf(s: seq<bv8>): seq<bool> {
    if s == [] then [] else Bits(s[0], 8) + BitsOf(s[1..])
  }

  /** A byte on top of the register. */
  function High(c: bv8): bv16 {
    (c as bv16) << 8
  }

  // ---------------------------------------------------------------- the bytes are the bits

  lemma InSet(v: bv16)
    requires v & 0x8000 != 0
    ensures In(v, false) == (v << 1) ^ 0x1021
    ensures In(v, true) == v << 1
  {
  }

  lemma InClear(v: bv16)
    requires v & 0x8000 == 0
    ensures In(v, false) == v << 1
    ensures In(v, true) == (v << 1) ^ 0x1021
  {
  }

  lemma TopsDiffer(v: bv16, c: bv8)
    ensures ((c & 0x80) as bv16) ^ ((v & 0x8000) >> 8) != 0 <==> (c & 0x80 != 0) != (v & 0x8000 != 0)
  {
  }

  lemma StepIsIn(v: bv16, c: bv8)
    ensures BitStep(v, c) == In(v, c & 0x80 != 0)
  {
    TopsDiffer(v, c);
    if v & 0x8000 != 0 {
      InSet(v);
    } else {
      InClear(v);
    }
  }

  lemma FoldFirst(b: bool, x: seq<bool>, v: bv16, w: bv16)
    requires w == In(v, b)
    ensures Remainder([b] + x, v) == Remainder(x, w)
  {
    assert ([b] + x)[1..] == x;
  }

  lemma {:induction false} StepsAreRemainder(v: bv16, c: bv8, n: nat)
    ensures BitSteps(v, c, n) == Remainder(Bits(c, n), v)
    decreases n
  {
    if n > 0 {
      StepIsIn(v, c);
      FoldFirst(c & 0x80 != 0, Bits(c << 1, n - 1), v, BitStep(v, c));
      StepsAreRemainder(BitStep(v, c), c << 1, n - 1);
    }
  }

  /** The code computes the remainder of the bits of the buffer. */
  lemma {:induction false} CrcIsRemainder(s: seq<bv8>, v: bv16)
    ensures Crc(s, v) == Remainder(BitsOf(s), v)
    decreases |s|
  {
    if s != [] {
      StepsAreRemainder(v, s[0], 8);
      FoldConcat(In, Bits(s[0], 8), BitsOf(s[1..]), v);
      CrcIsRemainder(s[1..], BitSteps(v, s[0], 8));
    }
  }

  /** The CRC of a concatenation chains through the first part's CRC. */
  lemma {:induction false} CrcConcat(s: seq<bv8>, t: seq<bv8>, v: bv16)
    ensures Crc(s + t, v) == Crc(t, Crc(s, v))
    decreases |s|
  {
    if s == [] {
      assert s + t == t;
    } else {
      assert (s + t)[1..] == s[1..] + t;
      CrcConcat(s[1..], t, BitSteps(v, s[0], 8));
    }
  }

  // ---------------------------------------------------------------- differences

  function Xor(a: bv16, b: bv16): bv16 {
    a ^ b
  }

  function Differ(a: bool, b: bool): bool {
    a != b
  }

  lemma Swap(a: bv16, b: bv16, c: bv16, d: bv16)
    ensures (a ^ b) ^ (c ^ d) == (a ^ c) ^ (b ^ d)
  {
  }

  lemma InLinear(v: bv16, w: bv16, a: bool, b: bool)
    ensures In(v, a) ^ In(w, b) == In(v ^ w, a != b)
  {
    TopXor(a, b);
    Swap(v, Top(a), w, Top(b));
    ZLinear(v ^ Top(a), w ^ Top(b));
  }

  lemma InIsLinear()
    ensures Linear(In, Xor, Differ)
  {
    forall v, w, a, b
      ensures Xor(In(v, a), In(w, b)) == In(Xor(v, w), Differ(a, b))
    {
      InLinear(v, w, a, b);
    }
  }

  lemma XorLaws()
    ensures (forall b :: Differ(b, b) == false) && forall a :: Xor(a, 0) == a
  {
  }

  lemma InjectiveWith(v: bv16, w: bv16, t: bv16)
    requires Z(v ^ t) == Z(w ^ t)
    ensures v == w
  {
  }

  lemma InIsInjective()
    ensures Injective(In)
  {
    forall v, w, b | In(v, b) == In(w, b)
      ensures v == w
    {
      InjectiveWith(v, w, Top(b));
    }
  }

  /** The bits in which two messages differ give the difference of their remainders. */
  lemma RemainderLinear(x: seq<bool>, y: seq<bool>, v: bv16, w: bv16)
    requires |x| == |y|
    ensures Xor(Remainder(x, v), Remainder(y, w)) == Remainder(Zip(Differ, x, y), Xor(v, w))
  {
    InIsLinear();
    FoldLinear(In, Xor, Differ, x, y, v, w);
  }

  // ---------------------------------------------------------------- one byte at a time

  /** The register after n bits 0: times x to the n. */
  function Shift(v: bv16, n: nat): bv16 {
    Iterate(In, false, v, n)
  }

  lemma ShiftLinear(v: bv16, w: bv16, n: nat)
    ensures Shift(Xor(v, w), n) == Xor(Shift(v, n), Shift(w, n))
  {
    InIsLinear();
    XorLaws();
    SameInputs(In, Xor, Differ, false, Repeat(false, n), v, w);
  }

  lemma ShiftCommutes(v: bv16, n: nat)
    ensures Shift(In(v, false), n) == In(Shift(v, n), false)
  {
    IterateStep(In, false, v, n + 1);
    IterateLast(In, false, v, n);
  }

  function Shl(c: bv8, n: nat): bv8
    decreases n
  {
    if n == 0 then c else Shl(c << 1, n - 1)
  }

  lemma CancelStep(c: bv8)
    ensures BitStep(High(c), c) == High(c << 1)
  {
  }

  /** A byte that meets itself in the register leaves nothing there. */
  lemma {:induction false} CancelSteps(c: bv8, n: nat)
    ensures BitSteps(High(c), c, n) == High(Shl(c, n))
    decreases n
  {
    if n > 0 {
      CancelStep(c);
      CancelSteps(c << 1, n - 1);
    }
  }

  lemma ShlAll(c: bv8)
    ensures High(Shl(c, 8)) == 0
  {
  }

  lemma {:induction false} BitsLength(c: bv8, n: nat)
    ensures |Bits(c, n)| == n
    decreases n
  {
    if n > 0 {
      BitsLength(c << 1, n - 1);
    }
  }

  lemma CancelByte(c: bv8)
    ensures Remainder(Bits(c, 8), High(c)) == 0
  {
    StepsAreRemainder(High(c), c, 8);
    CancelSteps(c, 8);
    ShlAll(c);
  }

  /** Eight bit steps: the byte joins the top of the register, and that moves on by eight. */
  lemma ByteStep(v: bv16, c: bv8)
    ensures BitSteps(v, c, 8) == Shift(Xor(v, High(c)), 8)
  {
    BitsLength(c, 8);
    StepsAreRemainder(v, c, 8);
    CancelByte(c);
    InIsLinear();
    XorLaws();
    Absorb(In, Xor, Differ, false, 0, Bits(c, 8), v, High(c));
  }

  // ---------------------------------------------------------------- the table

  lemma {:induction false} ShiftZero(n: nat)
    ensures Shift(0, n) == 0
    decreases n
  {
    if n > 0 {
      IterateStep(In, false, 0 as bv16, n);
      ShiftZero(n - 1);
    }
  }

  lemma ShiftOnce(v: bv16, w: bv16, n: nat)
    requires n > 0 && w == Z(v)
    ensures Shift(v, n) == Shift(w, n - 1)
  {
    assert In(v, false) == w;
    IterateStep(In, false, v, n);
  }

  lemma FirstEntry()
    ensures Shift(0x0100, 8) == 0x1021
  {
    ShiftOnce(0x0100, 0x0200, 8);
    ShiftOnce(0x0200, 0x0400, 7);
    ShiftOnce(0x0400, 0x0800, 6);
    ShiftOnce(0x0800, 0x1000, 5);
    ShiftOnce(0x1000, 0x2000, 4);
    ShiftOnce(0x2000, 0x4000, 3);
    ShiftOnce(0x4000, 0x8000, 2);
    ShiftOnce(0x8000, 0x1021, 1);
  }

  lemma NextEntry(v: bv16, k: bv16, v': bv16, k': bv16)
    requires Shift(v, 8) == k && v' == Z(v) && k' == Z(k)
    ensures Shift(v', 8) == k'
  {
    assert In(v, false) == v' && In(k, false) == k';
    ShiftCommutes(v, 8);
  }

  /** The constants in CRC::CRC(), one for each bit of the index. */
  lemma Entries()
    ensures Shift(High(1), 8) == 0x1021 && Shift(High(2), 8) == 0x2042
    ensures Shift(High(4), 8) == 0x4084 && Shift(High(8), 8) == 0x8108
    ensures Shift(High(16), 8) == 0x1231 && Shift(High(32), 8) == 0x2462
    ensures Shift(High(64), 8) == 0x48C4 && Shift(High(128), 8) == 0x9188
  {
    FirstEntry();
    NextEntry(0x0100, 0x1021, 0x0200, 0x2042);
    NextEntry(0x0200, 0x2042, 0x0400, 0x4084);
    NextEntry(0x0400, 0x4084, 0x0800, 0x8108);
    NextEntry(0x0800, 0x8108, 0x1000, 0x1231);
    NextEntry(0x1000, 0x1231, 0x2000, 0x2462);
    NextEntry(0x2000, 0x2462, 0x4000, 0x48C4);
    NextEntry(0x4000, 0x48C4, 0x8000, 0x9188);
  }

  /** tmp is the table entry of the bits of i chosen by mask. */
  ghost predicate Partial(i: bv8, mask: bv8, tmp: bv16) {
    tmp == Shift(High(i & mask), 8)
  }

  lemma SplitMask(i: bv8, mask: bv8, m: bv8)
    requires mask & m == 0
    ensures High(i & (mask | m)) == Xor(High(i & mask), High(i & m))
  {
  }

  lemma Extend(i: bv8, mask: bv8, m: bv8, k: bv16, tmp: bv16)
    requires Partial(i, mask, tmp) && mask & m == 0 && Shift(High(m), 8) == k
    requires i & m == 0 || i & m == m
    ensures Partial(i, mask | m, if i & m != 0 then Xor(tmp, k) else tmp)
  {
    SplitMask(i, mask, m);
    ShiftLinear(High(i & mask), High(i & m), 8);
    if i & m == 0 {
      ShiftZero(8);
      XorLaws();
    }
  }

  function WithBit(i: bv8, m: bv8, k: bv16, tmp: bv16): bv16 {
    if i & m != 0 then Xor(tmp, k) else tmp
  }

  /** One pass of the loop in CRC::CRC(). */
  function TableEntry(i: bv8): bv16 {
    WithBit(i, 128, 0x9188, WithBit(i, 64, 0x48C4, WithBit(i, 32, 0x2462, WithBit(i, 16, 0x1231,
      WithBit(i, 8, 0x8108, WithBit(i, 4, 0x4084, WithBit(i, 2, 0x2042, WithBit(i, 1, 0x1021, 0))))))))
  }

  lemma OneBit(i: bv8)
    ensures (i & 1 == 0 || i & 1 == 1) && (i & 2 == 0 || i & 2 == 2) && (i & 4 == 0 || i & 4 == 4)
    ensures (i & 8 == 0 || i & 8 == 8) && (i & 16 == 0 || i & 16 == 16) && (i & 32 == 0 || i & 32 == 32)
    ensures (i & 64 == 0 || i & 64 == 64) && (i & 128 == 0 || i & 128 == 128)
  {
  }

  lemma LowEntry(i: bv8) returns (t: bv16)
    ensures t == WithBit(i, 8, 0x8108, WithBit(i, 4, 0x4084, WithBit(i, 2, 0x2042, WithBit(i, 1, 0x1021, 0))))
    ensures Partial(i, 15, t)
  {
    OneBit(i);
    Entries();
    ShiftZero(8);
    assert i & 0 == 0;
    t := 0;
    Extend(i, 0, 1, 0x1021, t);
    t := WithBit(i, 1, 0x1021, t);
    Extend(i, 1, 2, 0x2042, t);
    t := WithBit(i, 2, 0x2042, t);
    Extend(i, 3, 4, 0x4084, t);
    t := WithBit(i, 4, 0x4084, t);
    Extend(i, 7, 8, 0x8108, t);
    t := WithBit(i, 8, 0x8108, t);
  }

  /** The table holds what eight bit steps make of a byte on top of an empty register. */
  lemma TableEntryIsShift(i: bv8)
    ensures TableEntry(i) == Shift(High(i), 8)
  {
    OneBit(i);
    Entries();
    var t := LowEntry(i);
    Extend(i, 15, 16, 0x1231, t);
    t := WithBit(i, 16, 0x1231, t);
    Extend(i, 31, 32, 0x2462, t);
    t := WithBit(i, 32, 0x2462, t);
    Extend(i, 63, 64, 0x48C4, t);
    t := WithBit(i, 64, 0x48C4, t);
    Extend(i, 127, 128, 0x9188, t);
    assert i & 255 == i;
  }

  /** One turn of the loop of CRC::computeCRC(). */
  function TableStep(v: bv16, c: bv8): bv16 {
    Xor((v << 8) & 0xFF00, TableEntry(((v >> 8) as bv8) ^ c))
  }

  lemma ShiftEight(b0: bv16, b1: bv16, b2: bv16, b3: bv16, b4: bv16, b5: bv16, b6: bv16, b7: bv16, b8: bv16)
    requires Z(b0) == b1 && Z(b1) == b2 && Z(b2) == b3 && Z(b3) == b4
    requires Z(b4) == b5 && Z(b5) == b6 && Z(b6) == b7 && Z(b7) == b8
    ensures Shift(b0, 8) == b8
  {
    ShiftOnce(b0, b1, 8);
    ShiftOnce(b1, b2, 7);
    ShiftOnce(b2, b3, 6);
    ShiftOnce(b3, b4, 5);
    ShiftOnce(b4, b5, 4);
    ShiftOnce(b5, b6, 3);
    ShiftOnce(b6, b7, 2);
    ShiftOnce(b7, b8, 1);
  }

  function Low(v: bv16): bv16 {
    v & 0x00FF
  }

  lemma LowUp(v: bv16)
    ensures var b0 := Low(v); var b1 := b0 << 1; var b2 := b1 << 1; var b3 := b2 << 1; var b4 := b3 << 1;
            var b5 := b4 << 1; var b6 := b5 << 1; var b7 := b6 << 1; var b8 := b7 << 1;
            && Z(b0) == b1 && Z(b1) == b2 && Z(b2) == b3 && Z(b3) == b4 && Z(b4) == b5 && Z(b5) == b6 && Z(b6) == b7
            && Z(b7) == b8 && b8 == (v << 8) & 0xFF00
  {
  }

  /** The low byte of the register just moves up. */
  lemma LowByte(v: bv16)
    ensures Shift(Low(v), 8) == (v << 8) & 0xFF00
  {
    LowUp(v);
    var b0 := Low(v); var b1 := b0 << 1; var b2 := b1 << 1; var b3 := b2 << 1; var b4 := b3 << 1;
    var b5 := b4 << 1; var b6 := b5 << 1; var b7 := b6 << 1; var b8 := b7 << 1;
    ShiftEight(b0, b1, b2, b3, b4, b5, b6, b7, b8);
  }

  lemma Halves(v: bv16, c: bv8)
    ensures Xor(v, High(c)) == Xor(Low(v), High(((v >> 8) as bv8) ^ c))
  {
  }

  lemma ShiftHalves(v: bv16, c: bv8, i: bv8)
    requires i == ((v >> 8) as bv8) ^ c
    ensures Shift(Xor(v, High(c)), 8) == Xor((v << 8) & 0xFF00, Shift(High(i), 8))
  {
    Halves(v, c);
    ShiftLinear(Low(v), High(i), 8);
    LowByte(v);
  }

  /** One look-up does what eight bit steps do. */
  lemma TableStepIsByte(v: bv16, c: bv8)
    ensures TableStep(v, c) == BitSteps(v, c, 8)
  {
    var i := ((v >> 8) as bv8) ^ c;
    ByteStep(v, c);
    ShiftHalves(v, c, i);
    TableEntryIsShift(i);
  }

  lemma IndexIsByte(i: bv8)
    ensures 0 <= i as int < 256 && ((i as int) as bv8) == i
  {
  }

  class CrcTable {
    const lookUpTable: array<bv16>

    ghost predicate Valid()
      reads this, lookUpTable
    {
      lookUpTable.Length == 256 && forall i | 0 <= i < 256 :: lookUpTable[i] == TableEntry(i as bv8)
    }

    constructor ()
      ensures Valid() && fresh(lookUpTable)
    {
      lookUpTable := new bv16[256];
      new;
      for i := 0 to 256
        invariant forall k | 0 <= k < i :: lookUpTable[k] == TableEntry(k as bv8)
      {
        var tmp := Entry(i as bv8);
        lookUpTable[i] := tmp;
      }
    }

    /** One of the eight tests in the loop of the constructor. */
    static method TestBit(i: bv8, m: bv8, k: bv16, tmp: bv16) returns (r: bv16)
      ensures r == WithBit(i, m, k, tmp)
    {
      r := tmp;
      if i & m != 0 {
        r := Xor(r, k);
      }
    }

    /** All of them. */
    static method Entry(i: bv8) returns (tmp: bv16)
      ensures tmp == TableEntry(i)
    {
      tmp := 0;
      tmp := TestBit(i, 1, 0x1021, tmp);
      tmp := TestBit(i, 2, 0x2042, tmp);
      tmp := TestBit(i, 4, 0x4084, tmp);
      tmp := TestBit(i, 8, 0x8108, tmp);
      tmp := TestBit(i, 16, 0x1231, tmp);
      tmp := TestBit(i, 32, 0x2462, tmp);
      tmp := TestBit(i, 64, 0x48C4, tmp);
      tmp := TestBit(i, 128, 0x9188, tmp);
    }

    method LookUp(v: bv16, c: bv8) returns (r: bv16)
      requires Valid()
      ensures r == TableStep(v, c)
    {
      var i := ((v >> 8) as bv8) ^ c;
      IndexIsByte(i);
      r := ((v << 8) & 0xFF00) ^ lookUpTable[i as int];
    }

    method ComputeCRC(data: seq<bv8>, len: nat, initialValue: bv16) returns (currentValue: bv16)
      requires Valid() && len <= |data|
      ensures currentValue == Crc(data[..len], initialValue)
    {
      currentValue := initialValue;
      for i := 0 to len
        invariant currentValue == Crc(data[..i], initialValue)
      {
        TableStepIsByte(currentValue, data[i]);
        CrcAppend(data[..i], data[i], initialValue);
        assert data[..i] + [data[i]] == data[..i + 1];
        currentValue := LookUp(currentValue, data[i]);
      }
    }
  }
}
