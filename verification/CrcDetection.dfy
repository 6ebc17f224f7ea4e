/** What the CRC of src/independent/checksumes.cpp is good for: checking a message, detecting errors. */
module CrcDetection {
  import opened Folds
  import opened Checksums

  // ---------------------------------------------------------------- a message and its own CRC

  function BigEndian(v: bv16): seq<bv8> {
    [(v >> 8) as bv8, (v & 0xFF) as bv8]
  }

  lemma OwnHalves(v: bv16)
    ensures Xor(v, High((v >> 8) as bv8)) == Low(v)
    ensures (v << 8) & 0xFF00 == High((v & 0xFF) as bv8)
  {
  }

  /** A message followed by its own CRC, most significant byte first, has CRC 0. */
  lemma OwnCrcGivesZero(s: seq<bv8>, v: bv16)
    ensures Crc(s + BigEndian(Crc(s, v)), v) == 0
  {
    var r := Crc(s, v);
    var hi, lo := (r >> 8) as bv8, (r & 0xFF) as bv8;
    CrcConcat(s, [hi, lo], v);
    OwnHalves(r);
    ByteStep(r, hi);
    LowByte(r);
    assert BitSteps(r, hi, 8) == High(lo);
    CancelSteps(lo, 8);
    ShlAll(lo);
    assert [hi, lo][1..] == [lo];
    assert Crc([lo], High(lo)) == Crc([], BitSteps(High(lo), lo, 8));
  }

  // ---------------------------------------------------------------- short strings of bits

  function One(b: bool): bv16 {
    if b then 1 else 0
  }

  /** The bit enters at the bottom of the register instead. */
  function Below(a: bv16, b: bool): bv16 {
    Xor(In(a, false), One(b))
  }

  /** The bits as a polynomial, reduced. */
  function Value(x: seq<bool>): bv16 {
    Fold(Below, x, 0)
  }

  lemma Shift16(v: bv16)
    ensures Shift(v, 16) == Shift(Shift(v, 8), 8)
  {
    assert Repeat(false, 16) == Repeat(false, 8) + Repeat(false, 8);
    FoldConcat(In, Repeat(false, 8), Repeat(false, 8), v);
  }

  lemma OneUp(b: bool)
    ensures Shift(One(b), 16) == In(0, b)
  {
    if b {
      Shift16(1);
      LowByte(1);
      FirstEntry();
    } else {
      ShiftZero(16);
    }
  }

  lemma InSplit(v: bv16, b: bool)
    ensures In(v, b) == Xor(In(v, false), In(0, b))
  {
    InIsLinear();
    XorLaws();
    assert Xor(In(v, false), In(0, b)) == In(Xor(v, 0), Differ(false, b));
  }

  lemma BelowStep(v: bv16, a: bv16, b: bool)
    requires v == Shift(a, 16)
    ensures In(v, b) == Shift(Below(a, b), 16)
  {
    InSplit(v, b);
    ShiftCommutes(a, 16);
    OneUp(b);
    ShiftLinear(In(a, false), One(b), 16);
  }

  lemma FoldLast<S, B>(f: (S, B) -> S, x: seq<B>, v: S)
    requires x != []
    ensures Fold(f, x, v) == f(Fold(f, x[..|x| - 1], v), x[|x| - 1])
  {
    var n := |x| - 1;
    assert x == x[..n] + [x[n]];
    FoldConcat(f, x[..n], [x[n]], v);
    assert [x[n]][1..] == [];
  }

  /** The remainder is the polynomial of the bits times x to the 16. */
  lemma {:induction false} RemainderIsValue(x: seq<bool>)
    ensures Remainder(x, 0) == Shift(Value(x), 16)
    decreases |x|
  {
    if x == [] {
      ShiftZero(16);
    } else {
      var n := |x| - 1;
      FoldLast(In, x, 0 as bv16);
      FoldLast(Below, x, 0 as bv16);
      RemainderIsValue(x[..n]);
      BelowStep(Remainder(x[..n], 0), Value(x[..n]), x[n]);
    }
  }

  /** The bits of the register above the lowest j. */
  function Above(j: nat): bv16
    decreases j
  {
    if j == 0 then 0xFFFF else Above(j - 1) << 1
  }

  lemma AboveHasTop(j: nat)
    requires j < 16
    ensures Above(j) & 0x8000 != 0
  {
    assert Above(1) == 0xFFFE && Above(2) == 0xFFFC && Above(3) == 0xFFF8 && Above(4) == 0xFFF0;
    assert Above(5) == 0xFFE0 && Above(6) == 0xFFC0 && Above(7) == 0xFF80 && Above(8) == 0xFF00;
    assert Above(9) == 0xFE00 && Above(10) == 0xFC00 && Above(11) == 0xF800 && Above(12) == 0xF000;
    assert Above(13) == 0xE000 && Above(14) == 0xC000 && Above(15) == 0x8000;
  }

  ghost predicate Fits(a: bv16, j: nat) {
    a & Above(j) == 0
  }

  lemma NoReduction(a: bv16, m: bv16, b: bool)
    requires a & m == 0 && m & 0x8000 != 0
    ensures Below(a, b) & (m << 1) == 0
  {
  }

  lemma NoCancelling(a: bv16, m: bv16, b: bool)
    requires a & m == 0 && m & 0x8000 != 0
    ensures Below(a, b) == 0 <==> a == 0 && !b
  {
  }

  lemma FitsNext(a: bv16, j: nat, b: bool)
    requires j < 16 && Fits(a, j)
    ensures Fits(Below(a, b), j + 1)
  {
    AboveHasTop(j);
    NoReduction(a, Above(j), b);
  }

  lemma ZeroNext(a: bv16, j: nat, b: bool)
    requires j < 16 && Fits(a, j)
    ensures Below(a, b) == 0 <==> a == 0 && !b
  {
    AboveHasTop(j);
    NoCancelling(a, Above(j), b);
  }

  predicate AllFalse(x: seq<bool>) {
    forall i | 0 <= i < |x| :: !x[i]
  }

  /** Up to sixteen bits fit in the register unreduced, so only zeros give zero. */
  lemma {:induction false} ValueOfShort(x: seq<bool>)
    requires |x| <= 16
    ensures Fits(Value(x), |x|)
    ensures Value(x) == 0 <==> AllFalse(x)
    decreases |x|
  {
    if x != [] {
      var n := |x| - 1;
      FoldLast(Below, x, 0 as bv16);
      ValueOfShort(x[..n]);
      FitsNext(Value(x[..n]), n, x[n]);
      ZeroNext(Value(x[..n]), n, x[n]);
      assert AllFalse(x) <==> AllFalse(x[..n]) && !x[n];
    }
  }

  lemma {:induction false} ZerosKeep(x: seq<bool>, v: bv16)
    requires AllFalse(x)
    ensures Remainder(x, v) == 0 <==> v == 0
  {
    ShiftZero(|x|);
    assert x == Repeat(false, |x|);
    if Remainder(x, v) == 0 {
      InIsInjective();
      FoldInjective(In, x, v, 0 as bv16);
    }
  }

  lemma ShortIsSeen(x: seq<bool>)
    requires |x| <= 16
    ensures Remainder(x, 0) == 0 <==> AllFalse(x)
  {
    RemainderIsValue(x);
    ValueOfShort(x);
    ZerosKeep(Repeat(false, 16), Value(x));
  }

  /** Errors confined to the bits from..to, at most sixteen of them. */
  lemma BurstIsSeen(e: seq<bool>, from: nat, to: nat)
    requires from <= to <= |e| && to - from <= 16
    requires AllFalse(e[..from]) && AllFalse(e[to..]) && !AllFalse(e)
    ensures Remainder(e, 0) != 0
  {
    var mid := e[from..to];
    assert e == e[..from] + (mid + e[to..]);
    FoldConcat(In, e[..from], mid + e[to..], 0 as bv16);
    FoldConcat(In, mid, e[to..], 0 as bv16);
    ZerosKeep(e[..from], 0);
    assert !AllFalse(mid);
    ShortIsSeen(mid);
    ZerosKeep(e[to..], Remainder(mid, 0));
  }

  // ---------------------------------------------------------------- buffers

  /** The highest n bits of a byte. */
  function Highest(n: nat): bv8
    decreases n
  {
    if n == 0 then 0 else 0x80 | (Highest(n - 1) >> 1)
  }

  lemma HighestEight()
    ensures Highest(8) == 0xFF
  {
    assert Highest(1) == 0x80 && Highest(2) == 0xC0 && Highest(3) == 0xE0 && Highest(4) == 0xF0;
    assert Highest(5) == 0xF8 && Highest(6) == 0xFC && Highest(7) == 0xFE;
  }

  lemma AgreeStep(c: bv8, d: bv8, m: bv8)
    requires ((c << 1) ^ (d << 1)) & m == 0 && (c & 0x80 != 0 <==> d & 0x80 != 0)
    ensures (c ^ d) & (0x80 | (m >> 1)) == 0
  {
  }

  lemma {:induction false} BitsAgree(c: bv8, d: bv8, n: nat)
    requires Bits(c, n) == Bits(d, n)
    ensures (c ^ d) & Highest(n) == 0
    decreases n
  {
    if n > 0 {
      assert Bits(c, n)[0] == Bits(d, n)[0];
      assert Bits(c, n)[1..] == Bits(c << 1, n - 1) && Bits(d, n)[1..] == Bits(d << 1, n - 1);
      BitsAgree(c << 1, d << 1, n - 1);
      AgreeStep(c, d, Highest(n - 1));
    }
  }

  lemma SameByte(c: bv8, d: bv8)
    requires Bits(c, 8) == Bits(d, 8)
    ensures c == d
  {
    BitsAgree(c, d, 8);
    HighestEight();
    XorNothing(c, d);
  }

  lemma XorNothing(c: bv8, d: bv8)
    requires (c ^ d) & 0xFF == 0
    ensures c == d
  {
  }

  lemma {:induction false} BitsOfLength(s: seq<bv8>)
    ensures |BitsOf(s)| == 8 * |s|
    decreases |s|
  {
    if s != [] {
      BitsLength(s[0], 8);
      BitsOfLength(s[1..]);
    }
  }

  lemma {:induction false} SameBuffer(s: seq<bv8>, t: seq<bv8>)
    requires |s| == |t| && BitsOf(s) == BitsOf(t)
    ensures s == t
    decreases |s|
  {
    if s != [] {
      BitsLength(s[0], 8);
      BitsLength(t[0], 8);
      assert BitsOf(s)[..8] == Bits(s[0], 8) && BitsOf(t)[..8] == Bits(t[0], 8);
      assert BitsOf(s)[8..] == BitsOf(s[1..]) && BitsOf(t)[8..] == BitsOf(t[1..]);
      SameByte(s[0], t[0]);
      SameBuffer(s[1..], t[1..]);
    }
  }

  /** The buffers agree on every bit outside from..to. */
  ghost predicate AgreeOutside(s: seq<bv8>, t: seq<bv8>, from: nat, to: nat) {
    && |BitsOf(s)| == |BitsOf(t)|
    && forall i | 0 <= i < |BitsOf(s)| && !(from <= i < to) :: BitsOf(s)[i] == BitsOf(t)[i]
  }

  /** Two different buffers that differ only within sixteen consecutive bits, wherever these lie, have different CRCs. */
  lemma BurstsAreDetected(s: seq<bv8>, t: seq<bv8>, v: bv16, from: nat)
    requires |s| == |t| && s != t && AgreeOutside(s, t, from, from + 16)
    ensures Crc(s, v) != Crc(t, v)
  {
    var x, y := BitsOf(s), BitsOf(t);
    var e := Zip(Differ, x, y);
    var n := |x|;
    if AllFalse(e) {
      assert x == y;
      SameBuffer(s, t);
      assert false;
    }
    var a := if from <= n then from else n;
    BurstIsSeen(e, a, if from + 16 <= n then from + 16 else n);
    CrcIsRemainder(s, v);
    CrcIsRemainder(t, v);
    RemainderLinear(x, y, v, v);
    SelfXor(v, Crc(s, v), Crc(t, v));
  }

  lemma SelfXor(v: bv16, a: bv16, b: bv16)
    ensures Xor(v, v) == 0 && (a == b ==> Xor(a, b) == 0)
  {
  }

  lemma Split<T>(s: seq<T>, t: seq<T>, a: nat, b: nat)
    requires |s| == |t| && a <= b <= |s| && forall i | 0 <= i < |s| && !(a <= i < b) :: s[i] == t[i]
    ensures s == s[..a] + s[a..b] + s[b..] && t == s[..a] + t[a..b] + s[b..]
  {
    assert t[..a] == s[..a] && t[b..] == s[b..];
  }

  lemma Outside<T>(head: seq<T>, x: seq<T>, y: seq<T>, tail: seq<T>, i: nat)
    requires |x| == |y| && i < |head + x + tail| && !(|head| <= i < |head| + |x|)
    ensures (head + x + tail)[i] == (head + y + tail)[i]
  {
  }

  lemma EqualBytesEqualBits(s: seq<bv8>, t: seq<bv8>, a: nat, b: nat)
    requires |s| == |t| && a <= b <= |s| && forall i | 0 <= i < |s| && !(a <= i < b) :: s[i] == t[i]
    ensures AgreeOutside(s, t, 8 * a, 8 * b)
  {
    Split(s, t, a, b);
    BitsOfLength(s);
    BitsOfLength(t);
    BitsOfThree(s[..a], s[a..b], s[b..]);
    BitsOfThree(s[..a], t[a..b], s[b..]);
    var head, x, y, tail := BitsOf(s[..a]), BitsOf(s[a..b]), BitsOf(t[a..b]), BitsOf(s[b..]);
    forall i | 0 <= i < |BitsOf(s)| && !(8 * a <= i < 8 * b)
      ensures BitsOf(s)[i] == BitsOf(t)[i]
    {
      Outside(head, x, y, tail, i);
    }
  }

  lemma {:induction false} BitsOfConcat(s: seq<bv8>, t: seq<bv8>)
    ensures BitsOf(s + t) == BitsOf(s) + BitsOf(t)
    decreases |s|
  {
    if s == [] {
      assert s + t == t;
    } else {
      assert (s + t)[1..] == s[1..] + t;
      BitsOfConcat(s[1..], t);
    }
  }

  lemma BitsOfThree(a: seq<bv8>, b: seq<bv8>, c: seq<bv8>)
    ensures BitsOf(a + b + c) == BitsOf(a) + BitsOf(b) + BitsOf(c)
    ensures |BitsOf(a)| == 8 * |a| && |BitsOf(b)| == 8 * |b| && |BitsOf(c)| == 8 * |c|
  {
    BitsOfConcat(a + b, c);
    BitsOfConcat(a, b);
    BitsOfLength(a);
    BitsOfLength(b);
    BitsOfLength(c);
  }

  /** Two different buffers of one length that differ only in two adjacent bytes always have different CRCs. */
  lemma AdjacentBytesAreDetected(s: seq<bv8>, t: seq<bv8>, v: bv16, k: nat)
    requires |s| == |t| && s != t && forall i | 0 <= i < |s| && i != k && i != k + 1 :: s[i] == t[i]
    ensures Crc(s, v) != Crc(t, v)
  {
    EqualBytesEqualBits(s, t, if k < |s| then k else |s|, if k + 2 < |s| then k + 2 else |s|);
    BurstsAreDetected(s, t, v, 8 * k);
  }
}
