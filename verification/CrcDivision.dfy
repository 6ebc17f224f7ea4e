/**
  The CRC register as long division: over the two-element field, the message times x^16, with the
  start value on top, is a multiple of the polynomial x^16 + x^12 + x^5 + 1 plus the CRC.
*/
module CrcDivision {
  import opened Folds
  import opened Checksums

  /** Polynomials are their coefficients, the highest power first. */
  function Sum(x: seq<bool>, y: seq<bool>): (z: seq<bool>)
    requires |x| == |y|
    ensures |z| == |x| && forall i | 0 <= i < |x| :: z[i] == (x[i] != y[i])
  {
    Zip(Differ, x, y)
  }

  function Times(b: bool, x: seq<bool>): (z: seq<bool>)
    ensures |z| == |x| && forall i | 0 <= i < |x| :: z[i] == (b && x[i])
  {
    if b then x else Repeat(false, |x|)
  }

  /** The highest n bits of a register. */
  function Top16(v: bv16, n: nat): (x: seq<bool>)
    ensures |x| == n
    decreases n
  {
    if n == 0 then [] else [v & 0x8000 != 0] + Top16(v << 1, n - 1)
  }

  function Word(v: bv16): (x: seq<bool>)
    ensures |x| == 16
  {
    Top16(v, 16)
  }

  /** q times the polynomial x^16 + g. */
  function Product(g: seq<bool>, q: seq<bool>): (x: seq<bool>)
    requires |g| == 16
    ensures |x| == |q| + 16
    decreases |q|
  {
    if q == [] then Repeat(false, 16)
    else Sum(Times(q[0], [true] + g) + Repeat(false, |q| - 1), [false] + Product(g, q[1..]))
  }

  /** The message times x^16, plus a start value on its top. */
  function Dividend(x: seq<bool>, start: seq<bool>): (d: seq<bool>)
    requires |start| == 16
    ensures |d| == |x| + 16
  {
    Sum(x + Repeat(false, 16), start + Repeat(false, |x|))
  }

  function Quotient(x: seq<bool>, v: bv16): (q: seq<bool>)
    ensures |q| == |x|
    decreases |x|
  {
    if x == [] then [] else [(v & 0x8000 != 0) != x[0]] + Quotient(x[1..], In(v, x[0]))
  }

  // ---------------------------------------------------------------- the register, bit by bit

  lemma TopsXor(a: bv16, b: bv16, c: bv16)
    requires c == a ^ b
    ensures c & 0x8000 != 0 <==> (a & 0x8000 != 0) != (b & 0x8000 != 0)
    ensures c << 1 == (a << 1) ^ (b << 1)
  {
  }

  lemma SumCons(a: bool, x: seq<bool>, b: bool, y: seq<bool>)
    requires |x| == |y|
    ensures Sum([a] + x, [b] + y) == [a != b] + Sum(x, y)
  {
  }

  /** A relation of three registers under which the top bits add up, and which moving up keeps. */
  ghost predicate AddsAndMoves(R: (bv16, bv16, bv16) -> bool) {
    forall a, b, c | R(a, b, c) ::
      && (c & 0x8000 != 0 <==> (a & 0x8000 != 0) != (b & 0x8000 != 0))
      && R(a << 1, b << 1, c << 1)
  }

  lemma {:induction false} Top16Adds(R: (bv16, bv16, bv16) -> bool, a: bv16, b: bv16, c: bv16, n: nat)
    requires AddsAndMoves(R) && R(a, b, c)
    ensures Top16(c, n) == Sum(Top16(a, n), Top16(b, n))
    decreases n
  {
    if n > 0 {
      Top16Adds(R, a << 1, b << 1, c << 1, n - 1);
      SumCons(a & 0x8000 != 0, Top16(a << 1, n - 1), b & 0x8000 != 0, Top16(b << 1, n - 1));
    }
  }

  function IsXor(a: bv16, b: bv16, c: bv16): bool {
    c == a ^ b
  }

  lemma XorAddsAndMoves()
    ensures AddsAndMoves(IsXor)
  {
    forall a, b, c | IsXor(a, b, c)
      ensures c & 0x8000 != 0 <==> (a & 0x8000 != 0) != (b & 0x8000 != 0)
      ensures IsXor(a << 1, b << 1, c << 1)
    {
      TopsXor(a, b, c);
    }
  }

  function Shifted(v: bv16, n: nat): bv16
    decreases n
  {
    if n == 0 then v else Shifted(v << 1, n - 1)
  }

  lemma {:induction false} Top16Last(v: bv16, n: nat)
    ensures Top16(v, n + 1) == Top16(v, n) + [Shifted(v, n) & 0x8000 != 0]
    decreases n
  {
    if n > 0 {
      Top16Last(v << 1, n - 1);
    }
  }

  lemma {:induction false} ShiftedZero(v: bv16, m: bv16, n: nat)
    requires v & m == 0 && Shifted(m, n) & 0x8000 != 0
    ensures Shifted(v, n) & 0x8000 == 0
    decreases n
  {
    if n == 0 {
      TopOfBoth(v, m);
    } else {
      MaskMoves(v, m);
      ShiftedZero(v << 1, m << 1, n - 1);
    }
  }

  lemma TopOfBoth(v: bv16, m: bv16)
    requires v & m == 0 && m & 0x8000 != 0
    ensures v & 0x8000 == 0
  {
  }

  lemma MaskMoves(v: bv16, m: bv16)
    requires v & m == 0
    ensures (v << 1) & (m << 1) == 0
  {
  }

  /** The lowest bit reaches the top after 15 moves. */
  lemma LowestReachesTop()
    ensures Shifted(1, 15) & 0x8000 != 0
  {
    assert Shifted(1, 15) == Shifted(2, 14) == Shifted(4, 13) == Shifted(8, 12) == Shifted(16, 11) == Shifted(32, 10);
    assert Shifted(32, 10) == Shifted(64, 9) == Shifted(128, 8) == Shifted(256, 7) == Shifted(512, 6) == Shifted(1024, 5);
    assert Shifted(1024, 5) == Shifted(2048, 4) == Shifted(4096, 3) == Shifted(8192, 2) == Shifted(16384, 1) == 0x8000;
  }

  lemma LowestClear(v: bv16)
    ensures (v << 1) & 1 == 0
  {
  }

  lemma WordShift(v: bv16)
    ensures Word(v << 1) == Word(v)[1..] + [false]
  {
    LowestClear(v);
    LowestReachesTop();
    ShiftedZero(v << 1, 1, 15);
    Top16Last(v << 1, 15);
    assert Word(v) == [v & 0x8000 != 0] + Top16(v << 1, 15);
  }

  /** In() by cases: the register moves up, and the generator is added if the two top bits differ. */
  lemma InIs(v: bv16, b: bool, g: bv16)
    requires g == 0x1021
    ensures In(v, b) == if (v & 0x8000 != 0) != b then (v << 1) ^ g else v << 1
  {
    if v & 0x8000 != 0 {
      InSet(v);
    } else {
      InClear(v);
    }
  }

  /** What one bit does to the register, in terms of its bits. */
  predicate OneStep(w: seq<bool>, w': seq<bool>, q: bool, g: seq<bool>) {
    |w| == |w'| == |g| == 16 && forall i | 0 <= i < 16 :: w'[i] == ((i < 15 && w[i + 1]) != (q && g[i]))
  }

  lemma StepOf(w: seq<bool>, moved: seq<bool>, w': seq<bool>, q: bool, g: seq<bool>)
    requires |w| == |moved| == |g| == 16 && moved == w[1..] + [false] && w' == if q then Sum(moved, g) else moved
    ensures OneStep(w, w', q, g)
  {
  }

  lemma MovesUp(v: bv16, g: bv16)
    ensures OneStep(Word(v), Word(v << 1), false, Word(g))
  {
    WordShift(v);
    StepOf(Word(v), Word(v << 1), Word(v << 1), false, Word(g));
  }

  lemma MovesUpAndAdds(v: bv16, moved: bv16, g: bv16, u: bv16)
    requires Word(moved) == Word(v)[1..] + [false] && Word(u) == Sum(Word(moved), Word(g))
    ensures OneStep(Word(v), Word(u), true, Word(g))
  {
    StepOf(Word(v), Word(moved), Word(u), true, Word(g));
  }

  lemma WordIn(v: bv16, b: bool, g: bv16)
    requires g == 0x1021
    ensures OneStep(Word(v), Word(In(v, b)), (v & 0x8000 != 0) != b, Word(g))
  {
    InIs(v, b, g);
    if (v & 0x8000 != 0) != b {
      WordShift(v);
      AddsUp(v << 1, g, In(v, b));
      MovesUpAndAdds(v, v << 1, g, In(v, b));
    } else {
      MovesUp(v, g);
    }
  }

  lemma WordTop(v: bv16)
    ensures Word(v)[0] == (v & 0x8000 != 0)
  {
  }

  lemma AddsUp(a: bv16, b: bv16, c: bv16)
    requires c == a ^ b
    ensures Word(c) == Sum(Word(a), Word(b))
  {
    XorAddsAndMoves();
    Top16Adds(IsXor, a, b, c, 16);
  }

  // ---------------------------------------------------------------- long division

  /** One line of the division: below the leading bit, the dividend is the rest's dividend plus a multiple of the divisor. */
  lemma DivisionStep(x: seq<bool>, w: seq<bool>, w': seq<bool>, g: seq<bool>, i: nat)
    requires x != [] && i < |x| + 15 && |w| == 16 && OneStep(w, w', w[0] != x[0], g)
    ensures Dividend(x, w)[i + 1] == (Dividend(x[1..], w')[i] != (i < 16 && (w[0] != x[0]) && g[i]))
    ensures Dividend(x, w)[0] == (w[0] != x[0])
  {
  }

  lemma ProductAt(g: seq<bool>, q: seq<bool>, i: nat)
    requires |g| == 16 && q != [] && i < |q| + 15
    ensures Product(g, q)[0] == q[0]
    ensures Product(g, q)[i + 1] == (Product(g, q[1..])[i] != (i < 16 && q[0] && g[i]))
  {
    var head := Times(q[0], [true] + g);
    assert i < 16 ==> head[i + 1] == (q[0] && g[i]);
  }

  /** Dividend = quotient times divisor + remainder, and the remainder has degree below 16. */
  predicate Divides(x: seq<bool>, w: seq<bool>, g: seq<bool>, q: seq<bool>, r: seq<bool>) {
    |w| == |g| == |r| == 16 && |q| == |x| && Dividend(x, w) == Sum(Product(g, q), Repeat(false, |x|) + r)
  }

  /** The coefficient of one power in the remainder, with zeros above. */
  lemma PaddedAt(n: nat, r: seq<bool>, i: nat)
    requires i < n + |r|
    ensures ([false] + (Repeat(false, n) + r))[i + 1] == (Repeat(false, n) + r)[i]
    ensures [false] + (Repeat(false, n) + r) == Repeat(false, n + 1) + r
  {
  }

  lemma DividesAt(x: seq<bool>, w: seq<bool>, w': seq<bool>, g: seq<bool>, q: seq<bool>, r: seq<bool>, i: nat)
    requires x != [] && |q| == |x| && |w| == 16 && q[0] == (w[0] != x[0]) && i < |x| + 15
    requires OneStep(w, w', q[0], g) && Divides(x[1..], w', g, q[1..], r)
    ensures Dividend(x, w)[i + 1] == (Product(g, q)[i + 1] != (Repeat(false, |x|) + r)[i + 1])
    ensures Dividend(x, w)[0] == Product(g, q)[0]
  {
    DivisionStep(x, w, w', g, i);
    ProductAt(g, q, i);
    PaddedAt(|x| - 1, r, i);
    assert Dividend(x[1..], w')[i] == (Product(g, q[1..])[i] != (Repeat(false, |x| - 1) + r)[i]);
  }

  lemma DividesOn(x: seq<bool>, w: seq<bool>, w': seq<bool>, g: seq<bool>, q: seq<bool>, r: seq<bool>)
    requires x != [] && |q| == |x| && |w| == 16 && q[0] == (w[0] != x[0])
    requires OneStep(w, w', q[0], g) && Divides(x[1..], w', g, q[1..], r)
    ensures Divides(x, w, g, q, r)
  {
    var padded := Repeat(false, |x|) + r;
    forall j | 0 <= j < |x| + 16
      ensures Dividend(x, w)[j] == (Product(g, q)[j] != padded[j])
    {
      DividesAt(x, w, w', g, q, r, if j == 0 then 0 else j - 1);
    }
    SumIs(Dividend(x, w), Product(g, q), padded);
  }

  lemma SumIs(d: seq<bool>, p: seq<bool>, r: seq<bool>)
    requires |d| == |p| == |r| && forall j | 0 <= j < |d| :: d[j] == (p[j] != r[j])
    ensures d == Sum(p, r)
  {
  }

  lemma {:induction false} RemainderDivides(x: seq<bool>, v: bv16, g: bv16)
    requires g == 0x1021
    ensures Divides(x, Word(v), Word(g), Quotient(x, v), Word(Remainder(x, v)))
    decreases |x|
  {
    if x == [] {
      assert Dividend(x, Word(v)) == Word(v);
    } else {
      var q, w := Quotient(x, v), In(v, x[0]);
      RemainderDivides(x[1..], w, g);
      assert q[1..] == Quotient(x[1..], w) && Remainder(x[1..], w) == Remainder(x, v);
      WordIn(v, x[0], g);
      WordTop(v);
      DividesOn(x, Word(v), Word(w), Word(g), q, Word(Remainder(x, v)));
    }
  }

  /** A multiple of the divisor of degree below 16 is zero. */
  lemma {:induction false} ShortMultipleIsZero(g: seq<bool>, q: seq<bool>)
    requires |g| == 16 && forall i | 0 <= i < |q| :: !Product(g, q)[i]
    ensures Product(g, q) == Repeat(false, |q| + 16)
    decreases |q|
  {
    if q != [] {
      ProductAt(g, q, 0);
      forall i | 0 <= i < |q| + 15
        ensures Product(g, q)[i + 1] == Product(g, q[1..])[i]
      {
        ProductAt(g, q, i);
      }
      ShortMultipleIsZero(g, q[1..]);
      forall j | 0 <= j < |q| + 16
        ensures !Product(g, q)[j]
      {
        if j > 0 {
          assert Product(g, q)[(j - 1) + 1] == Product(g, q[1..])[j - 1];
        }
      }
    }
  }

  lemma {:induction false} ProductSum(g: seq<bool>, p: seq<bool>, q: seq<bool>)
    requires |g| == 16 && |p| == |q|
    ensures Product(g, Sum(p, q)) == Sum(Product(g, p), Product(g, q))
    decreases |p|
  {
    if p != [] {
      var s := Sum(p, q);
      assert s[1..] == Sum(p[1..], q[1..]);
      ProductSum(g, p[1..], q[1..]);
      forall j | 0 <= j < |p| + 16
        ensures Product(g, s)[j] == (Product(g, p)[j] != Product(g, q)[j])
      {
        var i := if j == 0 then 0 else j - 1;
        ProductAt(g, s, i);
        ProductAt(g, p, i);
        ProductAt(g, q, i);
      }
      SumIs(Product(g, s), Product(g, p), Product(g, q));
    }
  }

  /** The remainder is unique. */
  lemma RemainderIsUnique(x: seq<bool>, w: seq<bool>, g: seq<bool>, p: seq<bool>, r: seq<bool>, q: seq<bool>, t: seq<bool>)
    requires Divides(x, w, g, p, r) && Divides(x, w, g, q, t)
    ensures r == t
  {
    var n := |x|;
    var d := Dividend(x, w);
    ProductSum(g, p, q);
    forall i | 0 <= i < n + 16
      ensures Product(g, Sum(p, q))[i] == ((Repeat(false, n) + r)[i] != (Repeat(false, n) + t)[i])
    {
      assert d[i] == (Product(g, p)[i] != (Repeat(false, n) + r)[i]);
      assert d[i] == (Product(g, q)[i] != (Repeat(false, n) + t)[i]);
    }
    ShortMultipleIsZero(g, Sum(p, q));
    forall i | 0 <= i < 16
      ensures r[i] == t[i]
    {
      assert (Repeat(false, n) + r)[n + i] == r[i] && (Repeat(false, n) + t)[n + i] == t[i];
      assert !Product(g, Sum(p, q))[n + i];
    }
  }

  /**
    Polynomial division, for every buffer and start value: the bits times x^16, plus the start value on
    top, are a multiple of x^16 + x^12 + x^5 + 1 (0x1021 and the leading term) plus the computed CRC.
  */
  lemma CrcIsRemainderOfDivision(s: seq<bv8>, v: bv16)
    ensures Divides(BitsOf(s), Word(v), Word(0x1021), Quotient(BitsOf(s), v), Word(Crc(s, v)))
  {
    CrcIsRemainder(s, v);
    RemainderDivides(BitsOf(s), v, 0x1021);
  }
}
