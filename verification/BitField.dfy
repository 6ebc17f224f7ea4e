/**
  Bits and bit fields in a byte stream (src/independent/stream-bytesex.cpp:234-305), numbered as in
  section 1.6 of CCSDS 133.0-B: bit 0 is the most significant bit of the first byte.

  Bytes and 32-bit words are their bits, the most significant first.
*/
module BitField {

  type Byte = b: seq<bool> | |b| == 8 witness Zeros(8)
  type Word = w: seq<bool> | |w| == 32 witness Zeros(32)

  function Zeros(n: nat): seq<bool> {
    seq(n, _ => false)
  }

  function Trues(n: nat): seq<bool> {
    seq(n, _ => true)
  }

  // ---------------------------------------------------------------- the operators of the code

  function And(a: Word, b: Word): Word {
    seq(32, i requires 0 <= i < 32 => a[i] && b[i])
  }

  function Or(a: Word, b: Word): Word {
    seq(32, i requires 0 <= i < 32 => a[i] || b[i])
  }

  function Not(a: Word): Word {
    seq(32, i requires 0 <= i < 32 => !a[i])
  }

  function Shl(w: Word, s: nat): Word
    requires s <= 32
  {
    w[s..] + Zeros(s)
  }

  function Shr(w: Word, s: nat): Word
    requires s <= 32
  {
    Zeros(s) + w[..32 - s]
  }

  /** uint32_tOnes(): (1 << n) - 1, the n lowest bits. */
  function Ones(n: nat): Word
    requires n <= 32
  {
    Zeros(32 - n) + Trues(n)
  }

  function Widen(b: Byte): Word {
    Zeros(24) + b
  }

  /** A word & 0xff, as a byte. */
  function Narrow(w: Word): Byte {
    w[24..]
  }

  // ---------------------------------------------------------------- streams of bits

  /** The bits of a buffer in CCSDS order. */
  function Stream(bytes: seq<Byte>): (s: seq<bool>)
    ensures |s| == 8 * |bytes|
  {
    seq(8 * |bytes|, i requires 0 <= i < 8 * |bytes| => bytes[i / 8][i % 8])
  }

  /** The stream with these bits written at a position. */
  function Written(s: seq<bool>, pos: nat, bits: seq<bool>): (r: seq<bool>)
    requires pos + |bits| <= |s|
    ensures |r| == |s|
  {
    s[..pos] + bits + s[pos + |bits|..]
  }

  /** The lowest n bits. */
  function Field(val: Word, n: nat): seq<bool>
    requires n <= 32
  {
    val[32 - n..]
  }

  // ---------------------------------------------------------------- single bits

  lemma SetOrClear(b: Byte, p: nat)
    requires p < 8
    ensures Narrow(Or(Widen(b), Shl(Ones(1), 7 - p))) == b[p := true]
    ensures Narrow(And(Widen(b), Not(Shl(Ones(1), 7 - p)))) == b[p := false]
  {
    assert Shl(Ones(1), 7 - p) == Zeros(24 + p) + [true] + Zeros(7 - p);
  }

  lemma StreamUpdate(bytes: seq<Byte>, k: nat, p: nat, v: bool)
    requires k < |bytes| && p < 8
    ensures Stream(bytes[k := bytes[k][p := v]]) == Stream(bytes)[8 * k + p := v]
  {
    var after := bytes[k := bytes[k][p := v]];
    forall i | 0 <= i < 8 * |bytes|
      ensures Stream(after)[i] == Stream(bytes)[8 * k + p := v][i]
    {
      assert i == 8 * (i / 8) + i % 8;
    }
  }

  method SetBitInByteStream(bytes: array<Byte>, bitIndex: nat, value: bool)
    requires bitIndex < 8 * bytes.Length
    modifies bytes
    ensures Stream(bytes[..]) == Stream(old(bytes[..]))[bitIndex := value]
  {
    var byteIndex := bitIndex / 8;
    var bitPos := bitIndex % 8;
    var bit := Shl(Ones(1), 7 - bitPos);
    SetOrClear(bytes[byteIndex], bitPos);
    StreamUpdate(bytes[..], byteIndex, bitPos, value);
    ghost var after := bytes[..][byteIndex := bytes[byteIndex][bitPos := value]];
    if value {
      bytes[byteIndex] := Narrow(Or(Widen(bytes[byteIndex]), bit));
    } else {
      bytes[byteIndex] := Narrow(And(Widen(bytes[byteIndex]), Not(bit)));
    }
    assert bytes[..] == after;
  }

  function GetBitFromByteStream(bytes: seq<Byte>, bitIndex: nat): Word
    requires bitIndex < 8 * |bytes|
  {
    And(Shr(Widen(bytes[bitIndex / 8]), 7 - bitIndex % 8), Ones(1))
  }

  lemma GetBitReads(bytes: seq<Byte>, bitIndex: nat)
    requires bitIndex < 8 * |bytes|
    ensures GetBitFromByteStream(bytes, bitIndex) == Zeros(31) + [Stream(bytes)[bitIndex]]
  {
  }

  // ---------------------------------------------------------------- fields

  /** The bytes a field touches, as one 24-bit string; bytes that are not needed count as zeros. */
  function Touched(bytes: seq<Byte>, k: nat, width: nat): (s: seq<bool>)
    requires k < |bytes| && (width > 8 ==> k + 1 < |bytes|) && (width > 16 ==> k + 2 < |bytes|)
    ensures |s| == 24
  {
    bytes[k] + (if width > 8 then bytes[k + 1] else Zeros(8)) + (if width > 16 then bytes[k + 2] else Zeros(8))
  }

  /** "get the word as big-endian": the reading part of both functions. */
  method GetWord(bytes: seq<Byte>, byteIndex: nat, width: nat) returns (word: Word)
    requires byteIndex < |bytes| && (width > 8 ==> byteIndex + 1 < |bytes|) && (width > 16 ==> byteIndex + 2 < |bytes|)
    ensures word == Zeros(8) + Touched(bytes, byteIndex, width)
  {
    word := Shl(Widen(bytes[byteIndex]), 16);
    if width > 8 {
      word := Or(word, Shl(Widen(bytes[byteIndex + 1]), 8));
    }
    if width > 16 {
      word := Or(word, Widen(bytes[byteIndex + 2]));
    }
  }

  lemma MaskIs(off: nat, n: nat)
    requires off + n <= 24
    ensures Shl(Ones(n), 24 - off - n) == Zeros(8 + off) + Trues(n) + Zeros(24 - off - n)
  {
  }

  /** "Clear bit field", "set the corresponding bits". */
  function Merged(word: Word, mask: Word, val: Word): Word {
    Or(And(word, Not(mask)), And(mask, val))
  }

  lemma MergedIsWritten(s: seq<bool>, val: Word, off: nat, n: nat)
    requires |s| == 24 && off + n <= 24
    ensures Merged(Zeros(8) + s, Shl(Ones(n), 24 - (off + n)), Shl(val, 24 - (off + n))) ==
            Zeros(8) + Written(s, off, Field(val, n))
  {
    MaskIs(off, n);
  }

  /** Does the field lie in the buffer, with the byte that is read even for an empty one? */
  predicate InBuffer(length: nat, bitPos: nat, n: nat) {
    bitPos / 8 < length && bitPos + n <= 8 * length
  }

  /** The first bytes of a 24-bit string, as many as the width needs, put back at k. */
  function PutBack(bytes: seq<Byte>, k: nat, width: nat, s: seq<bool>): seq<Byte>
    requires |s| == 24
    requires k < |bytes| && (width > 8 ==> k + 1 < |bytes|) && (width > 16 ==> k + 2 < |bytes|)
  {
    var one := bytes[k := s[..8]];
    var two := if width > 8 then one[k + 1 := s[8..16]] else one;
    if width > 16 then two[k + 2 := s[16..]] else two
  }

  lemma WrittenAt(s: seq<bool>, pos: nat, bits: seq<bool>, i: nat)
    requires pos + |bits| <= |s| && i < |s|
    ensures Written(s, pos, bits)[i] == if pos <= i < pos + |bits| then bits[i - pos] else s[i]
  {
  }

  /** Within the width, the 24-bit string is the stream. */
  lemma TouchedAt(bytes: seq<Byte>, k: nat, width: nat, j: nat)
    requires k < |bytes| && (width > 8 ==> k + 1 < |bytes|) && (width > 16 ==> k + 2 < |bytes|)
    requires j < 8 || (8 <= j < 16 && width > 8) || (16 <= j < 24 && width > 16)
    ensures j + 8 * k < 8 * |bytes| && Touched(bytes, k, width)[j] == Stream(bytes)[8 * k + j]
  {
    assert (8 * k + j) / 8 == k + j / 8 && (8 * k + j) % 8 == j % 8;
  }

  lemma PutBackAt(bytes: seq<Byte>, k: nat, width: nat, s: seq<bool>, i: nat)
    requires |s| == 24 && i < 8 * |bytes|
    requires k < |bytes| && (width > 8 ==> k + 1 < |bytes|) && (width > 16 ==> k + 2 < |bytes|)
    ensures var j := i - 8 * k;
            Stream(PutBack(bytes, k, width, s))[i] ==
            if 0 <= j < 8 || (8 <= j < 16 && width > 8) || (16 <= j < 24 && width > 16) then s[j] else Stream(bytes)[i]
  {
    var j := i - 8 * k;
    if 0 <= j < 24 {
      assert i / 8 == k + j / 8 && i % 8 == j % 8;
    }
  }

  /** Within the bytes touched, writing before reading them and writing after is the same. */
  lemma WrittenTouched(bytes: seq<Byte>, k: nat, off: nat, bits: seq<bool>, j: nat)
    requires off + |bits| <= 24 && InBuffer(|bytes|, 8 * k + off, |bits|) && off < 8 && 8 * k + j < 8 * |bytes|
    requires var width := off + |bits|; j < 8 || (8 <= j < 16 && width > 8) || (16 <= j < 24 && width > 16)
    ensures Written(Touched(bytes, k, off + |bits|), off, bits)[j] == Written(Stream(bytes), 8 * k + off, bits)[8 * k + j]
  {
    WrittenAt(Stream(bytes), 8 * k + off, bits, 8 * k + j);
    WrittenAt(Touched(bytes, k, off + |bits|), off, bits, j);
    TouchedAt(bytes, k, off + |bits|, j);
  }

  lemma WriteBackAt(bytes: seq<Byte>, k: nat, off: nat, bits: seq<bool>, i: nat)
    requires off + |bits| <= 24 && InBuffer(|bytes|, 8 * k + off, |bits|) && off < 8 && i < 8 * |bytes|
    ensures var width := off + |bits|;
            Stream(PutBack(bytes, k, width, Written(Touched(bytes, k, width), off, bits)))[i] ==
            Written(Stream(bytes), 8 * k + off, bits)[i]
  {
    var width := off + |bits|;
    var j := i - 8 * k;
    PutBackAt(bytes, k, width, Written(Touched(bytes, k, width), off, bits), i);
    if 0 <= j < 8 || (8 <= j < 16 && width > 8) || (16 <= j < 24 && width > 16) {
      WrittenTouched(bytes, k, off, bits, j);
    } else {
      WrittenAt(Stream(bytes), 8 * k + off, bits, i);
    }
  }

  lemma WriteBack(bytes: seq<Byte>, k: nat, off: nat, bits: seq<bool>)
    requires off + |bits| <= 24 && InBuffer(|bytes|, 8 * k + off, |bits|) && off < 8
    ensures var width := off + |bits|;
            Stream(PutBack(bytes, k, width, Written(Touched(bytes, k, width), off, bits))) ==
            Written(Stream(bytes), 8 * k + off, bits)
  {
    var width := off + |bits|;
    var after := PutBack(bytes, k, width, Written(Touched(bytes, k, width), off, bits));
    var wanted := Written(Stream(bytes), 8 * k + off, bits);
    forall i | 0 <= i < 8 * |bytes|
      ensures Stream(after)[i] == wanted[i]
    {
      WriteBackAt(bytes, k, off, bits, i);
    }
  }

  /** The stores at the end of setBitField(). */
  lemma StoredBytes(word: Word, s: seq<bool>)
    requires |s| == 24 && word == Zeros(8) + s
    ensures Narrow(Shr(word, 16)) == s[..8] && Narrow(Shr(word, 8)) == s[8..16] && Narrow(word) == s[16..]
  {
  }

  /** "store the word as big-endian": the last lines of setBitField(). */
  method PutWord(buf: array<Byte>, byteIndex: nat, width: nat, word: Word, ghost s: seq<bool>)
    requires |s| == 24 && word == Zeros(8) + s
    requires byteIndex < buf.Length && (width > 8 ==> byteIndex + 1 < buf.Length) && (width > 16 ==> byteIndex + 2 < buf.Length)
    modifies buf
    ensures buf[..] == PutBack(old(buf[..]), byteIndex, width, s)
  {
    StoredBytes(word, s);
    buf[byteIndex] := Narrow(Shr(word, 16));
    if width > 8 {
      buf[byteIndex + 1] := Narrow(Shr(word, 8));
    }
    if width > 16 {
      buf[byteIndex + 2] := Narrow(word);
    }
  }

  /** The word with the field replaced, as setBitField() computes it before storing. */
  method NewWord(buf: array<Byte>, byteIndex: nat, off: nat, numOfBits: nat, val: Word) returns (word: Word)
    requires off < 8 && off + numOfBits <= 24 && InBuffer(buf.Length, 8 * byteIndex + off, numOfBits)
    ensures word == Zeros(8) + Written(Touched(buf[..], byteIndex, off + numOfBits), off, Field(val, numOfBits))
  {
    var shifts := 24 - (off + numOfBits);
    var mask := Shl(Ones(numOfBits), shifts);
    var shifted := Shl(val, shifts);
    word := GetWord(buf[..], byteIndex, off + numOfBits);
    MergedIsWritten(Touched(buf[..], byteIndex, off + numOfBits), val, off, numOfBits);
    word := Merged(word, mask, shifted);
  }

  /**
    Writes the numOfBits lowest bits of val at bitPos, most significant first, and nothing else.
    The code works for every field within three bytes; that covers all positions for up to 17 bits.
  */
  method SetBitField(buf: array<Byte>, bitPos: nat, numOfBits: nat, val: Word)
    requires bitPos % 8 + numOfBits <= 24 && InBuffer(buf.Length, bitPos, numOfBits)
    modifies buf
    ensures Stream(buf[..]) == Written(Stream(old(buf[..])), bitPos, Field(val, numOfBits))
  {
    var byteIndex := bitPos / 8;
    var off := bitPos % 8;
    var word := NewWord(buf, byteIndex, off, numOfBits, val);
    WriteBack(buf[..], byteIndex, off, Field(val, numOfBits));
    PutWord(buf, byteIndex, off + numOfBits, word,
            Written(Touched(buf[..], byteIndex, off + numOfBits), off, Field(val, numOfBits)));
  }

  lemma Extract(s: seq<bool>, off: nat, n: nat)
    requires |s| == 24 && off + n <= 24
    ensures And(Shr(Zeros(8) + s, 24 - (off + n)), Ones(n)) == Zeros(32 - n) + s[off..off + n]
  {
  }

  lemma TouchedSlice(bytes: seq<Byte>, k: nat, off: nat, n: nat)
    requires off < 8 && off + n <= 24 && InBuffer(|bytes|, 8 * k + off, n)
    ensures Touched(bytes, k, off + n)[off..off + n] == Stream(bytes)[8 * k + off..8 * k + off + n]
  {
    var read := Touched(bytes, k, off + n)[off..off + n];
    var there := Stream(bytes)[8 * k + off..8 * k + off + n];
    forall i | 0 <= i < n
      ensures read[i] == there[i]
    {
      TouchedAt(bytes, k, off + n, off + i);
    }
  }

  method GetBitField(buf: array<Byte>, bitPos: nat, numOfBits: nat) returns (r: Word)
    requires bitPos % 8 + numOfBits <= 24 && InBuffer(buf.Length, bitPos, numOfBits)
    ensures r == Zeros(32 - numOfBits) + Stream(buf[..])[bitPos..bitPos + numOfBits]
  {
    var byteIndex := bitPos / 8;
    var off := bitPos % 8;
    var shifts := 24 - (off + numOfBits);
    var mask := Ones(numOfBits);
    var word := GetWord(buf[..], byteIndex, off + numOfBits);
    r := And(Shr(word, shifts), mask);
    Extract(Touched(buf[..], byteIndex, off + numOfBits), off, numOfBits);
    TouchedSlice(buf[..], byteIndex, off, numOfBits);
  }

  // ---------------------------------------------------------------- what fields promise

  /** One more bit of a string written from the front. */
  lemma WrittenNext(s: seq<bool>, pos: nat, bits: seq<bool>, k: nat)
    requires pos + |bits| <= |s| && k < |bits|
    ensures Written(s, pos, bits[..k])[pos + k := bits[k]] == Written(s, pos, bits[..k + 1])
  {
  }

  /** The same field written bit by bit, in calls of setBitInByteStream(): the buffer ends up as setBitField() leaves it. */
  method SetBitByBit(buf: array<Byte>, bitPos: nat, numOfBits: nat, val: Word)
    requires numOfBits <= 32 && bitPos + numOfBits <= 8 * buf.Length
    modifies buf
    ensures Stream(buf[..]) == Written(Stream(old(buf[..])), bitPos, Field(val, numOfBits))
  {
    ghost var was, bits := Stream(buf[..]), Field(val, numOfBits);
    assert Written(was, bitPos, bits[..0]) == was;
    for k := 0 to numOfBits
      invariant Stream(buf[..]) == Written(was, bitPos, bits[..k])
    {
      WrittenNext(was, bitPos, bits, k);
      SetBitInByteStream(buf, bitPos + k, val[32 - numOfBits + k]);
    }
    assert bits[..numOfBits] == bits;
  }

  /** setBitField() and then getBitField() at the same place. */
  method SetThenGet(buf: array<Byte>, bitPos: nat, numOfBits: nat, val: Word) returns (r: Word)
    requires bitPos % 8 + numOfBits <= 24 && InBuffer(buf.Length, bitPos, numOfBits)
    modifies buf
    ensures r == Zeros(32 - numOfBits) + Field(val, numOfBits)
    ensures Number(r) == Number(val) % Pow2(numOfBits)
  {
    ghost var was := Stream(buf[..]);
    SetBitField(buf, bitPos, numOfBits, val);
    r := GetBitField(buf, bitPos, numOfBits);
    GetAfterSet(was, bitPos, numOfBits, val);
    RemainderOf(Number(val), Number(val[..32 - numOfBits]), Pow2(numOfBits), Number(r));
  }

  lemma Apart(k: int, q: int, p: int)
    requires k < q && p > 0
    ensures k * p + p <= q * p
    decreases q - k
  {
    assert q * p == (q - 1) * p + p;
    if k + 1 < q {
      Apart(k, q - 1, p);
    }
  }

  lemma Division(a: nat, p: nat)
    requires p > 0
    ensures a == a / p * p + a % p
  {
  }

  lemma RemainderOf(a: nat, q: nat, p: nat, r: nat)
    requires p > 0 && a == q * p + r && r < p
    ensures a % p == r
  {
    Division(a, p);
    if q < a / p {
      Apart(q, a / p, p);
    } else if a / p < q {
      Apart(a / p, q, p);
    }
  }

  /** The number a string of bits stands for. */
  function Number(bits: seq<bool>): nat
    decreases |bits|
  {
    if bits == [] then 0 else 2 * Number(bits[..|bits| - 1]) + if bits[|bits| - 1] then 1 else 0
  }

  function Pow2(n: nat): (p: nat)
    ensures p > 0
  {
    if n == 0 then 1 else 2 * Pow2(n - 1)
  }

  lemma {:induction false} NumberConcat(a: seq<bool>, b: seq<bool>)
    ensures Number(a + b) == Number(a) * Pow2(|b|) + Number(b) && Number(b) < Pow2(|b|)
    decreases |b|
  {
    if b == [] {
      assert a + b == a;
    } else {
      var n := |b| - 1;
      assert (a + b)[..|a + b| - 1] == a + b[..n];
      NumberConcat(a, b[..n]);
      Doubled(Number(a), Pow2(n));
      assert Number(a + b) == 2 * Number(a + b[..n]) + if b[n] then 1 else 0;
    }
  }

  lemma Doubled(x: nat, p: nat)
    ensures 2 * (x * p) == x * (2 * p)
  {
  }

  lemma {:induction false} ZerosAreZero(n: nat)
    ensures Number(Zeros(n)) == 0
    decreases n
  {
    if n > 0 {
      assert Zeros(n)[..n - 1] == Zeros(n - 1);
      ZerosAreZero(n - 1);
    }
  }

  lemma {:induction false} OnesAre(n: nat)
    requires n <= 32
    ensures Number(Ones(n)) == Pow2(n) - 1
    decreases n
  {
    ZerosAreZero(32 - n);
    NumberConcat(Zeros(32 - n), Trues(n));
    assert 0 * Pow2(n) == 0;
    TruesAre(n);
  }

  lemma {:induction false} TruesAre(n: nat)
    ensures Number(Trues(n)) == Pow2(n) - 1
    decreases n
  {
    if n > 0 {
      assert Trues(n)[..n - 1] == Trues(n - 1);
      TruesAre(n - 1);
    }
  }

  /** What getBitField() returns for a field just written: the value truncated to the width, its remainder modulo 2^n. */
  lemma GetAfterSet(s: seq<bool>, pos: nat, n: nat, val: Word)
    requires n <= 32 && pos + n <= |s|
    ensures var read := Zeros(32 - n) + Written(s, pos, Field(val, n))[pos..pos + n];
            && read == Zeros(32 - n) + Field(val, n)
            && Number(val) == Number(val[..32 - n]) * Pow2(n) + Number(read)
            && Number(read) < Pow2(n)
  {
    var low := Field(val, n);
    assert Written(s, pos, low)[pos..pos + n] == low;
    NumberConcat(Zeros(32 - n), low);
    ZerosAreZero(32 - n);
    assert val == val[..32 - n] + low;
    NumberConcat(val[..32 - n], low);
  }

  /** Any field that does not overlap reads the same before and after. */
  lemma OtherFieldsKeep(s: seq<bool>, pos: nat, bits: seq<bool>, other: nat, n: nat)
    requires pos + |bits| <= |s| && other + n <= |s| && (other + n <= pos || pos + |bits| <= other)
    ensures Written(s, pos, bits)[other..other + n] == s[other..other + n]
  {
  }
}
