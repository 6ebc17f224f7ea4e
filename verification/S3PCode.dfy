/**
  S3P framing of messages in a byte stream (support/support-libs/s3p-code.h, s3p-synchronous-interface.h,
  s3p-asynchronous-interface.h): BOM, stuffed data, EOM.  Two senders and two receivers.
*/
module S3PCode {
  datatype Option<T> = None | Some(value: T)

  type Byte = x: int | 0 <= x < 0x100
  type DualByte = x: int | 0 <= x < 0x10000

  const NEVER_USE: DualByte := 0xFEFE
  const BOM: DualByte := 0xFE02
  const EOM: DualByte := 0xFE03
  const STUFF: DualByte := 0xFE7E
  const NODATA: DualByte := 0xFEAA
  const COMMAND: DualByte := 0xFE00
  const MARK: Byte := 0xFE

  function Msb(c: DualByte): Byte {
    c / 0x100
  }

  function Lsb(c: DualByte): Byte {
    c % 0x100
  }

  predicate IsCommand(c: DualByte) {
    Msb(c) == MARK
  }

  /** A data byte as it travels. */
  function Stuffed(c: Byte): seq<Byte> {
    if c == MARK then [Msb(STUFF), Lsb(STUFF)] else [c]
  }

  function StuffedAll(m: seq<Byte>): seq<Byte> {
    if m == [] then [] else Stuffed(m[0]) + StuffedAll(m[1..])
  }

  /** A message as it travels. */
  function Frame(m: seq<Byte>): seq<Byte> {
    [Msb(BOM), Lsb(BOM)] + StuffedAll(m) + [Msb(EOM), Lsb(EOM)]
  }

  function Frames(ms: seq<seq<Byte>>): seq<Byte> {
    if ms == [] then [] else Frame(ms[0]) + Frames(ms[1..])
  }

  lemma {:induction false} StuffedAppend(m: seq<Byte>, c: Byte)
    ensures StuffedAll(m + [c]) == StuffedAll(m) + Stuffed(c)
    decreases |m|
  {
    if m == [] {
      assert m + [c] == [c];
      assert [c][1..] == [];
    } else {
      assert (m + [c])[1..] == m[1..] + [c];
      StuffedAppend(m[1..], c);
    }
  }

  lemma {:induction false} FramesAppend(ms: seq<seq<Byte>>, m: seq<Byte>)
    ensures Frames(ms + [m]) == Frames(ms) + Frame(m)
    decreases |ms|
  {
    if ms == [] {
      assert ms + [m] == [m];
      assert [m][1..] == [];
    } else {
      assert (ms + [m])[1..] == ms[1..] + [m];
      FramesAppend(ms[1..], m);
    }
  }

  /** What a receiver reports: a finished message, or a command for the application. */
  datatype Event = Message(msg: seq<Byte>) | Command(code: DualByte)

  /** One more data byte, if a message is open and has room. */
  function Add(cur: Option<seq<Byte>>, c: Byte, maxLen: int): Option<seq<Byte>> {
    if cur.Some? && |cur.value| < maxLen then Some(cur.value + [c]) else cur
  }

  /** The first bytes of m, as many as there is room for. */
  function Clip(m: seq<Byte>, maxLen: int): seq<Byte> {
    if |m| <= maxLen then m else if maxLen <= 0 then [] else m[..maxLen]
  }
}
