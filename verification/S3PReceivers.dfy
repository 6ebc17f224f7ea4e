/**
  The S3P receivers: getMsg() pulls bytes (support/support-libs/s3p-synchronous-interface.h:73-88),
  putByte() is pushed bytes (support/support-libs/s3p-asynchronous-interface.h:124-140).
*/
module S3PReceivers {
  import opened S3PCode

  /** What one getMsg() does with an input: a message and the unread rest, or it waits for ever. */
  datatype Outcome = Got(commands: seq<DualByte>, msg: seq<Byte>, rest: seq<Byte>)
                   | Waits(commands: seq<DualByte>)

  function After(c: DualByte, o: Outcome): Outcome {
    o.(commands := [c] + o.commands)
  }

  /** getMsg() in the middle of its loop: `cur` is the message so far, None while len is -1. */
  function Get(s: seq<Byte>, cur: Option<seq<Byte>>, maxLen: int): (o: Outcome)
    ensures o.Got? ==> |o.rest| < |s|
    decreases |s|
  {
    if s == [] then Waits([])
    else if s[0] != MARK then Get(s[1..], Add(cur, s[0], maxLen), maxLen)
    else if |s| == 1 then Waits([])
    else
      var code := COMMAND + s[1];
      if code == BOM then Get(s[2..], Some([]), maxLen)
      else if code == EOM then (if cur.Some? then Got([], cur.value, s[2..]) else Get(s[2..], cur, maxLen))
      else if code == STUFF then Get(s[2..], Add(cur, MARK, maxLen), maxLen)
      else After(code, Get(s[2..], cur, maxLen))
  }

  lemma GetData(c: Byte, t: seq<Byte>, cur: Option<seq<Byte>>, maxLen: int)
    requires c != MARK
    ensures Get([c] + t, cur, maxLen) == Get(t, Add(cur, c, maxLen), maxLen)
  {
    assert ([c] + t)[1..] == t;
  }

  lemma GetCommand(low: Byte, t: seq<Byte>, cur: Option<seq<Byte>>, maxLen: int)
    ensures var code := COMMAND + low;
            Get([MARK, low] + t, cur, maxLen) ==
            if code == BOM then Get(t, Some([]), maxLen)
            else if code == EOM then (if cur.Some? then Got([], cur.value, t) else Get(t, cur, maxLen))
            else if code == STUFF then Get(t, Add(cur, MARK, maxLen), maxLen)
            else After(code, Get(t, cur, maxLen))
  {
    assert ([MARK, low] + t)[2..] == t;
  }

  class ReceiverSynchronous {
    var input: seq<Byte>
    var commands: seq<DualByte>

    constructor (s: seq<Byte>)
      ensures input == s && commands == []
    {
      input, commands := s, [];
    }

    method GetByte() returns (c: Byte)
      requires input != []
      modifies this`input
      ensures old(input) == [c] + input
    {
      c := input[0];
      input := input[1..];
    }

    /** Returns -1 where the original would wait for a byte that never comes. */
    method GetMsg(maxLen: int, msg: array<Byte>) returns (n: int)
      requires maxLen <= msg.Length
      modifies this, msg
      ensures var o := Get(old(input), None, maxLen);
              && commands == old(commands) + o.commands
              && (o.Waits? ==> n == -1 && input == [])
              && (o.Got? ==> n == |o.msg| <= msg.Length && msg[..n] == o.msg && input == o.rest)
    {
      var len := -1;
      ghost var cur: Option<seq<Byte>> := None;
      ghost var goal := Get(input, None, maxLen);
      while input != []
        invariant -1 <= len <= msg.Length
        invariant cur.Some? <==> len >= 0
        invariant cur.Some? ==> cur.value == msg[..len]
        invariant Joined(commands, Get(input, cur, maxLen)) == Joined(old(commands), goal)
        decreases |input|
      {
        ghost var here := input;
        var c := GetByte();
        if c != MARK {
          GetData(c, input, cur, maxLen);
        }
        if c != MARK && 0 <= len < maxLen {
          msg[len] := c;
          len := len + 1;
          cur := Add(cur, c, maxLen);
          continue;
        }
        if c == MARK {
          if input == [] {
            return -1;
          }
          var low := GetByte();
          assert here == [MARK, low] + input;
          GetCommand(low, input, cur, maxLen);
          var dualByte := COMMAND + low;
          if dualByte == BOM {
            len, cur := 0, Some([]);
          } else if dualByte == EOM {
            if len >= 0 {
              return len;
            }
          } else if dualByte == STUFF {
            if 0 <= len < maxLen {
              msg[len] := MARK;
              len := len + 1;
              cur := Add(cur, MARK, maxLen);
            }
          } else {
            JoinAfter(commands, dualByte, Get(input, cur, maxLen));
            commands := commands + [dualByte];
          }
        }
      }
      return -1;
    }
  }

  ghost function Joined(before: seq<DualByte>, o: Outcome): Outcome {
    o.(commands := before + o.commands)
  }

  lemma JoinAfter(before: seq<DualByte>, c: DualByte, o: Outcome)
    ensures Joined(before, After(c, o)) == Joined(before + [c], o)
  {
    assert before + ([c] + o.commands) == before + [c] + o.commands;
  }

  /** What a sender may put on the line outside sendMsg(): a data byte, or a word through putCommand(). */
  datatype Token = Data(c: Byte) | Word(w: DualByte)

  predicate Proper(ts: seq<Token>) {
    forall i | 0 <= i < |ts| :: ts[i].Word? ==> Lsb(ts[i].w) != MARK
  }

  function Encode(t: Token): seq<Byte> {
    match t
    case Data(c) => Stuffed(c)
    case Word(w) => if w == NODATA then [] else [Msb(w), Lsb(w)]
  }

  function EncodeAll(ts: seq<Token>): seq<Byte> {
    if ts == [] then [] else Encode(ts[0]) + EncodeAll(ts[1..])
  }

  /** No EOM ever closes a message; `isOpen` says whether one is open already. */
  predicate NoFrameEnds(ts: seq<Token>, isOpen: bool) {
    ts == [] ||
    if ts[0] == Word(BOM) then NoFrameEnds(ts[1..], true)
    else if ts[0] == Word(EOM) then !isOpen && NoFrameEnds(ts[1..], isOpen)
    else NoFrameEnds(ts[1..], isOpen)
  }

  /** The commands in it that are for the application. */
  function Asked(ts: seq<Token>): seq<DualByte> {
    if ts == [] then []
    else if ts[0].Word? && IsCommand(ts[0].w) && ts[0].w !in [BOM, EOM, STUFF, NODATA] then [ts[0].w] + Asked(ts[1..])
    else Asked(ts[1..])
  }

  lemma AskedOne(w: DualByte)
    ensures Asked([Word(w)]) == if IsCommand(w) && w !in [BOM, EOM, STUFF, NODATA] then [w] else []
  {
    assert [Word(w)][1..] == [];
  }

  lemma GetCommandWord(w: DualByte, t: seq<Byte>, cur: Option<seq<Byte>>, maxLen: int) returns (next: Option<seq<Byte>>)
    requires Lsb(w) != MARK && (w == EOM ==> cur.None?) && w != NODATA && Msb(w) == MARK
    ensures next.Some? == if w == BOM then true else cur.Some?
    ensures Get(Encode(Word(w)) + t, cur, maxLen) == Joined(Asked([Word(w)]), Get(t, next, maxLen))
  {
    AskedOne(w);
    GetCommand(Lsb(w), t, cur, maxLen);
    next := if w == BOM then Some([]) else if w == STUFF then Add(cur, MARK, maxLen) else cur;
  }

  lemma GetDataWord(w: DualByte, t: seq<Byte>, cur: Option<seq<Byte>>, maxLen: int) returns (next: Option<seq<Byte>>)
    requires Lsb(w) != MARK && w != NODATA && Msb(w) != MARK
    ensures next.Some? == cur.Some?
    ensures Get(Encode(Word(w)) + t, cur, maxLen) == Joined(Asked([Word(w)]), Get(t, next, maxLen))
  {
    AskedOne(w);
    assert Encode(Word(w)) + t == [Msb(w)] + ([Lsb(w)] + t);
    GetData(Msb(w), [Lsb(w)] + t, cur, maxLen);
    next := Add(cur, Msb(w), maxLen);
    GetData(Lsb(w), t, next, maxLen);
    next := Add(next, Lsb(w), maxLen);
  }

  lemma GetWord(w: DualByte, t: seq<Byte>, cur: Option<seq<Byte>>, maxLen: int) returns (next: Option<seq<Byte>>)
    requires Lsb(w) != MARK && (w == EOM ==> cur.None?)
    ensures next.Some? == if w == BOM then true else cur.Some?
    ensures Get(Encode(Word(w)) + t, cur, maxLen) == Joined(Asked([Word(w)]), Get(t, next, maxLen))
  {
    if w == NODATA {
      AskedOne(w);
      assert Encode(Word(w)) + t == t;
      next := cur;
    } else if Msb(w) == MARK {
      next := GetCommandWord(w, t, cur, maxLen);
    } else {
      next := GetDataWord(w, t, cur, maxLen);
    }
  }

  lemma GetStuffed(c: Byte, t: seq<Byte>, cur: Option<seq<Byte>>, maxLen: int)
    ensures Get(Stuffed(c) + t, cur, maxLen) == Get(t, Add(cur, c, maxLen), maxLen)
  {
    if c == MARK {
      GetCommand(Lsb(STUFF), t, cur, maxLen);
    } else {
      GetData(c, t, cur, maxLen);
    }
  }

  lemma {:induction false} SkipTokens(ts: seq<Token>, rest: seq<Byte>, cur: Option<seq<Byte>>, maxLen: int)
    returns (next: Option<seq<Byte>>)
    requires Proper(ts) && NoFrameEnds(ts, cur.Some?)
    ensures Get(EncodeAll(ts) + rest, cur, maxLen) == Joined(Asked(ts), Get(rest, next, maxLen))
    decreases |ts|
  {
    next := cur;
    if ts == [] {
      assert EncodeAll(ts) + rest == rest;
    } else {
      var t := EncodeAll(ts[1..]) + rest;
      assert EncodeAll(ts) + rest == Encode(ts[0]) + t;
      if ts[0].Data? {
        GetStuffed(ts[0].c, t, cur, maxLen);
        next := SkipTokens(ts[1..], rest, Add(cur, ts[0].c, maxLen), maxLen);
      } else {
        next := GetWord(ts[0].w, t, cur, maxLen);
        next := SkipTokens(ts[1..], rest, next, maxLen);
        AskedFirst(ts);
        JoinBoth(Asked(ts[..1]), Asked(ts[1..]), Get(rest, next, maxLen));
        assert ts[..1] == [Word(ts[0].w)];
      }
    }
  }

  lemma AskedFirst(ts: seq<Token>)
    requires ts != []
    ensures Asked(ts) == Asked(ts[..1]) + Asked(ts[1..])
  {
    assert ts[..1] == [ts[0]];
    assert Asked([ts[0]][1..]) == [];
  }

  lemma JoinBoth(a: seq<DualByte>, b: seq<DualByte>, o: Outcome)
    ensures Joined(a, Joined(b, o)) == Joined(a + b, o)
  {
    assert a + (b + o.commands) == a + b + o.commands;
  }

  lemma ClipFull(sofar: seq<Byte>, m: seq<Byte>, maxLen: int)
    requires |sofar| >= maxLen && (|sofar| <= maxLen || sofar == [])
    ensures Clip(sofar + m, maxLen) == sofar
  {
  }

  /** The rest of a frame, behind its BOM and the bytes already taken. */
  function Body(m: seq<Byte>, rest: seq<Byte>): seq<Byte> {
    StuffedAll(m) + ([Msb(EOM), Lsb(EOM)] + rest)
  }

  lemma BodyStarts(m: seq<Byte>, rest: seq<Byte>)
    ensures m == [] ==> Body(m, rest) == [MARK, Lsb(EOM)] + rest
    ensures m != [] ==> Body(m, rest) == Stuffed(m[0]) + Body(m[1..], rest)
  {
    var end := [Msb(EOM), Lsb(EOM)] + rest;
    if m != [] {
      assert (Stuffed(m[0]) + StuffedAll(m[1..])) + end == Stuffed(m[0]) + (StuffedAll(m[1..]) + end);
    } else {
      assert [] + end == end;
    }
  }

  lemma SofarNext(sofar: seq<Byte>, m: seq<Byte>)
    requires m != []
    ensures sofar + [m[0]] + m[1..] == sofar + m
  {
  }

  lemma {:induction false} GetBody(m: seq<Byte>, rest: seq<Byte>, sofar: seq<Byte>, maxLen: int)
    requires |sofar| <= maxLen || sofar == []
    ensures Get(Body(m, rest), Some(sofar), maxLen) == Got([], Clip(sofar + m, maxLen), rest)
    decreases |m|
  {
    BodyStarts(m, rest);
    if m == [] {
      GetCommand(Lsb(EOM), rest, Some(sofar), maxLen);
      assert sofar + m == sofar;
    } else {
      GetStuffed(m[0], Body(m[1..], rest), Some(sofar), maxLen);
      if |sofar| < maxLen {
        GetBody(m[1..], rest, sofar + [m[0]], maxLen);
        SofarNext(sofar, m);
      } else {
        GetBody(m[1..], rest, sofar, maxLen);
        ClipFull(sofar, m[1..], maxLen);
        ClipFull(sofar, m, maxLen);
      }
    }
  }

  /** A frame starts afresh, whatever was open before it. */
  lemma GetFrame(m: seq<Byte>, rest: seq<Byte>, cur: Option<seq<Byte>>, maxLen: int)
    ensures Get(Frame(m) + rest, cur, maxLen) == Got([], Clip(m, maxLen), rest)
  {
    assert Frame(m) + rest == [MARK, Lsb(BOM)] + Body(m, rest);
    GetCommand(Lsb(BOM), Body(m, rest), cur, maxLen);
    GetBody(m, rest, [], maxLen);
    assert [] + m == m;
  }

  /**
    After any words and data bytes that complete no frame, getMsg() returns the message of the next
    frame, cut to the room there is, and reads exactly to the end of that frame.
  */
  lemma RoundTrip(ts: seq<Token>, m: seq<Byte>, rest: seq<Byte>, maxLen: int)
    requires Proper(ts) && NoFrameEnds(ts, false)
    ensures Get(EncodeAll(ts) + Frame(m) + rest, None, maxLen) == Got(Asked(ts), Clip(m, maxLen), rest)
  {
    assert EncodeAll(ts) + Frame(m) + rest == EncodeAll(ts) + (Frame(m) + rest);
    var next := SkipTokens(ts, Frame(m) + rest, None, maxLen);
    GetFrame(m, rest, next, maxLen);
  }

  function Commands(cs: seq<DualByte>): seq<Event> {
    seq(|cs|, i requires 0 <= i < |cs| => Command(cs[i]))
  }

  /** Everything repeated getMsg() calls report. */
  function Pull(s: seq<Byte>, cur: Option<seq<Byte>>, maxLen: int): seq<Event>
    decreases |s|
  {
    var o := Get(s, cur, maxLen);
    Commands(o.commands) + if o.Got? then [Message(o.msg)] + Pull(o.rest, None, maxLen) else []
  }

  datatype Item = Item(before: seq<Token>, msg: seq<Byte>)

  function Sent(items: seq<Item>): seq<Byte> {
    if items == [] then [] else EncodeAll(items[0].before) + Frame(items[0].msg) + Sent(items[1..])
  }

  function Meant(items: seq<Item>, maxLen: int): seq<Event> {
    if items == [] then []
    else Commands(Asked(items[0].before)) + ([Message(Clip(items[0].msg, maxLen))] + Meant(items[1..], maxLen))
  }

  /** Successive messages, with anything but a complete frame in between, come back whole and in order. */
  lemma {:induction false} MessagesInOrder(items: seq<Item>, maxLen: int)
    requires forall i | 0 <= i < |items| :: Proper(items[i].before) && NoFrameEnds(items[i].before, false)
    ensures Pull(Sent(items), None, maxLen) == Meant(items, maxLen)
    decreases |items|
  {
    if items != [] {
      RoundTrip(items[0].before, items[0].msg, Sent(items[1..]), maxLen);
      MessagesInOrder(items[1..], maxLen);
    }
  }
}
