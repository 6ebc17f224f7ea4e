/**
  The interrupt-driven S3P receiver (support/support-libs/s3p-asynchronous-interface.h:124-140) and its
  agreement with getMsg().
*/
module S3PPush {
  import opened S3PCode
  import opened S3PReceivers

  /** half: the last byte was a MARK; cur: the message so far; room: the size of the buffer in hand. */
  datatype PushState = PushState(half: bool, cur: Option<seq<Byte>>, room: Option<int>)

  /** Before the first byte. */
  const Start := PushState(false, None, None)

  function AddIn(cur: Option<seq<Byte>>, c: Byte, room: Option<int>): Option<seq<Byte>> {
    if room.Some? then Add(cur, c, room.value) else cur
  }

  function Room(st: PushState, offer: Option<int>): Option<int> {
    if st.room.None? then offer else st.room
  }

  /** `offer` is the size of the buffer requestBufferToWrite() would hand out, if any. */
  function PushStep(st: PushState, c: Byte, offer: Option<int>): PushState {
    var room := Room(st, offer);
    if c == MARK then PushState(true, st.cur, room)
    else if !st.half then PushState(false, AddIn(st.cur, c, room), room)
    else
      var code := COMMAND + c;
      if code == STUFF then PushState(false, AddIn(st.cur, MARK, room), room)
      else if code == EOM then PushState(false, None, if st.cur.Some? then None else room)
      else if code == BOM then PushState(false, if room.Some? then Some([]) else st.cur, room)
      else PushState(false, st.cur, room)
  }

  function PushReport(st: PushState, c: Byte): seq<Event> {
    if c == MARK || !st.half then []
    else
      var code := COMMAND + c;
      if code == EOM then (if st.cur.Some? then [Message(st.cur.value)] else [])
      else if code == STUFF || code == BOM then []
      else [Command(code)]
  }

  class ReceiverAsynchronous {
    var len: int
    var msg: array?<Byte>
    var maxLen: int
    var dualByte: DualByte
    /** What endOfMessage() and executeCommand() were told. */
    var reported: seq<Event>

    ghost predicate Valid()
      reads this
    {
      (dualByte == 0 || dualByte == MARK || dualByte == NEVER_USE) && ValidBuffer()
    }

    ghost predicate ValidBuffer()
      reads this
    {
      && -1 <= len && (len >= 0 ==> msg != null && len <= msg.Length)
      && (msg != null ==> maxLen <= msg.Length)
    }

    ghost function State(): PushState
      requires ValidBuffer()
      reads this, msg
    {
      PushState(dualByte != 0, if len < 0 then None else Some(msg[..len]), if msg == null then None else Some(maxLen))
    }

    constructor ()
      ensures Valid() && State() == Start && reported == []
    {
      len, msg, maxLen, dualByte, reported := -1, null, 1300, 0, [];
    }

    /** One more data byte into the application's buffer. */
    method Store(c: Byte)
      requires ValidBuffer()
      modifies this`len, msg
      ensures ValidBuffer()
      ensures State() == old(State()).(cur := AddIn(old(State()).cur, c, old(State()).room))
    {
      if msg != null && 0 <= len < maxLen {
        msg[len] := c;
        len := len + 1;
        assert msg[..len] == old(msg[..len]) + [c];
      }
    }

    method PutByte(inputByte: Byte, buffer: array?<Byte>, bufferLen: int)
      requires Valid() && (buffer != null ==> bufferLen <= buffer.Length)
      modifies this, msg, buffer
      ensures Valid()
      ensures State() == PushStep(old(State()), inputByte, if buffer == null then None else Some(bufferLen))
      ensures reported == old(reported) + PushReport(old(State()), inputByte)
    {
      if msg == null {
        msg, maxLen := buffer, bufferLen;
      }
      dualByte := dualByte % 0x100 * 0x100 + inputByte;
      if inputByte == MARK {
        return;
      }
      if Msb(dualByte) == 0 {
        dualByte := 0;
      }
      if dualByte == 0 {
        Store(inputByte);
      } else if dualByte == STUFF {
        Store(MARK);
      } else if dualByte == EOM {
        if len >= 0 {
          reported := reported + [Message(msg[..len])];
          msg, len := null, -1;
        }
      } else if dualByte == BOM {
        if msg != null {
          len := 0;
        }
      } else {
        reported := reported + [Command(dualByte)];
      }
      dualByte := 0;
    }
  }

  /** All reports of a stream, when a buffer of this size is handed out each time one is asked for. */
  function Push(s: seq<Byte>, st: PushState, maxLen: int): seq<Event> {
    if s == [] then [] else PushReport(st, s[0]) + Push(s[1..], PushStep(st, s[0], Some(maxLen)), maxLen)
  }

  predicate NoAdjacentMarks(s: seq<Byte>) {
    forall i | 0 < i < |s| :: s[i - 1] == MARK ==> s[i] != MARK
  }

  lemma PullData(c: Byte, t: seq<Byte>, cur: Option<seq<Byte>>, maxLen: int)
    requires c != MARK
    ensures Pull([c] + t, cur, maxLen) == Pull(t, Add(cur, c, maxLen), maxLen)
  {
    GetData(c, t, cur, maxLen);
  }

  lemma PullAfter(code: DualByte, o: Outcome)
    ensures Commands(After(code, o).commands) == [Command(code)] + Commands(o.commands)
  {
  }

  lemma PullCommand(low: Byte, t: seq<Byte>, cur: Option<seq<Byte>>, maxLen: int)
    ensures var code := COMMAND + low;
            Pull([MARK, low] + t, cur, maxLen) ==
            if code == BOM then Pull(t, Some([]), maxLen)
            else if code == EOM then (if cur.Some? then [Message(cur.value)] + Pull(t, None, maxLen) else Pull(t, cur, maxLen))
            else if code == STUFF then Pull(t, Add(cur, MARK, maxLen), maxLen)
            else [Command(code)] + Pull(t, cur, maxLen)
  {
    GetCommand(low, t, cur, maxLen);
    PullAfter(COMMAND + low, Get(t, cur, maxLen));
  }

  /** Two bytes of a command, pushed one after the other. */
  lemma PushCommand(low: Byte, t: seq<Byte>, st: PushState, maxLen: int)
    requires low != MARK && !st.half
    ensures var half := PushState(true, st.cur, Room(st, Some(maxLen)));
            Push([MARK, low] + t, st, maxLen) == PushReport(half, low) + Push(t, PushStep(half, low, Some(maxLen)), maxLen)
  {
    var s := [MARK, low] + t;
    assert s[1..] == [low] + t;
    assert s[1..][1..] == t;
  }

  /** Between two bytes: a message is open only in a buffer, and all buffers have this size. */
  predicate Ready(st: PushState, maxLen: int) {
    !st.half && (st.room.None? ==> st.cur.None?) && (st.room.Some? ==> st.room.value == maxLen)
  }

  lemma {:induction false} Agree(s: seq<Byte>, st: PushState, maxLen: int)
    requires NoAdjacentMarks(s) && Ready(st, maxLen)
    ensures Push(s, st, maxLen) == Pull(s, st.cur, maxLen)
    decreases |s|
  {
    if s == [] {
    } else if s[0] != MARK {
      assert s == [s[0]] + s[1..];
      PullData(s[0], s[1..], st.cur, maxLen);
      Agree(s[1..], PushStep(st, s[0], Some(maxLen)), maxLen);
    } else if |s| == 1 {
      assert Push(s[1..], PushStep(st, s[0], Some(maxLen)), maxLen) == [];
    } else {
      var t := s[2..];
      assert s == [MARK, s[1]] + t;
      assert s[1 - 1] == MARK;
      PullCommand(s[1], t, st.cur, maxLen);
      PushCommand(s[1], t, st, maxLen);
      var half := PushState(true, st.cur, Room(st, Some(maxLen)));
      assert NoAdjacentMarks(t) by {
        forall i | 0 < i < |t| ensures t[i - 1] == MARK ==> t[i] != MARK {
          assert s[i + 2 - 1] == t[i - 1] && s[i + 2] == t[i];
        }
      }
      Agree(t, PushStep(half, s[1], Some(maxLen)), maxLen);
    }
  }

  /** Pushed bytes never report the word that must never be used. */
  lemma {:induction false} PushNeverReports(s: seq<Byte>, st: PushState, maxLen: int)
    ensures Command(NEVER_USE) !in Push(s, st, maxLen)
    decreases |s|
  {
    if s != [] {
      PushNeverReports(s[1..], PushStep(st, s[0], Some(maxLen)), maxLen);
    }
  }

  /** getMsg() reports it for two adjacent MARKs. */
  lemma {:induction false} PullReports(s: seq<Byte>, cur: Option<seq<Byte>>, maxLen: int, i: nat)
    requires i + 1 < |s| && s[i] == MARK && s[i + 1] == MARK
    ensures Command(NEVER_USE) in Pull(s, cur, maxLen)
    decreases |s|
  {
    if s[0] != MARK {
      assert s == [s[0]] + s[1..];
      PullData(s[0], s[1..], cur, maxLen);
      PullReports(s[1..], Add(cur, s[0], maxLen), maxLen, i - 1);
    } else {
      var t := s[2..];
      assert s == [MARK, s[1]] + t;
      PullCommand(s[1], t, cur, maxLen);
      if s[1] != MARK {
        var code := COMMAND + s[1];
        PullReports(t, if code == BOM then Some([]) else if code == EOM then None
                       else if code == STUFF then Add(cur, MARK, maxLen) else cur, maxLen, i - 2);
      }
    }
  }

  /** The pushed receiver reports the same messages and commands as getMsg() exactly on streams without adjacent MARKs. */
  lemma ReceiversAgreeExactlyWhen(s: seq<Byte>, maxLen: int)
    ensures Push(s, Start, maxLen) == Pull(s, None, maxLen) <==> NoAdjacentMarks(s)
  {
    if NoAdjacentMarks(s) {
      Agree(s, Start, maxLen);
    } else {
      var i :| 0 < i < |s| && !(s[i - 1] == MARK ==> s[i] != MARK);
      PullReports(s, None, maxLen, i - 1);
      PushNeverReports(s, Start, maxLen);
    }
  }

  /** A piece of a stream that leaves no MARK open at its end. */
  predicate Closed(s: seq<Byte>) {
    NoAdjacentMarks(s) && (s != [] ==> s[|s| - 1] != MARK)
  }

  lemma ClosedConcat(a: seq<Byte>, b: seq<Byte>)
    requires Closed(a) && Closed(b)
    ensures Closed(a + b)
  {
    var s := a + b;
    forall i | 0 < i < |s|
      ensures s[i - 1] == MARK ==> s[i] != MARK
    {
      if i > |a| {
        assert s[i - 1] == b[i - |a| - 1] && s[i] == b[i - |a|];
      }
    }
  }

  lemma {:induction false} StuffedIsClosed(m: seq<Byte>)
    ensures Closed(StuffedAll(m))
    decreases |m|
  {
    if m != [] {
      StuffedIsClosed(m[1..]);
      ClosedConcat(Stuffed(m[0]), StuffedAll(m[1..]));
    }
  }

  lemma {:induction false} EncodedIsClosed(ts: seq<Token>)
    requires Proper(ts)
    ensures Closed(EncodeAll(ts))
    decreases |ts|
  {
    if ts != [] {
      EncodedIsClosed(ts[1..]);
      ClosedConcat(Encode(ts[0]), EncodeAll(ts[1..]));
    }
  }

  /** No sender ever puts two MARKs side by side. */
  lemma {:induction false} SentIsClosed(items: seq<Item>)
    requires forall i | 0 <= i < |items| :: Proper(items[i].before)
    ensures Closed(Sent(items))
    decreases |items|
  {
    if items != [] {
      var m := items[0].msg;
      EncodedIsClosed(items[0].before);
      StuffedIsClosed(m);
      ClosedConcat([Msb(BOM), Lsb(BOM)], StuffedAll(m));
      ClosedConcat([Msb(BOM), Lsb(BOM)] + StuffedAll(m), [Msb(EOM), Lsb(EOM)]);
      ClosedConcat(EncodeAll(items[0].before), Frame(m));
      SentIsClosed(items[1..]);
      ClosedConcat(EncodeAll(items[0].before) + Frame(m), Sent(items[1..]));
    }
  }

  /** So the pushed receiver, too, gives back what the senders meant. */
  lemma PushedRoundTrip(items: seq<Item>, maxLen: int)
    requires forall i | 0 <= i < |items| :: Proper(items[i].before) && NoFrameEnds(items[i].before, false)
    ensures Push(Sent(items), Start, maxLen) == Meant(items, maxLen)
  {
    MessagesInOrder(items, maxLen);
    SentIsClosed(items);
    ReceiversAgreeExactlyWhen(Sent(items), maxLen);
  }
}
