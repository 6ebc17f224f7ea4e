/** The two senders of S3P messages. */
module S3PSenders {
  import opened S3PCode

  class SenderSynchronous {
    var output: seq<Byte>

    constructor ()
      ensures output == []
    {
      output := [];
    }

    method PutByte(c: Byte)
      modifies this
      ensures output == old(output) + [c]
    {
      output := output + [c];
    }

    method PutCommand(c: DualByte)
      modifies this
      ensures output == old(output) + if c == NODATA then [] else [Msb(c), Lsb(c)]
    {
      if c == NODATA {
        return;
      }
      PutByte(Msb(c));
      PutByte(Lsb(c));
    }

    method PutDataByte(c: Byte)
      modifies this
      ensures output == old(output) + Stuffed(c)
    {
      if c == MARK {
        PutCommand(STUFF);
      } else {
        PutByte(c);
      }
    }

    method SendMsg(len: int, s: seq<Byte>)
      requires len <= |s|
      modifies this
      ensures output == old(output) + Frame(if len < 0 then [] else s[..len])
    {
      PutCommand(BOM);
      var i := 0;
      while i < len
        invariant 0 <= i <= |s| && (i <= len || i == 0)
        invariant output == old(output) + [Msb(BOM), Lsb(BOM)] + StuffedAll(s[..i])
      {
        PutDataByte(s[i]);
        assert s[..i + 1] == s[..i] + [s[i]];
        StuffedAppend(s[..i], s[i]);
        i := i + 1;
      }
      PutCommand(EOM);
    }
  }

  /** What is still to be drawn of a message whose opening has been handed over. */
  ghost function Rest(msg: Option<seq<Byte>>): seq<Byte> {
    if msg.None? then [] else StuffedAll(msg.value) + [Msb(EOM), Lsb(EOM)]
  }

  /** What the line draws from now on. */
  ghost function Line(remaining: seq<Byte>, offer: Option<seq<Byte>>): seq<Byte> {
    if remaining == [] && offer.Some? then Frame(offer.value) else remaining
  }

  /** What a command or a data byte looks like on the line. */
  ghost function Wire(c: DualByte): seq<Byte> {
    if IsCommand(c) then [Msb(c), Lsb(c)] else Stuffed(Lsb(c))
  }

  lemma WireStarts(c: DualByte, rest: seq<Byte>)
    requires IsCommand(c) || c < 0x100
    ensures IsCommand(c) ==> Wire(c) + rest == [Msb(c)] + ([Lsb(c)] + rest)
    ensures c == MARK ==> Wire(c) + rest == [Msb(STUFF)] + ([Lsb(STUFF)] + rest)
    ensures !IsCommand(c) && c != MARK ==> Wire(c) + rest == [Lsb(c)] + rest
  {
  }

  lemma DrawOne(drawn: seq<Byte>, r: Byte, rest: seq<Byte>)
    ensures drawn + ([r] + rest) == (drawn + [r]) + rest
  {
  }

  lemma TakeOne(taken: seq<seq<Byte>>, drawn: seq<Byte>, remaining: seq<Byte>, offer: Option<seq<Byte>>)
    requires drawn + remaining == Frames(taken)
    ensures var now := if remaining == [] && offer.Some? then taken + [offer.value] else taken;
            drawn + Line(remaining, offer) == Frames(now)
  {
    if remaining == [] && offer.Some? {
      FramesAppend(taken, offer.value);
    }
  }

  /** S3pMsgSenderAsynchronous: the line draws one byte at a time. */
  class MsgSenderAsynchronous {
    var pendingDualByte: DualByte
    var isABytePending: bool
    /** The rest of the buffer being read: `msg` and `len`. */
    var msg: Option<seq<Byte>>

    /** Every message taken from the application, and every byte handed to the line. */
    ghost var taken: seq<seq<Byte>>
    ghost var drawn: seq<Byte>

    ghost function Remaining(): seq<Byte>
      reads this
    {
      if isABytePending then [Lsb(pendingDualByte)] + Rest(msg) else Rest(msg)
    }

    /** At any time what was drawn is the concatenated frames, short of what remains. */
    ghost predicate Valid()
      reads this
    {
      drawn + Remaining() == Frames(taken)
    }

    constructor ()
      ensures Valid() && Remaining() == [] && taken == [] && drawn == []
    {
      isABytePending, pendingDualByte, msg := false, 0, None;
      taken, drawn := [], [];
    }

    /** `offer` is what requestBufferToRead() would answer. */
    method GetDualByte(offer: Option<seq<Byte>>) returns (r: DualByte)
      requires !isABytePending
      modifies this`msg
      ensures r == NODATA <==> Line(Rest(old(msg)), offer) == []
      ensures r == NODATA ==> msg.None?
      ensures IsCommand(r) || r < 0x100
      ensures r != NODATA ==> Line(Rest(old(msg)), offer) == Wire(r) + Rest(msg)
    {
      if msg == None {
        msg := offer;
        return if msg == None then NODATA else BOM;
      }
      if |msg.value| == 0 {
        msg := None;
        return EOM;
      }
      r := msg.value[0];
      msg := Some(msg.value[1..]);
    }

    /** The byte after this poll's start: of what remained, or of the frame of a new message. */
    method NextByte(offer: Option<seq<Byte>>) returns (r: DualByte)
      modifies this`pendingDualByte, this`isABytePending, this`msg
      ensures Line(old(Remaining()), offer) == [] ==> r == NODATA && Remaining() == []
      ensures Line(old(Remaining()), offer) != [] ==> r < 0x100 && Line(old(Remaining()), offer) == [r] + Remaining()
    {
      if isABytePending {
        isABytePending := false;
        return Lsb(pendingDualByte);
      }
      pendingDualByte := GetDualByte(offer);
      WireStarts(pendingDualByte, Rest(msg));
      if pendingDualByte == NODATA {
        return NODATA;
      }
      r := Lsb(pendingDualByte);
      if IsCommand(pendingDualByte) {
        isABytePending := true;
        r := Msb(pendingDualByte);
      } else if pendingDualByte == MARK {
        pendingDualByte := STUFF;
        isABytePending := true;
        r := Msb(STUFF);
      }
    }

    /**
      getByteOrNODATA(): the next byte of the frames, or NODATA: only between two frames, and only
      when the application has nothing to send.
    */
    method GetByteOrNODATA(offer: Option<seq<Byte>>) returns (r: DualByte)
      requires Valid()
      modifies this
      ensures Valid()
      ensures taken == if old(Remaining()) == [] && offer.Some? then old(taken) + [offer.value] else old(taken)
      ensures r == NODATA <==> old(Remaining()) == [] && offer.None?
      ensures r == NODATA ==> drawn == old(drawn) == Frames(taken)
      ensures r != NODATA ==> r < 0x100 && drawn == old(drawn) + [r]
    {
      TakeOne(taken, drawn, Remaining(), offer);
      taken := if Remaining() == [] && offer.Some? then taken + [offer.value] else taken;
      r := NextByte(offer);
      if r != NODATA {
        DrawOne(drawn, r, Remaining());
        drawn := drawn + [r];
      }
    }
  }
}
