/**
  The pushed S3P receiver when the application sometimes has a buffer and sometimes has none: what is
  reported for a stream, told of the positions in the stream instead of the receiver's state.
*/
module S3POffers {
  import opened S3PCode
  import opened S3PPush

  /** One offer for each byte: the size of the buffer that requestBufferToWrite() would hand out then, if any. */
  type Offers = seq<Option<int>>

  /** The receiver after the first n bytes. */
  function StateAfter(s: seq<Byte>, offers: Offers, n: nat): PushState
    requires n <= |s| == |offers|
  {
    if n == 0 then Start else PushStep(StateAfter(s, offers, n - 1), s[n - 1], offers[n - 1])
  }

  /** What is reported for each byte. */
  function Reported(s: seq<Byte>, offers: Offers): seq<seq<Event>>
    requires |s| == |offers|
  {
    seq(|s|, i requires 0 <= i < |s| => PushReport(StateAfter(s, offers, i), s[i]))
  }

  function Joined(xs: seq<seq<Event>>): seq<Event> {
    if xs == [] then [] else xs[0] + Joined(xs[1..])
  }

  /** All reports. */
  function Reports(s: seq<Byte>, offers: Offers): seq<Event>
    requires |s| == |offers|
  {
    Joined(Reported(s, offers))
  }

  // ---------------------------------------------------------------- the stream by positions

  /** Byte i is the second byte of a word. */
  predicate EndsWord(s: seq<Byte>, i: int) {
    0 < i < |s| && s[i - 1] == MARK && s[i] != MARK
  }

  predicate IsCode(s: seq<Byte>, i: int, code: DualByte) {
    EndsWord(s, i) && COMMAND + s[i] == code
  }

  /** The data that byte i completes. */
  function DataAt(s: seq<Byte>, i: nat): seq<Byte>
    requires i < |s|
  {
    if s[i] == MARK then [] else if !EndsWord(s, i) then [s[i]] else if IsCode(s, i, STUFF) then [MARK] else []
  }

  /** The data in bytes b up to e. */
  function Content(s: seq<Byte>, b: nat, e: nat): seq<Byte>
    requires e <= |s|
    decreases e
  {
    if b >= e then [] else Content(s, b, e - 1) + DataAt(s, e - 1)
  }

  /** The buffer in hand when byte i arrives: kept from before unless a message has just been delivered in it, or taken now. */
  function BufferAt(s: seq<Byte>, offers: Offers, i: nat): Option<int>
    requires i < |s| == |offers|
    decreases i, 0
  {
    var held := if i == 0 || Delivers(s, offers, i - 1) then None else BufferAt(s, offers, i - 1);
    if held.Some? then held else offers[i]
  }

  /** Byte e ends a message that was begun. */
  predicate Delivers(s: seq<Byte>, offers: Offers, e: nat)
    requires e < |s| == |offers|
    decreases e, 2
  {
    IsCode(s, e, EOM) && BegunAt(s, offers, e) >= 0
  }

  /** The BOM of the message open before byte e, or -1: the latest that found a buffer in hand, and no EOM since. */
  function BegunAt(s: seq<Byte>, offers: Offers, e: nat): (b: int)
    requires e <= |s| == |offers|
    ensures -1 <= b < e
    ensures b >= 0 ==> IsCode(s, b, BOM) && BufferAt(s, offers, b).Some?
    decreases e, 1
  {
    if e == 0 || IsCode(s, e - 1, EOM) then -1
    else if IsCode(s, e - 1, BOM) && BufferAt(s, offers, e - 1).Some? then e - 1
    else BegunAt(s, offers, e - 1)
  }

  /** What byte e brings about. */
  function ReportAt(s: seq<Byte>, offers: Offers, e: nat): seq<Event>
    requires e < |s| == |offers|
  {
    MessageAt(s, offers, e) + CommandAt(s, e)
  }

  /** A message, clipped to the buffer that was in hand at its BOM. */
  function MessageAt(s: seq<Byte>, offers: Offers, e: nat): seq<Event>
    requires e < |s| == |offers|
  {
    if !Delivers(s, offers, e) then []
    else
      var b := BegunAt(s, offers, e);
      [Message(Clip(Content(s, b + 1, e), BufferAt(s, offers, b).value))]
  }

  /** A command: any word but those of the framing, buffer or not. */
  function CommandAt(s: seq<Byte>, e: nat): seq<Event> {
    if EndsWord(s, e) && !IsCode(s, e, BOM) && !IsCode(s, e, EOM) && !IsCode(s, e, STUFF) then [Command(COMMAND + s[e])] else []
  }

  // ---------------------------------------------------------------- the receiver follows it

  /** The buffer in hand after n bytes. */
  function Held(s: seq<Byte>, offers: Offers, n: nat): Option<int>
    requires n <= |s| == |offers|
  {
    if n == 0 || Delivers(s, offers, n - 1) then None else BufferAt(s, offers, n - 1)
  }

  /** The message so far after n bytes. */
  function Open(s: seq<Byte>, offers: Offers, n: nat): Option<seq<Byte>>
    requires n <= |s| == |offers|
  {
    var b := BegunAt(s, offers, n);
    if b < 0 then None else Some(Clip(Content(s, b + 1, n), BufferAt(s, offers, b).value))
  }

  /** While a message is open, its buffer stays in hand. */
  lemma {:induction false} BufferStays(s: seq<Byte>, offers: Offers, n: nat)
    requires n <= |s| == |offers|
    ensures var b := BegunAt(s, offers, n); b >= 0 ==> Held(s, offers, n) == BufferAt(s, offers, b)
    decreases n
  {
    if n > 0 && BegunAt(s, offers, n) >= 0 && BegunAt(s, offers, n) != n - 1 {
      BufferStays(s, offers, n - 1);
    }
  }

  lemma ClipAdd(m: seq<Byte>, c: Byte, maxLen: int)
    ensures Add(Some(Clip(m, maxLen)), c, maxLen) == Some(Clip(m + [c], maxLen))
  {
    if 0 < maxLen < |m| + 1 {
      assert (m + [c])[..maxLen] == m[..maxLen];
    }
  }

  /** A byte that neither begins nor ends a message adds its data to it. */
  lemma OpenGrows(s: seq<Byte>, offers: Offers, n: nat)
    requires n < |s| == |offers| && !IsCode(s, n, EOM) && !IsCode(s, n, BOM)
    ensures Open(s, offers, n + 1) ==
            if DataAt(s, n) == [] then Open(s, offers, n)
            else AddIn(Open(s, offers, n), DataAt(s, n)[0], BufferAt(s, offers, n))
  {
    var b := BegunAt(s, offers, n);
    assert BegunAt(s, offers, n + 1) == b;
    if b >= 0 {
      BufferStays(s, offers, n + 1);
      var m := Content(s, b + 1, n);
      assert Content(s, b + 1, n + 1) == m + DataAt(s, n);
      if DataAt(s, n) != [] {
        assert DataAt(s, n) == [DataAt(s, n)[0]];
        ClipAdd(m, DataAt(s, n)[0], BufferAt(s, offers, b).value);
      } else {
        assert m + [] == m;
      }
    }
  }

  /** The receiver's state is what the positions say. */
  lemma {:induction false} StateIs(s: seq<Byte>, offers: Offers, n: nat)
    requires n <= |s| == |offers|
    ensures StateAfter(s, offers, n) ==
            PushState(n > 0 && s[n - 1] == MARK, Open(s, offers, n), Held(s, offers, n))
    decreases n
  {
    if n > 0 {
      StateIs(s, offers, n - 1);
      if IsCode(s, n - 1, EOM) || IsCode(s, n - 1, BOM) {
        BufferStays(s, offers, n - 1);
      } else {
        OpenGrows(s, offers, n - 1);
      }
    }
  }

  /** What the receiver reports for byte n is what the positions say. */
  lemma ReportsWhatArrived(s: seq<Byte>, offers: Offers, n: nat)
    requires n < |s| == |offers|
    ensures PushReport(StateAfter(s, offers, n), s[n]) == ReportAt(s, offers, n)
  {
    StateIs(s, offers, n);
  }

  // ---------------------------------------------------------------- commands and messages

  function OnlyCommands(es: seq<Event>): seq<Event> {
    if es == [] then [] else (if es[0].Command? then [es[0]] else []) + OnlyCommands(es[1..])
  }

  function OnlyMessages(es: seq<Event>): seq<Event> {
    if es == [] then [] else (if es[0].Message? then [es[0]] else []) + OnlyMessages(es[1..])
  }

  /** The commands in a stream, byte by byte. */
  function CommandsIn(s: seq<Byte>): seq<seq<Event>> {
    seq(|s|, i requires 0 <= i < |s| => CommandAt(s, i))
  }

  /** The messages in it that began with a buffer in hand. */
  function MessagesIn(s: seq<Byte>, offers: Offers): seq<seq<Event>>
    requires |s| == |offers|
  {
    seq(|s|, i requires 0 <= i < |s| => MessageAt(s, offers, i))
  }

  lemma FilterOne(x: seq<Event>, es: seq<Event>)
    requires |x| <= 1
    ensures OnlyCommands(x + es) == OnlyCommands(x) + OnlyCommands(es)
    ensures OnlyMessages(x + es) == OnlyMessages(x) + OnlyMessages(es)
  {
    if x == [] {
      assert x + es == es;
    } else {
      assert (x + es)[1..] == es;
      assert x[1..] == [];
    }
  }

  /** Filtering all reports is filtering them byte by byte. */
  lemma {:induction false} FilterJoined(xs: seq<seq<Event>>, cs: seq<seq<Event>>, ms: seq<seq<Event>>)
    requires |xs| == |cs| == |ms|
    requires forall i | 0 <= i < |xs| :: |xs[i]| <= 1 && OnlyCommands(xs[i]) == cs[i] && OnlyMessages(xs[i]) == ms[i]
    ensures OnlyCommands(Joined(xs)) == Joined(cs) && OnlyMessages(Joined(xs)) == Joined(ms)
    decreases |xs|
  {
    if xs != [] {
      FilterOne(xs[0], Joined(xs[1..]));
      FilterJoined(xs[1..], cs[1..], ms[1..]);
    }
  }

  /**
    Whatever buffers the application offers, and whenever: the commands reported are those of the stream,
    and the messages are those whose BOM found a buffer in hand, each clipped to the size of that buffer.
  */
  lemma ReportsUnderOffers(s: seq<Byte>, offers: Offers)
    requires |s| == |offers|
    ensures OnlyCommands(Reports(s, offers)) == Joined(CommandsIn(s))
    ensures OnlyMessages(Reports(s, offers)) == Joined(MessagesIn(s, offers))
  {
    var xs, cs, ms := Reported(s, offers), CommandsIn(s), MessagesIn(s, offers);
    forall i | 0 <= i < |xs|
      ensures |xs[i]| <= 1 && OnlyCommands(xs[i]) == cs[i] && OnlyMessages(xs[i]) == ms[i]
    {
      ReportsWhatArrived(s, offers, i);
      OneKind(s, offers, i);
    }
    FilterJoined(xs, cs, ms);
  }

  lemma OneKind(s: seq<Byte>, offers: Offers, e: nat)
    requires e < |s| == |offers|
    ensures |ReportAt(s, offers, e)| <= 1
    ensures OnlyCommands(ReportAt(s, offers, e)) == CommandAt(s, e)
    ensures OnlyMessages(ReportAt(s, offers, e)) == MessageAt(s, offers, e)
  {
    if ReportAt(s, offers, e) != [] {
      assert ReportAt(s, offers, e)[1..] == [];
    }
  }

  /** So two applications that offer different buffers are told the same commands. */
  lemma CommandsIgnoreOffers(s: seq<Byte>, first: Offers, second: Offers)
    requires |first| == |second| == |s|
    ensures OnlyCommands(Reports(s, first)) == OnlyCommands(Reports(s, second))
  {
    ReportsUnderOffers(s, first);
    ReportsUnderOffers(s, second);
  }

  /** An EOM that ends no message reports nothing, opens nothing and leaves the buffer in hand. */
  lemma LoneEndChangesNothing(s: seq<Byte>, offers: Offers, e: nat)
    requires e < |s| == |offers| && IsCode(s, e, EOM) && StateAfter(s, offers, e).cur.None?
    ensures Reported(s, offers)[e] == []
    ensures StateAfter(s, offers, e + 1) == PushState(false, None, Room(StateAfter(s, offers, e), offers[e]))
  {
    StateIs(s, offers, e);
    ReportsWhatArrived(s, offers, e);
  }
}
